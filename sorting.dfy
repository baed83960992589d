/**
  A stable insertion sort parameterised by a comparison, with the facts the
  harness relies on: the result is a sorted permutation of the input, sorting
  a sorted sequence changes nothing, and two permutations of one another sort
  to the same sequence when ties only occur between equal elements.
*/
module Sorting {

  /** `le` is total and transitive: a total preorder. */
  ghost predicate TotalPreorder<T(!new)>(le: (T, T) -> bool) {
    && (forall a, b :: le(a, b) || le(b, a))
    && (forall a, b, c :: le(a, b) && le(b, c) ==> le(a, c))
  }

  predicate Sorted<T>(s: seq<T>, le: (T, T) -> bool) {
    forall i, j | 0 <= i < j < |s| :: le(s[i], s[j])
  }

  /** Two elements of `s` that compare equal under `le` are the same element. */
  ghost predicate TiesAreEqual<T>(s: seq<T>, le: (T, T) -> bool) {
    forall x, y | x in s && y in s && le(x, y) && le(y, x) :: x == y
  }

  function MapSeq<T, U>(f: T -> U, s: seq<T>): (r: seq<U>)
    ensures |r| == |s|
    ensures forall i | 0 <= i < |s| :: r[i] == f(s[i])
  {
    seq(|s|, i requires 0 <= i < |s| => f(s[i]))
  }

  /** Inserts `x` before the first element it is not after. */
  function Insert<T>(x: T, s: seq<T>, le: (T, T) -> bool): (r: seq<T>)
    ensures |r| == |s| + 1
    ensures multiset(r) == multiset(s) + multiset{x}
  {
    if s == [] || le(x, s[0]) then [x] + s
    else
      assert s == [s[0]] + s[1..];
      [s[0]] + Insert(x, s[1..], le)
  }

  function SortBy<T>(s: seq<T>, le: (T, T) -> bool): (r: seq<T>)
    ensures |r| == |s|
    ensures multiset(r) == multiset(s)
  {
    if s == [] then []
    else
      assert s == [s[0]] + s[1..];
      Insert(s[0], SortBy(s[1..], le), le)
  }

  lemma {:induction false} InsertKeepsSorted<T(!new)>(x: T, s: seq<T>, le: (T, T) -> bool)
    requires TotalPreorder(le)
    requires Sorted(s, le)
    ensures Sorted(Insert(x, s, le), le)
  {
    if s == [] || le(x, s[0]) {
      var r := [x] + s;
      forall i, j | 0 <= i < j < |r| ensures le(r[i], r[j]) {
        if i == 0 && j > 1 {
          assert le(s[0], s[j - 1]);
        }
      }
    } else {
      var tail := Insert(x, s[1..], le);
      InsertKeepsSorted(x, s[1..], le);
      var r := [s[0]] + tail;
      assert le(s[0], x);
      forall j | 0 < j < |r| ensures le(s[0], r[j]) {
        assert r[j] in multiset(tail);
        assert r[j] in multiset(s[1..]) + multiset{x};
        if r[j] != x {
          assert r[j] in s[1..];
          var k :| 0 <= k < |s[1..]| && s[1..][k] == r[j];
          assert le(s[0], s[k + 1]);
        }
      }
    }
  }

  lemma {:induction false} SortIsSorted<T(!new)>(s: seq<T>, le: (T, T) -> bool)
    requires TotalPreorder(le)
    ensures Sorted(SortBy(s, le), le)
  {
    if s != [] {
      SortIsSorted(s[1..], le);
      InsertKeepsSorted(s[0], SortBy(s[1..], le), le);
    }
  }

  /** Sorting an already sorted sequence returns it unchanged. */
  lemma {:induction false} SortOfSortedIsIdentity<T>(s: seq<T>, le: (T, T) -> bool)
    requires Sorted(s, le)
    ensures SortBy(s, le) == s
  {
    if s != [] {
      assert Sorted(s[1..], le) by {
        forall i, j | 0 <= i < j < |s[1..]| ensures le(s[1..][i], s[1..][j]) {
          assert le(s[i + 1], s[j + 1]);
        }
      }
      SortOfSortedIsIdentity(s[1..], le);
      if |s| > 1 {
        assert le(s[0], s[1]);
      }
      assert [s[0]] + s[1..] == s;
    }
  }

  lemma CancelSingleton<T>(x: T, m: multiset<T>, n: multiset<T>)
    requires multiset{x} + m == multiset{x} + n
    ensures m == n
  {
    forall z ensures m[z] == n[z] {
      assert (multiset{x} + m)[z] == (multiset{x} + n)[z];
    }
  }

  /** Two sorted permutations of one another whose ties are equal elements coincide. */
  lemma {:induction false} SortedPermutationsAreEqual<T(!new)>(a: seq<T>, b: seq<T>, le: (T, T) -> bool)
    requires Sorted(a, le) && Sorted(b, le)
    requires multiset(a) == multiset(b)
    requires TiesAreEqual(a, le)
    ensures a == b
  {
    if a == [] {
      assert |b| == |multiset(b)| == 0;
    } else {
      assert |b| == |multiset(b)| == |a|;
      assert a[0] in multiset(b);
      var j :| 0 <= j < |b| && b[j] == a[0];
      assert b[0] in multiset(a);
      var i :| 0 <= i < |a| && a[i] == b[0];
      if i != 0 {
        assert le(a[0], a[i]);
        if j != 0 {
          assert le(b[0], b[j]);
        }
      }
      assert a[0] == b[0];
      assert a == [a[0]] + a[1..];
      assert b == [b[0]] + b[1..];
      assert multiset(a) == multiset{a[0]} + multiset(a[1..]);
      assert multiset(b) == multiset{b[0]} + multiset(b[1..]);
      CancelSingleton(a[0], multiset(a[1..]), multiset(b[1..]));
      assert Sorted(a[1..], le) by {
        forall p, q | 0 <= p < q < |a[1..]| ensures le(a[1..][p], a[1..][q]) {
          assert le(a[p + 1], a[q + 1]);
        }
      }
      assert Sorted(b[1..], le) by {
        forall p, q | 0 <= p < q < |b[1..]| ensures le(b[1..][p], b[1..][q]) {
          assert le(b[p + 1], b[q + 1]);
        }
      }
      assert TiesAreEqual(a[1..], le) by {
        forall x, y | x in a[1..] && y in a[1..] && le(x, y) && le(y, x) ensures x == y {
          assert x in a && y in a;
        }
      }
      SortedPermutationsAreEqual(a[1..], b[1..], le);
    }
  }

  /** Permutations of one another sort to the same sequence when ties are equal elements. */
  lemma SortIgnoresInputOrder<T(!new)>(a: seq<T>, b: seq<T>, le: (T, T) -> bool)
    requires TotalPreorder(le)
    requires multiset(a) == multiset(b)
    requires TiesAreEqual(a, le)
    ensures SortBy(a, le) == SortBy(b, le)
  {
    SortIsSorted(a, le);
    SortIsSorted(b, le);
    var sa := SortBy(a, le);
    assert TiesAreEqual(sa, le) by {
      forall x, y | x in sa && y in sa && le(x, y) && le(y, x) ensures x == y {
        assert x in multiset(sa) && y in multiset(sa);
        assert x in a && y in a;
      }
    }
    SortedPermutationsAreEqual(sa, SortBy(b, le), le);
  }

  lemma MapDistributes<T, U>(f: T -> U, x: seq<T>, y: seq<T>)
    ensures MapSeq(f, x + y) == MapSeq(f, x) + MapSeq(f, y)
  {
  }

  /** Applying `f` elementwise carries a permutation over to the images. */
  lemma {:induction false} MapKeepsPermutation<T, U>(f: T -> U, a: seq<T>, b: seq<T>)
    requires multiset(a) == multiset(b)
    ensures multiset(MapSeq(f, a)) == multiset(MapSeq(f, b))
  {
    if a == [] {
      assert |b| == |multiset(b)| == 0;
    } else {
      var x := a[0];
      assert x in multiset(b);
      var j :| 0 <= j < |b| && b[j] == x;
      var pre, post := b[..j], b[j + 1..];
      RemoveOne(a, b, j);
      MapKeepsPermutation(f, a[1..], pre + post);
      assert a == [x] + a[1..];
      assert b == pre + [x] + post;
      MapAround(f, x, a[1..], pre, post, a, b);
    }
  }

  lemma RemoveOne<T>(a: seq<T>, b: seq<T>, j: nat)
    requires a != [] && j < |b| && b[j] == a[0]
    requires multiset(a) == multiset(b)
    ensures multiset(a[1..]) == multiset(b[..j] + b[j + 1..])
  {
    var pre, post := b[..j], b[j + 1..];
    assert b == pre + [a[0]] + post;
    assert a == [a[0]] + a[1..];
    assert multiset(b) == multiset(pre) + multiset{a[0]} + multiset(post);
    assert multiset(a) == multiset{a[0]} + multiset(a[1..]);
    assert multiset(pre + post) == multiset(pre) + multiset(post);
    CancelSingleton(a[0], multiset(a[1..]), multiset(pre + post));
  }

  lemma MapAround<T, U>(f: T -> U, x: T, rest: seq<T>, pre: seq<T>, post: seq<T>, a: seq<T>, b: seq<T>)
    requires a == [x] + rest && b == pre + [x] + post
    requires multiset(MapSeq(f, rest)) == multiset(MapSeq(f, pre + post))
    ensures multiset(MapSeq(f, a)) == multiset(MapSeq(f, b))
  {
    MapDistributes(f, [x], rest);
    MapDistributes(f, pre + [x], post);
    MapDistributes(f, pre, [x]);
    MapDistributes(f, pre, post);
  }
}

/**
  The document normaliser (`normalizeObject`): scalars are kept, every other
  non-array value is refused, and an array keeps its key order when its first
  key is the integer 0 and is otherwise reordered by key; every value inside is
  normalised recursively.
*/
module Normalizer {
  import opened Wrappers
  import opened Sorting
  import opened PhpValues

  datatype NormalizeError = UnexpectedObjectType

  /** The list test of the source: the first key is exactly the integer 0. */
  predicate FirstKeyIsZero(es: seq<Entry>) {
    |es| > 0 && es[0].0 == IntKey(0)
  }

  /**
    The entries with every value normalised, keys and order untouched; an
    unsupported value anywhere inside makes the whole array fail.
  */
  function NormalizeEntries(es: seq<Entry>): (r: Result<seq<Entry>, NormalizeError>)
    decreases Arr(es), 1
    ensures r.Ok? <==> forall i | 0 <= i < |es| :: Supported(es[i].1)
    ensures r.Ok? ==> |r.value| == |es|
    ensures r.Ok? ==> forall i | 0 <= i < |es| :: r.value[i].0 == es[i].0 && Normalize(es[i].1) == Ok(r.value[i].1)
  {
    if forall i | 0 <= i < |es| :: Supported(es[i].1) then
      Ok(seq(|es|, i requires 0 <= i < |es| => (es[i].0, Normalize(es[i].1).value)))
    else
      Err(UnexpectedObjectType)
  }

  function Normalize(v: Value): (r: Result<Value, NormalizeError>)
    decreases v, 2
    ensures r.Ok? <==> Supported(v)
    ensures IsScalar(v) ==> r == Ok(v)
    ensures v.Arr? && r.Ok? ==> r.value.Arr? && |r.value.entries| == |v.entries|
  {
    match v
    case Arr(es) =>
      (match NormalizeEntries(es)
       case Err(e) => Err(e)
       case Ok(ns) => Ok(Arr(if FirstKeyIsZero(es) then ns else SortBy(ns, EntryLe))))
    case Null => Err(UnexpectedObjectType)
    case Object(_) => Err(UnexpectedObjectType)
    case _ => Ok(v)
  }

  /** The fixed points of the normaliser: scalars, and arrays that are list-like or key-sorted all the way down. */
  predicate Canonical(v: Value) {
    match v
    case Arr(es) =>
      && (FirstKeyIsZero(es) || Sorted(es, EntryLe))
      && forall i | 0 <= i < |es| :: Canonical(es[i].1)
    case _ => IsScalar(v)
  }
}

module NormalizerProperties {
  import opened Wrappers
  import opened Sorting
  import opened PhpValues
  import opened Normalizer

  // ---------------------------------------------------------------------------
  // Canonical forms and idempotence

  /** Whatever the normaliser returns is canonical. */
  lemma {:induction false} NormalizedIsCanonical(v: Value)
    requires Normalize(v).Ok?
    ensures Canonical(Normalize(v).value)
    decreases v
  {
    match v
    case Arr(es) =>
      var ns := NormalizeEntries(es).value;
      forall i | 0 <= i < |ns| ensures Canonical(ns[i].1) {
        NormalizedIsCanonical(es[i].1);
      }
      if !FirstKeyIsZero(es) {
        EntryLeIsTotalPreorder();
        SortIsSorted(ns, EntryLe);
        var sorted := SortBy(ns, EntryLe);
        forall i | 0 <= i < |sorted| ensures Canonical(sorted[i].1) {
          assert sorted[i] in multiset(ns);
          var j :| 0 <= j < |ns| && ns[j] == sorted[i];
        }
      }
    case _ =>
  }

  /** A canonical value is returned unchanged. */
  lemma {:induction false} CanonicalIsFixedPoint(v: Value)
    requires Canonical(v)
    ensures Normalize(v) == Ok(v)
    decreases v
  {
    match v
    case Arr(es) =>
      forall i | 0 <= i < |es| ensures Normalize(es[i].1) == Ok(es[i].1) {
        CanonicalIsFixedPoint(es[i].1);
      }
      var ns := NormalizeEntries(es).value;
      assert ns == es;
      if !FirstKeyIsZero(es) {
        SortOfSortedIsIdentity(es, EntryLe);
      }
    case _ =>
  }

  /** Normalising a normalised value changes nothing. */
  lemma NormalizeIsIdempotent(v: Value)
    requires Normalize(v).Ok?
    ensures Normalize(Normalize(v).value) == Normalize(v)
  {
    NormalizedIsCanonical(v);
    CanonicalIsFixedPoint(Normalize(v).value);
  }

  // ---------------------------------------------------------------------------
  // What happens to an array's entries

  /** First key 0: the key order is kept exactly and each value is normalised in place. */
  lemma NormalizeKeepsListOrder(es: seq<Entry>)
    requires FirstKeyIsZero(es) && Normalize(Arr(es)).Ok?
    ensures var r := Normalize(Arr(es)).value.entries;
      && |r| == |es|
      && forall i | 0 <= i < |es| :: r[i].0 == es[i].0 && Normalize(es[i].1) == Ok(r[i].1)
  {
  }

  /** Any other first key: the result's keys are in ascending order. */
  lemma NormalizeSortsKeys(es: seq<Entry>)
    requires !FirstKeyIsZero(es) && Normalize(Arr(es)).Ok?
    ensures var r := Normalize(Arr(es)).value.entries;
      forall i, j | 0 <= i < j < |r| :: KeyLe(r[i].0, r[j].0)
  {
    EntryLeIsTotalPreorder();
    SortIsSorted(NormalizeEntries(es).value, EntryLe);
  }

  /**
    Normalisation only reorders: the result holds exactly the input's entries,
    each value replaced by its normal form, so the keys are the same multiset.
  */
  lemma NormalizeKeepsEntries(es: seq<Entry>)
    requires Normalize(Arr(es)).Ok?
    ensures var r := Normalize(Arr(es)).value.entries;
      && multiset(r) == multiset(NormalizeEntries(es).value)
      && multiset(Keys(r)) == multiset(Keys(es))
  {
    var ns := NormalizeEntries(es).value;
    var r := Normalize(Arr(es)).value.entries;
    assert Keys(ns) == Keys(es);
    MapKeepsPermutation(EntryKey, r, ns);
  }

  // ---------------------------------------------------------------------------
  // Sorting first (as the source does) or normalising first gives the same result

  lemma ConsIsSupported(e: Entry, s: seq<Entry>)
    requires Supported(e.1) && NormalizeEntries(s).Ok?
    ensures NormalizeEntries([e] + s).Ok?
  {
    var es := [e] + s;
    forall i | 0 <= i < |es| ensures Supported(es[i].1) {
      if i > 0 {
        assert es[i] == s[i - 1];
      }
    }
  }

  lemma ConsTail(e: Entry, s: seq<Entry>)
    requires NormalizeEntries([e] + s).Ok? && NormalizeEntries(s).Ok?
    ensures NormalizeEntries([e] + s).value[1..] == NormalizeEntries(s).value
  {
    var es := [e] + s;
    var r := NormalizeEntries(es).value;
    var ns := NormalizeEntries(s).value;
    forall i | 0 <= i < |ns| ensures r[1..][i] == ns[i] {
      assert es[i + 1] == s[i];
      assert Normalize(s[i].1) == Ok(r[i + 1].1) == Ok(ns[i].1);
    }
  }

  lemma HeadAndTail<T>(r: seq<T>)
    requires |r| > 0
    ensures r == [r[0]] + r[1..]
  {
  }

  lemma ConsHead(e: Entry, s: seq<Entry>)
    requires Supported(e.1) && NormalizeEntries([e] + s).Ok?
    ensures NormalizeEntries([e] + s).value[0] == (e.0, Normalize(e.1).value)
  {
    assert ([e] + s)[0] == e;
  }

  lemma NormalizeEntriesCons(e: Entry, s: seq<Entry>)
    requires Supported(e.1) && NormalizeEntries(s).Ok?
    ensures NormalizeEntries([e] + s) == Ok([(e.0, Normalize(e.1).value)] + NormalizeEntries(s).value)
  {
    ConsIsSupported(e, s);
    ConsTail(e, s);
    ConsHead(e, s);
    HeadAndTail(NormalizeEntries([e] + s).value);
  }

  lemma {:induction false} NormalizeCommutesWithInsert(e: Entry, s: seq<Entry>)
    requires Supported(e.1) && NormalizeEntries(s).Ok?
    ensures NormalizeEntries(Insert(e, s, EntryLe))
         == Ok(Insert((e.0, Normalize(e.1).value), NormalizeEntries(s).value, EntryLe))
  {
    var ns := NormalizeEntries(s).value;
    var e' := (e.0, Normalize(e.1).value);
    if s == [] || EntryLe(e, s[0]) {
      NormalizeEntriesCons(e, s);
    } else {
      assert s == [s[0]] + s[1..];
      assert forall i | 0 <= i < |s[1..]| :: Supported(s[1..][i].1) by {
        forall i | 0 <= i < |s[1..]| ensures Supported(s[1..][i].1) {
          assert s[1..][i] == s[i + 1];
        }
      }
      NormalizeEntriesCons(s[0], s[1..]);
      NormalizeCommutesWithInsert(e, s[1..]);
      var tail := Insert(e, s[1..], EntryLe);
      NormalizeEntriesCons(s[0], tail);
      assert ns[1..] == NormalizeEntries(s[1..]).value;
    }
  }

  lemma {:induction false} NormalizeCommutesWithSort(es: seq<Entry>)
    requires NormalizeEntries(es).Ok?
    ensures NormalizeEntries(SortBy(es, EntryLe)) == Ok(SortBy(NormalizeEntries(es).value, EntryLe))
  {
    if es != [] {
      assert es == [es[0]] + es[1..];
      assert forall i | 0 <= i < |es[1..]| :: Supported(es[1..][i].1) by {
        forall i | 0 <= i < |es[1..]| ensures Supported(es[1..][i].1) {
          assert es[1..][i] == es[i + 1];
        }
      }
      NormalizeEntriesCons(es[0], es[1..]);
      NormalizeCommutesWithSort(es[1..]);
      NormalizeCommutesWithInsert(es[0], SortBy(es[1..], EntryLe));
      var ns := NormalizeEntries(es).value;
      assert ns[1..] == NormalizeEntries(es[1..]).value;
    }
  }

  lemma SortKeepsSupport(es: seq<Entry>)
    ensures NormalizeEntries(SortBy(es, EntryLe)).Ok? <==> NormalizeEntries(es).Ok?
  {
    var s := SortBy(es, EntryLe);
    if NormalizeEntries(es).Ok? {
      forall i | 0 <= i < |s| ensures Supported(s[i].1) {
        assert s[i] in multiset(es);
        var j :| 0 <= j < |es| && es[j] == s[i];
      }
    }
    if NormalizeEntries(s).Ok? {
      forall i | 0 <= i < |es| ensures Supported(es[i].1) {
        assert es[i] in multiset(s);
        var j :| 0 <= j < |s| && s[j] == es[i];
      }
    }
  }

  /**
    When the first key is not 0 the source sorts the array by key and then
    normalises each value; the normaliser above gives exactly that result.
  */
  lemma NormalizeMatchesSortThenNormalize(es: seq<Entry>)
    requires !FirstKeyIsZero(es)
    ensures Normalize(Arr(es)).Ok? <==> NormalizeEntries(SortBy(es, EntryLe)).Ok?
    ensures Normalize(Arr(es)).Ok? ==>
      Normalize(Arr(es)) == Ok(Arr(NormalizeEntries(SortBy(es, EntryLe)).value))
  {
    SortKeepsSupport(es);
    if NormalizeEntries(es).Ok? {
      NormalizeCommutesWithSort(es);
    }
  }

  /**
    Two arrays holding the same entries (distinct keys, as PHP arrays have) in
    different orders normalise identically, provided neither starts with key 0.
  */
  lemma NormalizeIgnoresEntryOrder(es1: seq<Entry>, es2: seq<Entry>)
    requires multiset(es1) == multiset(es2)
    requires forall i, j | 0 <= i < |es1| && 0 <= j < |es1| && es1[i].0 == es1[j].0 :: i == j
    requires !FirstKeyIsZero(es1) && !FirstKeyIsZero(es2)
    ensures Normalize(Arr(es1)) == Normalize(Arr(es2))
  {
    NormalizeMatchesSortThenNormalize(es1);
    NormalizeMatchesSortThenNormalize(es2);
    EntryLeIsTotalPreorder();
    assert TiesAreEqual(es1, EntryLe) by {
      forall x, y | x in es1 && y in es1 && EntryLe(x, y) && EntryLe(y, x) ensures x == y {
        KeyLeAntisymmetric(x.0, y.0);
        var i :| 0 <= i < |es1| && es1[i] == x;
        var j :| 0 <= j < |es1| && es1[j] == y;
      }
    }
    SortIgnoresInputOrder(es1, es2, EntryLe);
  }

  /** A mapping whose first key is the string "0" is stored with the integer key 0, so it is taken for a list. */
  lemma StringZeroKeyIsListLike(v: Value, rest: seq<Entry>)
    ensures FirstKeyIsZero([(KeyOf("0"), v)] + rest)
  {
    KeyOfDecimalString(0);
    assert DecimalString(0) == "0";
  }

  /** Three entries of mixed key kinds, the integer key first. */
  function ZeroFirst(): seq<Entry> {
    [(IntKey(0), Int(1)), (StrKey("b"), Int(2)), (StrKey("a"), Int(3))]
  }

  /** The same three entries, a string key first. */
  function StringFirst(): seq<Entry> {
    [(StrKey("b"), Int(2)), (IntKey(0), Int(1)), (StrKey("a"), Int(3))]
  }

  lemma ZeroFirstKeepsOrder()
    ensures Normalize(Arr(ZeroFirst())).Ok?
    ensures var r := Normalize(Arr(ZeroFirst())).value.entries;
      |r| == 3 && r[1].0 == StrKey("b") && r[2].0 == StrKey("a")
  {
    assert Supported(Arr(ZeroFirst()));
    NormalizeKeepsListOrder(ZeroFirst());
  }

  lemma StringFirstIsSorted()
    ensures Normalize(Arr(StringFirst())).Ok?
    ensures var r := Normalize(Arr(StringFirst())).value.entries;
      |r| == 3 && KeyLe(r[1].0, r[2].0)
  {
    assert Supported(Arr(StringFirst()));
    NormalizeSortsKeys(StringFirst());
  }

  /**
    The list test only looks at the first key, so the order-independence above
    stops at arrays that mix key kinds: the same three entries normalise to two
    different arrays depending on which entry comes first.
  */
  lemma MixedKeysDependOnFirstEntry()
    ensures multiset(ZeroFirst()) == multiset(StringFirst())
    ensures Normalize(Arr(ZeroFirst())) != Normalize(Arr(StringFirst()))
  {
    SameEntries();
    ZeroFirstKeepsOrder();
    StringFirstIsSorted();
    assert !KeyLe(StrKey("b"), StrKey("a"));
  }

  lemma SameEntries()
    ensures multiset(ZeroFirst()) == multiset(StringFirst())
  {
    var z := ZeroFirst();
    assert z == [z[0]] + [z[1]] + [z[2]];
    assert StringFirst() == [z[1]] + [z[0]] + [z[2]];
  }
}

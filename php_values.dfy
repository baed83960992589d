/**
  The values the harness handles: PHP scalars, PHP arrays (ordered sequences of
  key/value entries with int or string keys) and every other kind of value
  (null, objects such as database identifiers or dates), which the normaliser
  refuses. Also the fixed total order on keys used for reordering, and the
  field operations on documents (a document is a PHP array).
*/
module PhpValues {
  import opened Wrappers
  import opened Sorting

  datatype Key = IntKey(i: int) | StrKey(s: string)

  datatype Value =
    | Str(s: string)
    | Int(i: int)
    | Bool(b: bool)
    | Float(bits: bv64)          // an IEEE-754 double, kept opaque
    | Arr(entries: seq<Entry>)   // a PHP array: keys in insertion order
    | Null
    | Object(className: string)  // any object: identifiers, dates, binary data, ...

  type Entry = (Key, Value)

  predicate IsScalar(v: Value) {
    v.Str? || v.Int? || v.Bool? || v.Float?
  }

  /** Built only from scalars and arrays, at every depth. */
  predicate Supported(v: Value) {
    match v
    case Arr(es) => forall i | 0 <= i < |es| :: Supported(es[i].1)
    case _ => IsScalar(v)
  }

  // ---------------------------------------------------------------------------
  // Key order: integer keys by value, before string keys; string keys by
  // character code, lexicographically.

  predicate StrLe(a: string, b: string) {
    a == [] || (b != [] && (a[0] < b[0] || (a[0] == b[0] && StrLe(a[1..], b[1..]))))
  }

  lemma StrLeTotal(a: string, b: string)
    ensures StrLe(a, b) || StrLe(b, a)
  {
  }

  lemma StrLeTransitive(a: string, b: string, c: string)
    requires StrLe(a, b) && StrLe(b, c)
    ensures StrLe(a, c)
  {
  }

  lemma StrLeAntisymmetric(a: string, b: string)
    requires StrLe(a, b) && StrLe(b, a)
    ensures a == b
  {
    if a != [] && b != [] {
      StrLeAntisymmetric(a[1..], b[1..]);
      assert a == [a[0]] + a[1..] && b == [b[0]] + b[1..];
    }
  }

  predicate KeyLe(a: Key, b: Key) {
    match (a, b)
    case (IntKey(x), IntKey(y)) => x <= y
    case (IntKey(_), StrKey(_)) => true
    case (StrKey(_), IntKey(_)) => false
    case (StrKey(x), StrKey(y)) => StrLe(x, y)
  }

  /** Entries are ordered by key alone (values never take part). */
  predicate EntryLe(a: Entry, b: Entry) {
    KeyLe(a.0, b.0)
  }

  lemma KeyLeAntisymmetric(a: Key, b: Key)
    requires KeyLe(a, b) && KeyLe(b, a)
    ensures a == b
  {
    if a.StrKey? && b.StrKey? {
      StrLeAntisymmetric(a.s, b.s);
    }
  }

  lemma EntryLeIsTotalPreorder()
    ensures TotalPreorder(EntryLe)
  {
    forall a: Entry, b: Entry ensures EntryLe(a, b) || EntryLe(b, a) {
      if a.0.StrKey? && b.0.StrKey? {
        StrLeTotal(a.0.s, b.0.s);
      }
    }
    forall a: Entry, b: Entry, c: Entry | EntryLe(a, b) && EntryLe(b, c) ensures EntryLe(a, c) {
      if a.0.StrKey? && b.0.StrKey? && c.0.StrKey? {
        StrLeTransitive(a.0.s, b.0.s, c.0.s);
      }
    }
  }

  // ---------------------------------------------------------------------------
  // Documents as PHP arrays: reading, setting and dropping fields.

  function EntryKey(e: Entry): Key {
    e.0
  }

  function Keys(es: seq<Entry>): (ks: seq<Key>)
    ensures |ks| == |es| && forall i | 0 <= i < |es| :: ks[i] == es[i].0
  {
    MapSeq(EntryKey, es)
  }

  predicate HasKey(es: seq<Entry>, k: Key) {
    exists i | 0 <= i < |es| :: es[i].0 == k
  }

  /** The value stored under `k` (PHP keys are unique; the first entry wins). */
  function FieldOf(es: seq<Entry>, k: Key): (r: Option<Value>)
    ensures r.Some? <==> HasKey(es, k)
    ensures r.Some? ==> (k, r.value) in es
  {
    if es == [] then None
    else if es[0].0 == k then Some(es[0].1)
    else
      var r := FieldOf(es[1..], k);
      assert HasKey(es, k) <==> HasKey(es[1..], k) by {
        if HasKey(es, k) {
          var i :| 0 <= i < |es| && es[i].0 == k;
          assert es[1..][i - 1].0 == k;
        }
      }
      r
  }

  /** `$doc[k] = v`: overwrites an existing entry in place, otherwise appends. */
  function SetField(es: seq<Entry>, k: Key, v: Value): (r: seq<Entry>)
    ensures FieldOf(r, k) == Some(v)
    ensures forall k' | k' != k :: FieldOf(r, k') == FieldOf(es, k')
    ensures !HasKey(es, k) ==> r == es + [(k, v)]
  {
    if es == [] then [(k, v)]
    else if es[0].0 == k then
      FieldOfCons((k, v), es[1..]);
      [(k, v)] + es[1..]
    else
      assert !HasKey(es, k) ==> !HasKey(es[1..], k) by {
        if HasKey(es[1..], k) {
          var i :| 0 <= i < |es[1..]| && es[1..][i].0 == k;
          assert es[i + 1].0 == k;
        }
      }
      assert es == [es[0]] + es[1..];
      var rest := SetField(es[1..], k, v);
      FieldOfCons(es[0], rest);
      [es[0]] + rest
  }

  /** Looking a field up in a document with one more entry in front. */
  lemma FieldOfCons(e: Entry, es: seq<Entry>)
    ensures forall k :: FieldOf([e] + es, k) == if e.0 == k then Some(e.1) else FieldOf(es, k)
  {
    assert ([e] + es)[1..] == es;
  }

  /** The document with every entry whose key is in `ks` dropped. */
  function WithoutKeys(es: seq<Entry>, ks: set<Key>): (r: seq<Entry>)
    ensures forall i | 0 <= i < |r| :: r[i].0 !in ks && r[i] in es
    ensures forall k | k !in ks :: FieldOf(r, k) == FieldOf(es, k)
    ensures (forall i | 0 <= i < |es| :: es[i].0 !in ks) ==> r == es
  {
    if es == [] then []
    else
      var rest := WithoutKeys(es[1..], ks);
      if es[0].0 in ks then rest else [es[0]] + rest
  }

  /** Dropping keys from a document with one more entry under a dropped key gives the same result. */
  lemma {:induction false} WithoutKeysDropsAppended(es: seq<Entry>, e: Entry, ks: set<Key>)
    requires e.0 in ks
    ensures WithoutKeys(es + [e], ks) == WithoutKeys(es, ks)
  {
    if es == [] {
      assert es + [e] == [e];
    } else {
      assert (es + [e])[1..] == es[1..] + [e];
      WithoutKeysDropsAppended(es[1..], e, ks);
    }
  }

  // PHP array keys given as strings: a string that is the canonical decimal
  // form of an integer is stored as that integer, any other string as itself.

  predicate IsDigit(c: char) {
    '0' <= c <= '9'
  }

  predicate AllDigits(s: string) {
    forall i | 0 <= i < |s| :: IsDigit(s[i])
  }

  /** Digits with no superfluous leading zero: "0", "7", "42", but not "", "007". */
  predicate IsCanonicalNatural(s: string) {
    |s| > 0 && AllDigits(s) && (s[0] == '0' ==> |s| == 1)
  }

  /** "0", "42", "-42", but not "-0", "+1", " 1" or "1.0". */
  predicate IsCanonicalDecimal(s: string) {
    IsCanonicalNatural(s) || (|s| > 1 && s[0] == '-' && s[1] != '0' && IsCanonicalNatural(s[1..]))
  }

  function DigitsValue(s: string): nat
    requires AllDigits(s)
  {
    if s == [] then 0 else DigitsValue(s[..|s| - 1]) * 10 + (s[|s| - 1] as int - '0' as int)
  }

  lemma {:induction false} LeadingNonZeroIsPositive(s: string)
    requires |s| > 0 && AllDigits(s) && s[0] != '0'
    ensures DigitsValue(s) > 0
    decreases |s|
  {
    if |s| > 1 {
      var init := s[..|s| - 1];
      assert init[0] == s[0];
      LeadingNonZeroIsPositive(init);
    }
  }

  /** The key PHP stores for the string key `s`. */
  function KeyOf(s: string): (k: Key)
    ensures k.StrKey? <==> !IsCanonicalDecimal(s)
    ensures k.StrKey? ==> k.s == s
    ensures k.IntKey? ==> (k.i < 0 <==> s[0] == '-')
  {
    if IsCanonicalNatural(s) then IntKey(DigitsValue(s))
    else if IsCanonicalDecimal(s) then
      LeadingNonZeroIsPositive(s[1..]);
      IntKey(-(DigitsValue(s[1..]) as int))
    else StrKey(s)
  }

  function DigitChar(d: nat): char
    requires d < 10
  {
    ('0' as int + d) as char
  }

  /** The decimal form of `n`, as PHP prints an integer. */
  function DecimalString(n: int): string {
    if n < 0 then "-" + NaturalString(-n) else NaturalString(n)
  }

  function NaturalString(n: nat): string
    decreases n
  {
    if n < 10 then [DigitChar(n)] else NaturalString(n / 10) + [DigitChar(n % 10)]
  }

  lemma {:induction false} NaturalStringIsCanonical(n: nat)
    ensures IsCanonicalNatural(NaturalString(n))
    ensures DigitsValue(NaturalString(n)) == n
    ensures NaturalString(n)[0] == '0' <==> n == 0
    decreases n
  {
    if n >= 10 {
      NaturalStringIsCanonical(n / 10);
      var s := NaturalString(n);
      var init := NaturalString(n / 10);
      assert s[..|s| - 1] == init;
      assert s[0] == init[0];
    }
  }

  /** A key written as an integer's decimal form is that integer: "0" is the key 0. */
  lemma KeyOfDecimalString(n: int)
    ensures KeyOf(DecimalString(n)) == IntKey(n)
  {
    if n < 0 {
      NaturalStringIsCanonical(-n);
      var s := DecimalString(n);
      assert s[1..] == NaturalString(-n);
      assert !IsCanonicalNatural(s);
    } else {
      NaturalStringIsCanonical(n);
    }
  }

  /** Every other string stays a string key, so string keys and integer keys never collide. */
  lemma KeyOfIsInjective(a: string, b: string)
    requires KeyOf(a) == KeyOf(b)
    ensures a == b
  {
    if KeyOf(a).IntKey? {
      DecimalOfKey(a);
      DecimalOfKey(b);
    }
  }

  /** A canonical decimal string is the decimal form of the key it becomes. */
  lemma DecimalOfKey(s: string)
    requires IsCanonicalDecimal(s)
    ensures DecimalString(KeyOf(s).i) == s
  {
    if IsCanonicalNatural(s) {
      CanonicalNaturalRoundTrip(s);
    } else {
      CanonicalNaturalRoundTrip(s[1..]);
      assert s == "-" + s[1..];
    }
  }

  lemma {:induction false} CanonicalNaturalRoundTrip(s: string)
    requires IsCanonicalNatural(s)
    ensures NaturalString(DigitsValue(s)) == s
    decreases |s|
  {
    var n := DigitsValue(s);
    if |s| > 1 {
      var init := s[..|s| - 1];
      assert IsCanonicalNatural(init) by {
        assert init[0] == s[0];
      }
      CanonicalNaturalRoundTrip(init);
      NaturalStringIsCanonical(DigitsValue(init));
      LeadingNonZeroIsPositive(init);
      assert n / 10 == DigitsValue(init) && n % 10 == s[|s| - 1] as int - '0' as int;
      assert s == init + [s[|s| - 1]];
    }
  }
}

/**
  The verifier (`verifyDatabaseAgainstYamlFile`): for each collection of the
  expected-state fixture it reads the stored documents ordered by the order
  field, drops the identity and order fields, renumbers them as a list,
  normalises both lists and reports whether the two normal forms are equal.
  The canonical JSON text the source compares is taken to be an injective
  encoding of the normal form, so text equality is equality of normal forms.
*/
module Verifier {
  import opened Wrappers
  import opened Sorting
  import opened PhpValues
  import opened Normalizer
  import opened Fixtures

  /**
    Where a document sorts when ordered by the order field: documents without
    it (or with null) first, then integer values ascending, then any other kind.
  */
  datatype TagRank = Missing | At(n: int) | Unordered

  function TagRankOf(d: Doc): TagRank {
    match FieldOf(d, OrderField)
    case None => Missing
    case Some(Null) => Missing
    case Some(Int(n)) => At(n)
    case Some(_) => Unordered
  }

  predicate RankLe(a: TagRank, b: TagRank) {
    match (a, b)
    case (Missing, _) => true
    case (At(_), Missing) => false
    case (At(x), At(y)) => x <= y
    case (At(_), Unordered) => true
    case (Unordered, Unordered) => true
    case (Unordered, _) => false
  }

  predicate DocLe(a: Doc, b: Doc) {
    RankLe(TagRankOf(a), TagRankOf(b))
  }

  lemma DocLeIsTotalPreorder()
    ensures TotalPreorder(DocLe)
  {
  }

  /** The collection read back ordered ascending by the order field (ties keep storage order). */
  function ReadOrdered(c: Collection): (r: seq<Doc>)
    ensures multiset(r) == multiset(c)
    ensures Sorted(r, DocLe)
  {
    DocLeIsTotalPreorder();
    SortIsSorted(c, DocLe);
    SortBy(c, DocLe)
  }

  /** A document as read back: without the identity field and the order field. */
  function Projected(d: Doc): (r: Doc)
    ensures !HasKey(r, IdField) && !HasKey(r, OrderField)
    ensures forall k | k != IdField && k != OrderField :: FieldOf(r, k) == FieldOf(d, k)
  {
    WithoutKeys(d, {IdField, OrderField})
  }

  /** The stored documents of `name`, ordered and projected. */
  function ActualDocs(store: Store, name: string): (r: seq<Doc>)
    ensures |r| == |CollectionOf(store, name)|
  {
    MapSeq(Projected, ReadOrdered(CollectionOf(store, name)))
  }

  /** `array_values`: the documents as a PHP list keyed 0, 1, 2, ... */
  function ListValue(docs: seq<Doc>): (v: Value)
    ensures v.Arr? && |v.entries| == |docs|
    ensures forall i | 0 <= i < |docs| :: v.entries[i] == (IntKey(i), Arr(docs[i]))
  {
    Arr(seq(|docs|, i requires 0 <= i < |docs| => (IntKey(i), Arr(docs[i]))))
  }

  /** The outcome for one collection: verdict plus both normal forms for the report. */
  datatype Comparison = Comparison(collection: string, verified: bool, expected: Value, actual: Value)

  function Compare(store: Store, name: string, expected: seq<Doc>): (r: Result<Comparison, NormalizeError>)
    ensures r.Ok? <==> Supported(ListValue(expected)) && Supported(ListValue(ActualDocs(store, name)))
    ensures r.Ok? ==> r.value.collection == name
    ensures r.Ok? ==> Normalize(ListValue(expected)) == Ok(r.value.expected)
    ensures r.Ok? ==> Normalize(ListValue(ActualDocs(store, name))) == Ok(r.value.actual)
    ensures r.Ok? ==> (r.value.verified <==> r.value.expected == r.value.actual)
  {
    var e :- Normalize(ListValue(expected));
    var a :- Normalize(ListValue(ActualDocs(store, name)));
    Ok(Comparison(name, a == e, e, a))
  }

  /** What the harness writes to its console, abstractly. */
  datatype Event =
    | Testing(className: string, direction: string)
    | Passed(collection: string)
    | Failed(collection: string, expected: Value, actual: Value)

  /**
    The console line for one collection: a pass exactly when the normal forms
    agree, otherwise a failure that shows both normal forms.
  */
  function EventOf(c: Comparison): (r: Event)
    ensures !r.Testing? && r.collection == c.collection
    ensures r.Passed? <==> c.verified
    ensures r.Failed? ==> r.expected == c.expected && r.actual == c.actual
  {
    if c.verified then Passed(c.collection) else Failed(c.collection, c.expected, c.actual)
  }

  /** Events written and, if normalisation failed, the error that stopped the run. */
  datatype Report = Report(events: seq<Event>, error: Option<NormalizeError>)

  /**
    One event per expected collection in file order; the first collection whose
    documents cannot be normalised ends the run with an error.
  */
  function VerifyReport(store: Store, verifier: Fixture): (r: Report)
    ensures |r.events| <= |verifier|
    ensures r.error.None? <==> |r.events| == |verifier|
  {
    if verifier == [] then Report([], None)
    else
      match Compare(store, verifier[0].0, verifier[0].1)
      case Err(e) => Report([], Some(e))
      case Ok(c) =>
        var rest := VerifyReport(store, verifier[1..]);
        Report([EventOf(c)] + rest.events, rest.error)
  }
}

module VerifierProperties {
  import opened Wrappers
  import opened Sorting
  import opened PhpValues
  import opened Normalizer
  import opened NormalizerProperties
  import opened Fixtures
  import opened FixtureProperties
  import opened Verifier

  /** A list of documents normalises to the same list with each document normalised. */
  lemma NormalizeListValue(docs: seq<Doc>)
    requires Supported(ListValue(docs))
    ensures forall i | 0 <= i < |docs| :: Supported(Arr(docs[i]))
    ensures var r := Normalize(ListValue(docs)).value;
      && r.Arr? && |r.entries| == |docs|
      && forall i | 0 <= i < |docs| :: r.entries[i] == (IntKey(i), Normalize(Arr(docs[i])).value)
  {
    var es := ListValue(docs).entries;
    forall i | 0 <= i < |docs| ensures Supported(Arr(docs[i])) {
      assert es[i].1 == Arr(docs[i]);
    }
    if docs != [] {
      assert FirstKeyIsZero(es);
    }
  }

  /**
    A collection passes exactly when it holds as many documents as expected and
    each document has the same normal form as the expected one at its position.
  */
  lemma CompareVerdictPerDocument(store: Store, name: string, expected: seq<Doc>)
    requires Compare(store, name, expected).Ok?
    ensures var actual := ActualDocs(store, name);
      Compare(store, name, expected).value.verified
      <==> (|expected| == |actual| && forall i | 0 <= i < |expected| :: Normalize(Arr(expected[i])) == Normalize(Arr(actual[i])))
  {
    var actual := ActualDocs(store, name);
    NormalizeListValue(expected);
    NormalizeListValue(actual);
    var c := Compare(store, name, expected).value;
    if c.verified {
      assert |c.expected.entries| == |expected| && |c.actual.entries| == |actual|;
      forall i | 0 <= i < |expected| ensures Normalize(Arr(expected[i])) == Normalize(Arr(actual[i])) {
        assert c.expected.entries[i] == c.actual.entries[i];
      }
    }
  }

  /** A passing collection's documents carry the same fields as the expected ones, position by position. */
  lemma VerifiedDocumentsHaveSameFields(store: Store, name: string, expected: seq<Doc>)
    requires Compare(store, name, expected).Ok? && Compare(store, name, expected).value.verified
    ensures var actual := ActualDocs(store, name);
      |expected| == |actual| &&
      forall i | 0 <= i < |expected| :: multiset(Keys(expected[i])) == multiset(Keys(actual[i]))
  {
    var actual := ActualDocs(store, name);
    CompareVerdictPerDocument(store, name, expected);
    NormalizeListValue(expected);
    NormalizeListValue(actual);
    forall i | 0 <= i < |expected| ensures multiset(Keys(expected[i])) == multiset(Keys(actual[i])) {
      NormalizeKeepsEntries(expected[i]);
      NormalizeKeepsEntries(actual[i]);
    }
  }

  /** A field the expected document has and the stored one lacks makes the collection fail. */
  lemma MissingFieldFails(store: Store, name: string, expected: seq<Doc>, i: nat, k: Key)
    requires Compare(store, name, expected).Ok?
    requires i < |expected| && i < |ActualDocs(store, name)|
    requires HasKey(expected[i], k) && !HasKey(ActualDocs(store, name)[i], k)
    ensures !Compare(store, name, expected).value.verified
  {
    var actual := ActualDocs(store, name);
    var j :| 0 <= j < |expected[i]| && expected[i][j].0 == k;
    assert Keys(expected[i])[j] == k;
    assert k in multiset(Keys(expected[i]));
    assert k !in multiset(Keys(actual[i]));
    if Compare(store, name, expected).value.verified {
      VerifiedDocumentsHaveSameFields(store, name, expected);
    }
  }

  /** Every stored document carries an integer order value, no two the same. */
  predicate HasDistinctOrderTags(c: Collection) {
    forall i, j | 0 <= i < |c| && 0 <= j < |c| ::
      TagRankOf(c[i]).At? && (TagRankOf(c[i]) == TagRankOf(c[j]) ==> i == j)
  }

  /** The order the database stores the documents in does not change the verdict. */
  lemma CompareIgnoresStorageOrder(s1: Store, s2: Store, name: string, expected: seq<Doc>)
    requires multiset(CollectionOf(s1, name)) == multiset(CollectionOf(s2, name))
    requires HasDistinctOrderTags(CollectionOf(s1, name))
    ensures Compare(s1, name, expected) == Compare(s2, name, expected)
  {
    var c1, c2 := CollectionOf(s1, name), CollectionOf(s2, name);
    DocLeIsTotalPreorder();
    assert TiesAreEqual(c1, DocLe) by {
      forall x, y | x in c1 && y in c1 && DocLe(x, y) && DocLe(y, x) ensures x == y {
        var i :| 0 <= i < |c1| && c1[i] == x;
        var j :| 0 <= j < |c1| && c1[j] == y;
        assert TagRankOf(x).At? && TagRankOf(y).At?;
      }
    }
    SortIgnoresInputOrder(c1, c2, DocLe);
    assert ActualDocs(s1, name) == ActualDocs(s2, name);
  }

  /** A document that carries neither `_id` nor the order tag, so the read-back projection keeps all of it. */
  predicate Untagged(d: Doc) {
    !HasKey(d, IdField) && !HasKey(d, OrderField)
  }

  /** A document the loader can seed, read back unchanged and normalise. */
  predicate Seedable(d: Doc) {
    Supported(Arr(d)) && Untagged(d)
  }

  /** A seeded document, once projected, is the fixture's document again. */
  lemma ProjectedUndoesTag(d: Doc, i: int)
    requires Untagged(d)
    ensures Projected(SetField(d, OrderField, Int(i))) == d
  {
    WithoutKeysDropsAppended(d, (OrderField, Int(i)), {IdField, OrderField});
  }

  /**
    Reading back does not depend on normalisability: a document holding a null
    is seeded and read back unchanged, although it cannot be normalised.
  */
  lemma NullDocumentReadsBack()
    ensures var d := [(StrKey("x"), Null)];
      !Supported(Arr(d)) && Projected(SetField(d, OrderField, Int(0))) == d
  {
    var d := [(StrKey("x"), Null)];
    assert !Supported(Arr(d)) by {
      assert !Supported(Arr(d).entries[0].1);
    }
    assert Untagged(d) by {
      assert !HasKey(d, IdField) && !HasKey(d, OrderField);
    }
    ProjectedUndoesTag(d, 0);
  }

  /** Seeded documents come back in file order. */
  lemma SeededDocumentsReadInOrder(docs: seq<Doc>)
    ensures ReadOrdered(Tagged(docs)) == Tagged(docs)
  {
    var tagged := Tagged(docs);
    assert Sorted(tagged, DocLe) by {
      forall i, j | 0 <= i < j < |tagged| ensures DocLe(tagged[i], tagged[j]) {
        assert TagRankOf(tagged[i]) == At(i);
        assert TagRankOf(tagged[j]) == At(j);
      }
    }
    SortOfSortedIsIdentity(tagged, DocLe);
  }

  /** Seeded documents are read back in file order and, once projected, are the fixture's documents. */
  lemma SeededDocumentsReadBack(docs: seq<Doc>)
    requires forall i | 0 <= i < |docs| :: Untagged(docs[i])
    ensures MapSeq(Projected, ReadOrdered(Tagged(docs))) == docs
  {
    SeededDocumentsReadInOrder(docs);
    var tagged := Tagged(docs);
    var r := MapSeq(Projected, tagged);
    forall i | 0 <= i < |docs| ensures r[i] == docs[i] {
      assert tagged[i] == SetField(docs[i], OrderField, Int(i));
      ProjectedUndoesTag(docs[i], i);
    }
  }

  /** A collection holding exactly the seeded form of the expected documents passes. */
  lemma SeededCollectionPasses(store: Store, name: string, docs: seq<Doc>)
    requires CollectionOf(store, name) == Tagged(docs)
    requires forall i | 0 <= i < |docs| :: Seedable(docs[i])
    ensures Compare(store, name, docs).Ok? && Compare(store, name, docs).value.verified
  {
    assert forall i | 0 <= i < |docs| :: Untagged(docs[i]) by {
      forall i | 0 <= i < |docs| ensures Untagged(docs[i]) {
        assert Seedable(docs[i]);
      }
    }
    SeededDocumentsReadBack(docs);
    assert ActualDocs(store, name) == docs;
    var es := ListValue(docs).entries;
    forall j | 0 <= j < |es| ensures Supported(es[j].1) {
      assert Seedable(docs[j]);
    }
  }

  /** Verdict `i` of the report is the verdict on expected collection `i`. */
  lemma {:induction false} VerifyReportVerdicts(store: Store, verifier: Fixture)
    ensures var r := VerifyReport(store, verifier);
      forall i | 0 <= i < |r.events| ::
        Compare(store, verifier[i].0, verifier[i].1).Ok?
        && r.events[i] == EventOf(Compare(store, verifier[i].0, verifier[i].1).value)
  {
    if verifier != [] && Compare(store, verifier[0].0, verifier[0].1).Ok? {
      VerifyReportVerdicts(store, verifier[1..]);
      var rest := VerifyReport(store, verifier[1..]);
      var r := VerifyReport(store, verifier);
      assert r.events[1..] == rest.events;
      forall i | 0 < i < |r.events|
        ensures Compare(store, verifier[i].0, verifier[i].1).Ok?
        ensures r.events[i] == EventOf(Compare(store, verifier[i].0, verifier[i].1).value)
      {
        assert verifier[1..][i - 1] == verifier[i];
        assert r.events[i] == rest.events[i - 1];
      }
    }
  }

  /** A first collection that can be compared contributes one verdict ahead of the rest. */
  lemma ReportOfFirstOk(store: Store, verifier: Fixture)
    requires verifier != [] && Compare(store, verifier[0].0, verifier[0].1).Ok?
    ensures var rest := VerifyReport(store, verifier[1..]);
      VerifyReport(store, verifier)
      == Report([EventOf(Compare(store, verifier[0].0, verifier[0].1).value)] + rest.events, rest.error)
  {
  }

  /** A report that stops early stops at a collection that cannot be normalised. */
  lemma {:induction false} VerifyReportStopsAtError(store: Store, verifier: Fixture)
    ensures var r := VerifyReport(store, verifier);
      r.error.Some? ==> |r.events| < |verifier| && Compare(store, verifier[|r.events|].0, verifier[|r.events|].1).Err?
  {
    if verifier != [] && Compare(store, verifier[0].0, verifier[0].1).Ok? {
      VerifyReportStopsAtError(store, verifier[1..]);
      ReportOfFirstOk(store, verifier);
      var rest := VerifyReport(store, verifier[1..]);
      if rest.error.Some? {
        var n := |rest.events|;
        assert verifier[1..][n] == verifier[n + 1];
        assert |VerifyReport(store, verifier).events| == n + 1;
      }
    }
  }

  /**
    The report holds one verdict per expected collection, in file order, up to the
    first collection that cannot be normalised; the error is there exactly when
    such a collection stopped the run early.
  */
  lemma VerifyReportSpec(store: Store, verifier: Fixture)
    ensures var r := VerifyReport(store, verifier);
      && |r.events| <= |verifier|
      && (forall i | 0 <= i < |r.events| ::
            Compare(store, verifier[i].0, verifier[i].1).Ok?
            && r.events[i] == EventOf(Compare(store, verifier[i].0, verifier[i].1).value))
      && (r.error.None? <==> |r.events| == |verifier|)
      && (r.error.Some? ==> Compare(store, verifier[|r.events|].0, verifier[|r.events|].1).Err?)
  {
    VerifyReportVerdicts(store, verifier);
    VerifyReportStopsAtError(store, verifier);
  }

  /** When every expected collection passes, the report is one pass per collection and no error. */
  lemma AllPassingReport(store: Store, verifier: Fixture)
    requires forall i | 0 <= i < |verifier| ::
      Compare(store, verifier[i].0, verifier[i].1).Ok? && Compare(store, verifier[i].0, verifier[i].1).value.verified
    ensures VerifyReport(store, verifier)
         == Report(seq(|verifier|, i requires 0 <= i < |verifier| => Passed(verifier[i].0)), None)
  {
    VerifyReportSpec(store, verifier);
    var r := VerifyReport(store, verifier);
    assert |r.events| == |verifier|;
  }

  /**
    Loading a fixture and verifying against the same fixture, with no migration
    in between, passes every collection.
  */
  lemma LoadThenVerifyPasses(store: Store, fixture: Fixture)
    requires DistinctNames(fixture)
    requires forall i, j | 0 <= i < |fixture| && 0 <= j < |fixture[i].1| :: Seedable(fixture[i].1[j])
    ensures VerifyReport(Loaded(store, fixture), fixture)
         == Report(seq(|fixture|, i requires 0 <= i < |fixture| => Passed(fixture[i].0)), None)
  {
    var loaded := Loaded(store, fixture);
    forall i | 0 <= i < |fixture|
      ensures Compare(loaded, fixture[i].0, fixture[i].1).Ok?
      ensures Compare(loaded, fixture[i].0, fixture[i].1).value.verified
    {
      LoadedHoldsFixture(store, fixture, i);
      SeededCollectionPasses(loaded, fixture[i].0, fixture[i].1);
    }
    AllPassingReport(loaded, fixture);
  }
}

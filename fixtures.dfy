/**
  The document store and the fixture loader's effect on it. A store maps a
  collection name to its documents in storage order; a collection that was
  never written is empty. A fixture is the parsed file: collection names in
  file order, each with its documents in file order.
*/
module Fixtures {
  import opened Wrappers
  import opened PhpValues

  type Doc = seq<Entry>
  type Collection = seq<Doc>
  type Store = map<string, Collection>
  type Fixture = seq<(string, seq<Doc>)>

  /** The field the loader adds to every seeded document. */
  const OrderField: Key := StrKey("_orderInTestYamlFile")
  /** The database's own identity field. */
  const IdField: Key := StrKey("_id")

  function CollectionOf(store: Store, name: string): Collection {
    if name in store then store[name] else []
  }

  function Names(fixture: Fixture): set<string> {
    set i | 0 <= i < |fixture| :: fixture[i].0
  }

  /** No collection is named twice (the parsed file is a PHP array). */
  predicate DistinctNames(fixture: Fixture) {
    forall i, j | 0 <= i < j < |fixture| :: fixture[i].0 != fixture[j].0
  }

  /** The documents as seeded: document i carries the order field with value i. */
  function Tagged(docs: seq<Doc>): (r: seq<Doc>)
    ensures |r| == |docs|
    ensures forall i | 0 <= i < |docs| :: FieldOf(r[i], OrderField) == Some(Int(i))
    ensures forall i, k | 0 <= i < |docs| && k != OrderField :: FieldOf(r[i], k) == FieldOf(docs[i], k)
  {
    seq(|docs|, i requires 0 <= i < |docs| => SetField(docs[i], OrderField, Int(i)))
  }

  /**
    The store after loading `fixture`: each named collection emptied and then
    filled with its tagged documents, collection after collection in file order.
  */
  function Loaded(store: Store, fixture: Fixture): (r: Store)
    ensures r.Keys == store.Keys + Names(fixture)
  {
    if fixture == [] then store
    else
      var init := fixture[..|fixture| - 1];
      var last := fixture[|fixture| - 1];
      assert Names(fixture) == Names(init) + {last.0} by {
        forall n | n in Names(fixture) ensures n in Names(init) + {last.0} {
          var i :| 0 <= i < |fixture| && fixture[i].0 == n;
          if i < |init| {
            assert init[i].0 == n;
          }
        }
      }
      Loaded(store, init)[last.0 := Tagged(last.1)]
  }
}

module FixtureProperties {
  import opened Wrappers
  import opened PhpValues
  import opened Fixtures

  /** Each collection named by the fixture holds exactly its tagged documents. */
  lemma {:induction false} LoadedHoldsFixture(store: Store, fixture: Fixture, i: nat)
    requires DistinctNames(fixture) && i < |fixture|
    ensures CollectionOf(Loaded(store, fixture), fixture[i].0) == Tagged(fixture[i].1)
  {
    var init := fixture[..|fixture| - 1];
    if i < |fixture| - 1 {
      assert fixture[i] == init[i];
      assert DistinctNames(init);
      LoadedHoldsFixture(store, init, i);
    }
  }

  /** A collection the fixture does not name is left as it was. */
  lemma {:induction false} LoadedKeepsOthers(store: Store, fixture: Fixture, name: string)
    requires name !in Names(fixture)
    ensures name in Loaded(store, fixture) <==> name in store
    ensures CollectionOf(Loaded(store, fixture), name) == CollectionOf(store, name)
  {
    if fixture != [] {
      var init := fixture[..|fixture| - 1];
      assert name != fixture[|fixture| - 1].0;
      assert Names(init) <= Names(fixture) by {
        forall n | n in Names(init) ensures n in Names(fixture) {
          var i :| 0 <= i < |init| && init[i].0 == n;
          assert fixture[i].0 == n;
        }
      }
      LoadedKeepsOthers(store, init, name);
    }
  }

  /** Loading overwrites the named collections and nothing else: prior contents do not matter. */
  lemma {:induction false} LoadedIsOverlay(store: Store, fixture: Fixture)
    ensures Loaded(store, fixture) == store + Loaded(map[], fixture)
  {
    if fixture != [] {
      var init := fixture[..|fixture| - 1];
      var last := fixture[|fixture| - 1];
      LoadedIsOverlay(store, init);
      assert Loaded(store, fixture) == (store + Loaded(map[], init))[last.0 := Tagged(last.1)];
      assert Loaded(map[], fixture) == Loaded(map[], init)[last.0 := Tagged(last.1)];
    }
  }

  /** Loading the same fixture twice gives the same store as loading it once. */
  lemma LoadIsIdempotent(store: Store, fixture: Fixture)
    ensures Loaded(Loaded(store, fixture), fixture) == Loaded(store, fixture)
  {
    LoadedIsOverlay(store, fixture);
    LoadedIsOverlay(Loaded(store, fixture), fixture);
  }

  /** Whatever a named collection held before, it holds the same documents after loading. */
  lemma LoadDiscardsPriorContents(s1: Store, s2: Store, fixture: Fixture, name: string)
    requires name in Names(fixture)
    ensures CollectionOf(Loaded(s1, fixture), name) == CollectionOf(Loaded(s2, fixture), name)
  {
    LoadedIsOverlay(s1, fixture);
    LoadedIsOverlay(s2, fixture);
  }
}

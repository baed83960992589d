/**
  The `test` console command as the object it is: it holds the database
  connection, the scratch database it selected and the console output, and its
  methods change them step by step. Each method is proved against the function
  of the protocol that specifies it.
*/
module TestMigration {
  import opened Wrappers
  import opened PhpValues
  import opened Normalizer
  import opened Fixtures
  import opened Verifier
  import opened Protocol
  import opened ProtocolProperties

  /** Appending three sequences does not depend on how the appends are grouped. */
  lemma AppendIsAssociative<T>(a: seq<T>, b: seq<T>, c: seq<T>)
    ensures a + b + c == a + (b + c)
  {
  }

  /** Loading one more collection of a fixture replaces that collection. */
  lemma LoadedPrefix(store: Store, fixture: Fixture, k: nat)
    requires k < |fixture|
    ensures Loaded(store, fixture[..k + 1]) == Loaded(store, fixture[..k])[fixture[k].0 := Tagged(fixture[k].1)]
  {
    assert fixture[..k + 1][..k] == fixture[..k];
  }

  class TestMigrationCommand {
    /** Where the migration classes and their test files live. */
    const migrationsDirectory: string
    /** The migration classes that exist, by class name. */
    const registry: map<string, Migration>
    /** The YAML files under the migrations directory, parsed, by path. */
    const files: map<string, Fixture>
    /** Every database on the server. */
    var server: map<string, Store>
    /** The database selected by `execute`; None until then. */
    var db: Option<string>
    /** What has been written to the console. */
    var output: seq<Event>

    constructor(migrationsDirectory: string, registry: map<string, Migration>,
                files: map<string, Fixture>, server: map<string, Store>)
      ensures this.migrationsDirectory == migrationsDirectory && this.registry == registry
      ensures this.files == files && this.server == server
      ensures db == None && output == []
    {
      this.migrationsDirectory := migrationsDirectory;
      this.registry := registry;
      this.files := files;
      this.server := server;
      db := None;
      output := [];
    }

    /** A database has been selected and exists on the server. */
    predicate Selected()
      reads this
    {
      db.Some? && db.value in server
    }

    /** The selected database's contents. */
    function Db(): Store
      reads this
      requires Selected()
    {
      server[db.value]
    }

    /** `execute`: resolve the migration, select `mongrate_test_<class>`, run the requested phases. */
    method Execute(className: string, upOrDown: Option<string>) returns (error: Option<HarnessError>)
      modifies this
      ensures var run := ExecuteRun(registry, migrationsDirectory, files, className, upOrDown, old(server));
        server == run.server && output == old(output) + run.events && error == run.error
      ensures className !in registry ==> db == old(db)
      ensures className in registry ==> db == Some(ScratchDatabaseName(className))
    {
      if className !in registry {
        return Some(MigrationDoesntExist(className));
      }
      var name := ScratchDatabaseName(className);
      server := SelectDatabase(server, name);
      db := Some(name);
      error := TestDirections(className, upOrDown);
    }

    /** Runs the phase named by the direction argument, or up and then down when it names neither. */
    method TestDirections(className: string, upOrDown: Option<string>) returns (error: Option<HarnessError>)
      requires Selected()
      modifies this`server, this`output
      ensures Selected() && db == old(db)
      ensures var step := PhasesStep(registry, migrationsDirectory, files, className, Directions(upOrDown), old(Db()));
        server == old(server)[db.value := step.store] && output == old(output) + step.events && error == step.error
    {
      ghost var start := Db();
      ghost var before := output;
      if upOrDown == Some("up") || upOrDown == Some("down") {
        OnePhase(registry, migrationsDirectory, files, className, upOrDown.value, start);
        error := Test(upOrDown.value, className);
      } else {
        UpThenDown(registry, migrationsDirectory, files, className, start);
        ghost var up := PhaseStep(registry, migrationsDirectory, files, className, "up", start);
        error := Test("up", className);
        if error.None? {
          ghost var down := PhaseStep(registry, migrationsDirectory, files, className, "down", up.store);
          error := Test("down", className);
          AppendIsAssociative(before, up.events, down.events);
        }
      }
    }

    /** `test`: one phase in the selected database, stopping at the first step that fails. */
    method Test(direction: string, className: string) returns (error: Option<HarnessError>)
      requires Selected()
      modifies this`server, this`output
      ensures Selected() && db == old(db)
      ensures var step := PhaseStep(registry, migrationsDirectory, files, className, direction, old(Db()));
        server == old(server)[db.value := step.store] && output == old(output) + step.events && error == step.error
    {
      ghost var loaded := LoadStep(Db(), files, InputPath(migrationsDirectory, className, direction));
      AddFixturesToDatabaseFromYamlFile(InputPath(migrationsDirectory, className, direction));
      assert Db() == loaded;
      ghost var apply := ApplyStep(registry, className, direction, loaded);
      error := ApplyMigration(className, direction);
      if error.Some? {
        return;
      }
      assert Db() == apply.store && output == old(output) + apply.events;
      ghost var verify := VerifyStep(apply.store, files, VerifierPath(migrationsDirectory, className, direction));
      error := VerifyDatabaseAgainstYamlFile(VerifierPath(migrationsDirectory, className, direction));
      AppendIsAssociative(old(output), apply.events, verify.events);
    }

    /**
      Seeds the selected database from the fixture file at `path`: each named
      collection is emptied, then its documents are inserted one at a time,
      each tagged with its position in the file. A file that cannot be read
      holds no collections, so the database is left as it is.
    */
    method AddFixturesToDatabaseFromYamlFile(path: string)
      requires Selected()
      modifies this`server
      ensures Selected()
      ensures server == old(server)[db.value := LoadStep(old(Db()), files, path)]
    {
      var fixtures := FixtureAt(files, path);
      var d := db.value;
      ghost var start := server[d];
      var k := 0;
      while k < |fixtures|
        invariant 0 <= k <= |fixtures|
        invariant server == old(server)[d := Loaded(start, fixtures[..k])]
      {
        ReplaceCollection(fixtures[k].0, fixtures[k].1);
        LoadedPrefix(start, fixtures, k);
        k := k + 1;
      }
      assert fixtures[..k] == fixtures;
    }

    /**
      Empties the collection `name` of the selected database, then inserts
      `docs` one at a time, each tagged with its position.
    */
    method ReplaceCollection(name: string, docs: seq<Doc>)
      requires Selected()
      modifies this`server
      ensures Selected()
      ensures server == old(server)[db.value := old(Db())[name := Tagged(docs)]]
    {
      var d := db.value;
      server := server[d := server[d][name := []]];
      var i := 0;
      while i < |docs|
        invariant 0 <= i <= |docs|
        invariant server == old(server)[d := old(server)[d][name := Tagged(docs[..i])]]
      {
        var document := SetField(docs[i], OrderField, Int(i));
        assert CollectionOf(server[d], name) == Tagged(docs[..i]);
        server := server[d := server[d][name := CollectionOf(server[d], name) + [document]]];
        assert Tagged(docs[..i + 1]) == Tagged(docs[..i]) + [document] by {
          assert docs[..i + 1][..i] == docs[..i];
          assert docs[..i + 1][i] == docs[i];
        }
        assert server[d] == old(server)[d][name := Tagged(docs[..i + 1])];
        i := i + 1;
      }
      assert docs[..i] == docs;
    }

    /** Looks the migration up and runs one of its directions against the selected database. */
    method ApplyMigration(className: string, direction: string) returns (error: Option<HarnessError>)
      requires Selected()
      modifies this`server, this`output
      ensures Selected()
      ensures var step := ApplyStep(registry, className, direction, old(Db()));
        server == old(server)[db.value := step.store] && output == old(output) + step.events && error == step.error
    {
      if className !in registry {
        return Some(MigrationDoesntExist(className));
      }
      var migration := registry[className];
      var outcome: MigrationOutcome;
      if direction == "up" {
        output := output + [Testing(className, direction)];
        outcome := migration.up(Db());
      } else if direction == "down" {
        output := output + [Testing(className, direction)];
        outcome := migration.down(Db());
      } else {
        return Some(InvalidDirection(direction));
      }
      server := server[db.value := outcome.store];
      error := if outcome.Raised? then Some(MigrationFailed(className, direction, outcome.message)) else None;
    }

    /**
      Compares each collection named in the file at `path` with the selected
      database, writing a verdict per collection; a mismatch is reported, not
      raised, and a value that cannot be normalised ends the check. A file
      that cannot be read names no collections, so nothing is checked.
    */
    method VerifyDatabaseAgainstYamlFile(path: string) returns (error: Option<HarnessError>)
      requires Selected()
      modifies this`output
      ensures var step := VerifyStep(Db(), files, path);
        output == old(output) + step.events && error == step.error
    {
      var verifier := FixtureAt(files, path);
      var store := Db();
      ghost var all := VerifyReport(store, verifier);
      var k := 0;
      while k < |verifier|
        invariant 0 <= k <= |verifier|
        invariant output + VerifyReport(store, verifier[k..]).events == old(output) + all.events
        invariant VerifyReport(store, verifier[k..]).error == all.error
      {
        assert verifier[k..][0] == verifier[k] && verifier[k..][1..] == verifier[k + 1..];
        var name := verifier[k].0;
        var expected := Normalize(ListValue(verifier[k].1));
        if expected.Err? {
          return Some(HarnessError.UnexpectedObjectType);
        }
        var actual := Normalize(ListValue(ActualDocs(store, name)));
        if actual.Err? {
          return Some(HarnessError.UnexpectedObjectType);
        }
        var comparison := Comparison(name, expected.value == actual.value, expected.value, actual.value);
        assert Compare(store, name, verifier[k].1) == Ok(comparison);
        ghost var rest := VerifyReport(store, verifier[k + 1..]);
        AppendIsAssociative(output, [EventOf(comparison)], rest.events);
        output := output + [EventOf(comparison)];
        k := k + 1;
      }
      assert verifier[k..] == [];
      error := None;
    }
  }
}

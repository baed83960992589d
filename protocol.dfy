/**
  The test protocol as a function of the state: which migration runs, in which
  directions, which files each phase reads, and how load, migrate and verify
  are sequenced. Exceptions of the source are the `error` of a step; a step
  that fails ends the whole run, as an uncaught exception does.
*/
module Protocol {
  import opened Wrappers
  import opened Normalizer
  import opened Fixtures
  import opened Verifier

  /** What one direction of a migration does to the scratch database. */
  datatype MigrationOutcome =
    | Completed(store: Store)
    | Raised(store: Store, message: string)   // failed part-way; `store` holds what it changed so far

  /** A migration class: its `up` and `down` transformations, opaque to the harness. */
  datatype Migration = Migration(up: Store -> MigrationOutcome, down: Store -> MigrationOutcome)

  datatype HarnessError =
    | MigrationDoesntExist(className: string)
    | InvalidDirection(direction: string)
    | MigrationFailed(className: string, direction: string, message: string)
    | UnexpectedObjectType

  /** The scratch database's state after a step, what it wrote, and the error that stopped it. */
  datatype Step = Step(store: Store, events: seq<Event>, error: Option<HarnessError>)

  /** The scratch database of a migration class: the fixed prefix, then the class name. */
  function ScratchDatabaseName(className: string): (r: string)
    ensures |r| == |className| + 14
    ensures r[..14] == "mongrate_test_" && r[14..] == className
  {
    "mongrate_test_" + className
  }

  function TestsDirectory(migrationsDirectory: string, className: string): string {
    migrationsDirectory + "/" + className + "/"
  }

  /** `<migrations_directory>/<ClassName>/<direction>-input.yml` */
  function InputPath(migrationsDirectory: string, className: string, direction: string): (r: string)
    ensures var dir := TestsDirectory(migrationsDirectory, className);
      |r| == |dir| + |direction| + 10
      && r[..|dir|] == dir && r[|dir|..|dir| + |direction|] == direction && r[|dir| + |direction|..] == "-input.yml"
  {
    TestsDirectory(migrationsDirectory, className) + direction + "-input.yml"
  }

  /** `<migrations_directory>/<ClassName>/<direction>-verifier.yml` */
  function VerifierPath(migrationsDirectory: string, className: string, direction: string): (r: string)
    ensures var dir := TestsDirectory(migrationsDirectory, className);
      |r| == |dir| + |direction| + 13
      && r[..|dir|] == dir && r[|dir|..|dir| + |direction|] == direction && r[|dir| + |direction|..] == "-verifier.yml"
  {
    TestsDirectory(migrationsDirectory, className) + direction + "-verifier.yml"
  }

  /**
    The collections a fixture file yields. A missing file reads as `false`, which
    parses to null, and a `foreach` over null visits nothing: no collections.
  */
  function FixtureAt(files: map<string, Fixture>, path: string): (r: Fixture)
    ensures path in files ==> r == files[path]
    ensures path !in files ==> r == []
  {
    if path in files then files[path] else []
  }

  /** The phases a direction argument selects, in the order they run. */
  function Directions(upOrDown: Option<string>): (r: seq<string>)
    ensures upOrDown == Some("up") || upOrDown == Some("down") ==> r == [upOrDown.value]
    ensures !(upOrDown == Some("up") || upOrDown == Some("down")) ==> r == ["up", "down"]
    ensures forall i | 0 <= i < |r| :: r[i] == "up" || r[i] == "down"
  {
    if upOrDown == Some("up") || upOrDown == Some("down") then [upOrDown.value] else ["up", "down"]
  }

  /** Seeding the scratch database from the fixture file at `path`; a missing file seeds nothing. */
  function LoadStep(store: Store, files: map<string, Fixture>, path: string): (r: Store)
    ensures path in files ==> r == Loaded(store, files[path])
    ensures path !in files ==> r == store
  {
    Loaded(store, FixtureAt(files, path))
  }

  /** Looking the migration up and running exactly one of its directions. */
  function ApplyStep(registry: map<string, Migration>, className: string, direction: string, store: Store): (r: Step)
    ensures className !in registry ==> r == Step(store, [], Some(MigrationDoesntExist(className)))
    ensures className in registry && direction != "up" && direction != "down"
      ==> r == Step(store, [], Some(InvalidDirection(direction)))
    ensures className in registry && direction == "up" ==>
      r == Outcome(className, direction, registry[className].up(store))
    ensures className in registry && direction == "down" ==>
      r == Outcome(className, direction, registry[className].down(store))
  {
    if className !in registry then Step(store, [], Some(MigrationDoesntExist(className)))
    else
      var migration := registry[className];
      if direction == "up" then Outcome(className, direction, migration.up(store))
      else if direction == "down" then Outcome(className, direction, migration.down(store))
      else Step(store, [], Some(InvalidDirection(direction)))
  }

  /** The step a migration call makes: announced first, then completed or raised. */
  function Outcome(className: string, direction: string, outcome: MigrationOutcome): (r: Step)
    ensures r.store == outcome.store && r.events == [Testing(className, direction)]
    ensures r.error.None? <==> outcome.Completed?
    ensures outcome.Raised? ==> r.error == Some(MigrationFailed(className, direction, outcome.message))
  {
    match outcome
    case Completed(s) => Step(s, [Testing(className, direction)], None)
    case Raised(s, message) => Step(s, [Testing(className, direction)], Some(MigrationFailed(className, direction, message)))
  }

  /**
    Checking the scratch database against the expected-state file at `path`; the
    state is only read, and a missing file checks nothing.
  */
  function VerifyStep(store: Store, files: map<string, Fixture>, path: string): (r: Step)
    ensures r.store == store
    ensures path !in files ==> r == Step(store, [], None)
  {
    var report := VerifyReport(store, FixtureAt(files, path));
    Step(store, report.events, if report.error.Some? then Some(HarnessError.UnexpectedObjectType) else None)
  }

  /** One phase (`test`): load `<direction>-input.yml`, apply the migration, verify `<direction>-verifier.yml`. */
  function PhaseStep(registry: map<string, Migration>, migrationsDirectory: string, files: map<string, Fixture>,
                     className: string, direction: string, store: Store): (r: Step)
    ensures className !in registry || (direction != "up" && direction != "down") ==>
      r.events == [] && r.error.Some?
      && r.store == LoadStep(store, files, InputPath(migrationsDirectory, className, direction))
    ensures className in registry && (direction == "up" || direction == "down") ==>
      |r.events| > 0 && r.events[0] == Testing(className, direction)
  {
    var loaded := LoadStep(store, files, InputPath(migrationsDirectory, className, direction));
    var apply := ApplyStep(registry, className, direction, loaded);
    if apply.error.Some? then apply
    else
      var verify := VerifyStep(apply.store, files, VerifierPath(migrationsDirectory, className, direction));
      Step(verify.store, apply.events + verify.events, verify.error)
  }

  /** The phases in order; the first phase that fails ends the run. */
  function PhasesStep(registry: map<string, Migration>, migrationsDirectory: string, files: map<string, Fixture>,
                      className: string, directions: seq<string>, store: Store): (r: Step)
    ensures directions == [] ==> r == Step(store, [], None)
    ensures directions != [] ==>
      var first := PhaseStep(registry, migrationsDirectory, files, className, directions[0], store);
      && (first.error.Some? ==> r == first)
      && (first.error.None? ==> |first.events| <= |r.events| && r.events[..|first.events|] == first.events)
  {
    if directions == [] then Step(store, [], None)
    else
      var first := PhaseStep(registry, migrationsDirectory, files, className, directions[0], store);
      if first.error.Some? then first
      else
        var rest := PhasesStep(registry, migrationsDirectory, files, className, directions[1..], first.store);
        Step(rest.store, first.events + rest.events, rest.error)
  }

  /** The database server: database name to contents; selecting a database that does not exist creates it empty. */
  function SelectDatabase(server: map<string, Store>, name: string): (r: map<string, Store>)
    ensures name in r && r.Keys == server.Keys + {name}
    ensures forall n | n in server :: r[n] == server[n]
    ensures name !in server ==> r[name] == map[]
  {
    if name in server then server else server[name := map[]]
  }

  datatype Run = Run(server: map<string, Store>, events: seq<Event>, error: Option<HarnessError>)

  /** `execute`: resolve the migration, select its scratch database, run the selected phases there. */
  function ExecuteRun(registry: map<string, Migration>, migrationsDirectory: string, files: map<string, Fixture>,
                      className: string, upOrDown: Option<string>, server: map<string, Store>): (r: Run)
    ensures className !in registry ==> r == Run(server, [], Some(MigrationDoesntExist(className)))
    ensures className in registry ==>
      ScratchDatabaseName(className) in r.server
      && r.events == PhasesStep(registry, migrationsDirectory, files, className, Directions(upOrDown),
                                SelectDatabase(server, ScratchDatabaseName(className))[ScratchDatabaseName(className)]).events
  {
    if className !in registry then Run(server, [], Some(MigrationDoesntExist(className)))
    else
      var db := ScratchDatabaseName(className);
      var selected := SelectDatabase(server, db);
      var phases := PhasesStep(registry, migrationsDirectory, files, className, Directions(upOrDown), selected[db]);
      Run(selected[db := phases.store], phases.events, phases.error)
  }
}

/** What the protocol guarantees about a whole test run. */
module ProtocolProperties {
  import opened Wrappers
  import opened Fixtures
  import opened Verifier
  import opened VerifierProperties
  import opened Protocol

  /** Cutting the same prefix and suffix off two strings. */
  lemma SameFrame(p: string, a: string, b: string, q: string)
    ensures p + a + q == p + b + q <==> a == b
  {
    if p + a + q == p + b + q {
      assert |a| == |b|;
      forall k | 0 <= k < |a| ensures a[k] == b[k] {
        assert (p + a + q)[|p| + k] == a[k];
        assert (p + b + q)[|p| + k] == b[k];
      }
    }
  }

  /**
    `execute` refuses an unknown migration before touching anything; otherwise the
    harness's own steps change no database but the migration's scratch database.
    (Migrations are functions of the scratch database alone in this model.)
  */
  lemma ExecuteTouchesOnlyScratchDatabase(registry: map<string, Migration>, migrationsDirectory: string,
                                          files: map<string, Fixture>, className: string,
                                          upOrDown: Option<string>, server: map<string, Store>)
    ensures var r := ExecuteRun(registry, migrationsDirectory, files, className, upOrDown, server);
      && (className !in registry ==> r == Run(server, [], Some(MigrationDoesntExist(className))))
      && r.server.Keys <= server.Keys + {ScratchDatabaseName(className)}
      && forall n | n in server && n != ScratchDatabaseName(className) :: n in r.server && r.server[n] == server[n]
  {
  }

  /** Different migration classes are tested in different scratch databases. */
  lemma ScratchDatabasesAreDistinct(a: string, b: string)
    ensures ScratchDatabaseName(a) == ScratchDatabaseName(b) <==> a == b
  {
  }

  /** Running a single phase is running that phase. */
  lemma OnePhase(registry: map<string, Migration>, migrationsDirectory: string, files: map<string, Fixture>,
                 className: string, direction: string, store: Store)
    ensures PhasesStep(registry, migrationsDirectory, files, className, [direction], store)
         == PhaseStep(registry, migrationsDirectory, files, className, direction, store)
  {
    var first := PhaseStep(registry, migrationsDirectory, files, className, direction, store);
    assert [direction][1..] == [];
    assert PhasesStep(registry, migrationsDirectory, files, className, [], first.store) == Step(first.store, [], None);
    assert first.events + [] == first.events;
  }

  /** Running up then down: down starts from the state up left, and only if up succeeded. */
  lemma UpThenDown(registry: map<string, Migration>, migrationsDirectory: string, files: map<string, Fixture>,
                   className: string, store: Store)
    ensures var up := PhaseStep(registry, migrationsDirectory, files, className, "up", store);
      var down := PhaseStep(registry, migrationsDirectory, files, className, "down", up.store);
      PhasesStep(registry, migrationsDirectory, files, className, ["up", "down"], store)
        == if up.error.Some? then up else Step(down.store, up.events + down.events, down.error)
  {
    var up := PhaseStep(registry, migrationsDirectory, files, className, "up", store);
    assert ["up", "down"][1..] == ["down"];
    OnePhase(registry, migrationsDirectory, files, className, "down", up.store);
  }

  /** A phase never reads its expected state from its own input file, and the two directions use different files. */
  lemma PhaseFilesAreDistinct(migrationsDirectory: string, className: string, d1: string, d2: string)
    ensures InputPath(migrationsDirectory, className, d1) != VerifierPath(migrationsDirectory, className, d2)
    ensures InputPath(migrationsDirectory, className, d1) == InputPath(migrationsDirectory, className, d2) <==> d1 == d2
    ensures VerifierPath(migrationsDirectory, className, d1) == VerifierPath(migrationsDirectory, className, d2) <==> d1 == d2
  {
    var p := TestsDirectory(migrationsDirectory, className);
    var input := InputPath(migrationsDirectory, className, d1);
    var verifier := VerifierPath(migrationsDirectory, className, d2);
    assert input[|input| - 5] == 't';
    assert verifier[|verifier| - 5] == 'r';
    SameFrame(p, d1, d2, "-input.yml");
    SameFrame(p, d1, d2, "-verifier.yml");
  }

  /** The only `Testing` event a phase writes announces that phase, and a phase that succeeds starts with it. */
  lemma PhaseAnnouncesItsDirection(registry: map<string, Migration>, migrationsDirectory: string,
                                   files: map<string, Fixture>, className: string, direction: string, store: Store)
    ensures var r := PhaseStep(registry, migrationsDirectory, files, className, direction, store);
      forall i | 0 <= i < |r.events| :: r.events[i].Testing? ==> r.events[i] == Testing(className, direction)
    ensures var r := PhaseStep(registry, migrationsDirectory, files, className, direction, store);
      r.error.None? ==> |r.events| > 0 && r.events[0] == Testing(className, direction)
  {
    var loaded := LoadStep(store, files, InputPath(migrationsDirectory, className, direction));
    var apply := ApplyStep(registry, className, direction, loaded);
    if apply.error.None? {
      var path := VerifierPath(migrationsDirectory, className, direction);
      var fixture := FixtureAt(files, path);
      var verify := VerifyStep(apply.store, files, path);
      assert apply.events == [Testing(className, direction)];
      VerifyReportSpec(apply.store, fixture);
      forall i | 0 <= i < |verify.events| ensures !verify.events[i].Testing? {
        assert verify.events[i] == EventOf(Compare(apply.store, fixture[i].0, fixture[i].1).value);
      }
    }
  }

  /**
    A phase whose input and verifier files are both missing still runs the
    migration: it seeds nothing, announces and runs the direction, and checks nothing.
  */
  lemma MissingFilesStillRunMigration(registry: map<string, Migration>, migrationsDirectory: string,
                                      files: map<string, Fixture>, className: string, direction: string, store: Store)
    requires className in registry
    requires InputPath(migrationsDirectory, className, direction) !in files
    requires VerifierPath(migrationsDirectory, className, direction) !in files
    ensures direction == "up" ==> PhaseStep(registry, migrationsDirectory, files, className, direction, store)
                                  == Outcome(className, direction, registry[className].up(store))
    ensures direction == "down" ==> PhaseStep(registry, migrationsDirectory, files, className, direction, store)
                                    == Outcome(className, direction, registry[className].down(store))
  {
    var apply := ApplyStep(registry, className, direction, store);
    assert apply.events + [] == apply.events;
  }

  /** A direction that is neither up nor down is never what stops a run of valid phases. */
  lemma {:induction false} PhasesNeverRejectDirection(registry: map<string, Migration>, migrationsDirectory: string,
                                                      files: map<string, Fixture>, className: string,
                                                      directions: seq<string>, store: Store)
    requires forall i | 0 <= i < |directions| :: directions[i] == "up" || directions[i] == "down"
    ensures var r := PhasesStep(registry, migrationsDirectory, files, className, directions, store);
      !(r.error.Some? && r.error.value.InvalidDirection?)
    decreases |directions|
  {
    if directions != [] {
      var first := PhaseStep(registry, migrationsDirectory, files, className, directions[0], store);
      if first.error.None? {
        PhasesNeverRejectDirection(registry, migrationsDirectory, files, className, directions[1..], first.store);
      }
    }
  }

  /** `execute` only ever passes up or down to the dispatcher, whatever direction argument it was given. */
  lemma ExecuteNeverRejectsDirection(registry: map<string, Migration>, migrationsDirectory: string,
                                     files: map<string, Fixture>, className: string,
                                     upOrDown: Option<string>, server: map<string, Store>)
    ensures var r := ExecuteRun(registry, migrationsDirectory, files, className, upOrDown, server);
      !(r.error.Some? && r.error.value.InvalidDirection?)
  {
    if className in registry {
      var db := ScratchDatabaseName(className);
      PhasesNeverRejectDirection(registry, migrationsDirectory, files, className, Directions(upOrDown),
                                 SelectDatabase(server, db)[db]);
    }
  }

  /** The scratch database `execute` works in before its first phase. */
  function ScratchStore(server: map<string, Store>, className: string): Store {
    SelectDatabase(server, ScratchDatabaseName(className))[ScratchDatabaseName(className)]
  }

  /**
    Without a direction argument, a failure in the up phase ends the run with that
    failure: the down phase is never announced.
  */
  lemma UpFailureSkipsDown(registry: map<string, Migration>, migrationsDirectory: string,
                           files: map<string, Fixture>, className: string,
                           upOrDown: Option<string>, server: map<string, Store>)
    requires className in registry
    requires upOrDown != Some("up") && upOrDown != Some("down")
    requires PhaseStep(registry, migrationsDirectory, files, className, "up", ScratchStore(server, className)).error.Some?
    ensures var r := ExecuteRun(registry, migrationsDirectory, files, className, upOrDown, server);
      r.error == PhaseStep(registry, migrationsDirectory, files, className, "up", ScratchStore(server, className)).error
      && forall i | 0 <= i < |r.events| :: r.events[i] != Testing(className, "down")
  {
    PhaseAnnouncesItsDirection(registry, migrationsDirectory, files, className, "up", ScratchStore(server, className));
  }

  /** Without a direction argument, a run that succeeds tested up first and then down. */
  lemma CompleteRunTestsUpThenDown(registry: map<string, Migration>, migrationsDirectory: string,
                                   files: map<string, Fixture>, className: string,
                                   upOrDown: Option<string>, server: map<string, Store>)
    requires upOrDown != Some("up") && upOrDown != Some("down")
    requires ExecuteRun(registry, migrationsDirectory, files, className, upOrDown, server).error.None?
    ensures var r := ExecuteRun(registry, migrationsDirectory, files, className, upOrDown, server);
      && |r.events| > 0 && r.events[0] == Testing(className, "up")
      && exists j | 0 < j < |r.events| :: r.events[j] == Testing(className, "down")
  {
    var store := ScratchStore(server, className);
    var up := PhaseStep(registry, migrationsDirectory, files, className, "up", store);
    PhaseAnnouncesItsDirection(registry, migrationsDirectory, files, className, "up", store);
    var down := PhaseStep(registry, migrationsDirectory, files, className, "down", up.store);
    PhaseAnnouncesItsDirection(registry, migrationsDirectory, files, className, "down", up.store);
    var dirs := Directions(upOrDown);
    assert dirs[1..] == ["down"] && dirs[1..][1..] == [];
    var rest := PhasesStep(registry, migrationsDirectory, files, className, ["down"], up.store);
    assert PhasesStep(registry, migrationsDirectory, files, className, [], down.store) == Step(down.store, [], None);
    assert rest.events == down.events + [];
    var r := ExecuteRun(registry, migrationsDirectory, files, className, upOrDown, server);
    assert r.events == up.events + down.events;
    assert r.events[|up.events|] == Testing(className, "down");
  }

  /** With a direction argument, only that direction is tested. */
  lemma SingleDirectionRunsOnePhase(registry: map<string, Migration>, migrationsDirectory: string,
                                    files: map<string, Fixture>, className: string,
                                    direction: string, server: map<string, Store>)
    requires direction == "up" || direction == "down"
    ensures var r := ExecuteRun(registry, migrationsDirectory, files, className, Some(direction), server);
      forall i | 0 <= i < |r.events| :: r.events[i].Testing? ==> r.events[i] == Testing(className, direction)
  {
    var store := ScratchStore(server, className);
    PhaseAnnouncesItsDirection(registry, migrationsDirectory, files, className, direction, store);
    assert [direction][1..] == [];
    var first := PhaseStep(registry, migrationsDirectory, files, className, direction, store);
    assert PhasesStep(registry, migrationsDirectory, files, className, [], first.store) == Step(first.store, [], None);
  }

  /** A direction of a migration that changes nothing and never raises. */
  ghost predicate IsNoOp(run: Store -> MigrationOutcome) {
    forall s: Store :: run(s) == Completed(s)
  }

  /**
    A phase whose migration direction changes nothing and whose expected state is its
    own seed data passes every collection and ends with the seeded database.
  */
  lemma NoOpPhasePasses(registry: map<string, Migration>, migrationsDirectory: string,
                        files: map<string, Fixture>, className: string, direction: string, store: Store)
    requires className in registry
    requires direction == "up" || direction == "down"
    requires direction == "up" ==> IsNoOp(registry[className].up)
    requires direction == "down" ==> IsNoOp(registry[className].down)
    requires InputPath(migrationsDirectory, className, direction) in files
    requires VerifierPath(migrationsDirectory, className, direction) in files
    requires files[VerifierPath(migrationsDirectory, className, direction)]
          == files[InputPath(migrationsDirectory, className, direction)]
    requires DistinctNames(files[InputPath(migrationsDirectory, className, direction)])
    requires var f := files[InputPath(migrationsDirectory, className, direction)];
      forall i, j | 0 <= i < |f| && 0 <= j < |f[i].1| :: Seedable(f[i].1[j])
    ensures var f := files[InputPath(migrationsDirectory, className, direction)];
      PhaseStep(registry, migrationsDirectory, files, className, direction, store)
        == Step(Loaded(store, f),
                [Testing(className, direction)] + seq(|f|, i requires 0 <= i < |f| => Passed(f[i].0)),
                None)
  {
    var f := files[InputPath(migrationsDirectory, className, direction)];
    var seeded := Loaded(store, f);
    if direction == "up" {
      assert registry[className].up(seeded) == Completed(seeded);
    } else {
      assert registry[className].down(seeded) == Completed(seeded);
    }
    LoadThenVerifyPasses(store, f);
  }
}

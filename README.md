# Mongrate migration test harness, modelled in Dafny

Mongrate's `test` console command (`TestMigrationCommand`) checks a migration in a
scratch database named `mongrate_test_<ClassName>`. For each direction under test,
up and/or down, it runs one phase:

1. It seeds the database from `<migrations_directory>/<ClassName>/<direction>-input.yml`.
   Each named collection is emptied, then its documents are inserted in file order.
   Each document is tagged with `_orderInTestYamlFile = i`.
2. It runs the migration's `up` or `down` against the database.
3. It compares every collection named in `<direction>-verifier.yml` with the database.
   - The actual documents are read in tag order, with `_id` and the tag removed.
   - Both lists are put in a canonical form by `normalizeObject`, and their JSON texts are compared.
   - A match prints "Test passed."; a mismatch prints "Test failed." followed by both JSON texts.

`normalizeObject` keeps scalars (string, int, bool, float) as they are. It rejects every
other non-array value. For an array, it keeps the entry order when the first key is the
integer `0`, and otherwise sorts the entries by key. It then normalises every value recursively.

The model has these files:

- `php_values.dfy` models PHP values. An array is an ordered sequence of (key, value)
  entries, and keys are integers or strings. The file also holds the fixed key order
  standing in for `ksort`, the field helpers, and PHP's cast of a decimal string key
  such as `"0"` to an integer key.
- `sorting.dfy` holds a generic insertion sort: it yields a sorted permutation, sorting
  sorted input changes nothing, and equal multisets sort to equal results when no two
  distinct elements tie.
- `normalizer.dfy` is `normalizeObject`, as a pure recursive function, with its lemmas.
- `fixtures.dfy` specifies the fixture loader as a function on the database
  (`map<string, seq<Doc>>`).
- `verifier.dfy` specifies the ordered read, the projection and the comparison of one
  collection, and the report of a whole verifier file.
- `protocol.dfy` specifies migration lookup, direction dispatch, file names, one phase,
  the phase sequence and `execute`, together with the lemmas about a whole run.
- `test_migration_command.dfy` is the command itself, a class with the mutable database
  server, selected database and console output.
  - Its methods make the state changes of the source step by step, with loops for the
    fixture loader and the verifier.
  - Each method is proved to produce exactly the new state that the matching
    specification function describes.

A migration is a pair of functions, one for `up` and one for `down`. Each takes the scratch
database and returns either `Completed(store)` or `Raised(store, message)`. With `Raised`,
the migration failed part-way, and `store` is what it had changed by then. Migration
classes are looked up in a registry by class name. The YAML files arrive already parsed,
as a map from path to fixture. Console lines are events:

- `Testing(class, direction)`;
- `Passed(collection)`;
- `Failed(collection, expected, actual)`, where expected and actual are the two
  normalised values.

`json_encode` is taken to be injective, so equal JSON texts mean equal normal forms.

`execute` (TestMigrationCommand.php:49-52) calls `test('up')` and then `test('down')` with
no exception handling. An exception raised by the migration's `up` or by `normalizeObject`
in the up phase therefore ends `execute`, and down is never tested (`UpFailureSkipsDown`).
A verification mismatch is only printed, so down does still run after a failed comparison.

A fixture or verifier file that cannot be read does not stop a phase. `file_get_contents`
then returns `false`, the YAML parser turns that into `null`, and `foreach` over `null`
does nothing. So a missing input file seeds nothing, a missing verifier file checks
nothing, and the migration still runs (`MissingFilesStillRunMigration`).

## Model

| member | source | states |
|---|---|---|
| Normalizer.Normalize | src/Mongrate/Command/TestMigrationCommand.php:130-149 | succeeds exactly when the value and everything nested in it is a string, int, bool, float or array; scalars come back unchanged; an array comes back as an array of the same length |
| Normalizer.NormalizeEntries | src/Mongrate/Command/TestMigrationCommand.php:141-145 | each entry keeps its key and position and gets its value's normal form; one unsupported value anywhere fails the whole array |
| NormalizerProperties.NormalizedIsCanonical | src/Mongrate/Command/TestMigrationCommand.php:135-145 | every normal form is canonical: at every depth each array is list-like (first key 0) or sorted by key |
| NormalizerProperties.CanonicalIsFixedPoint | src/Mongrate/Command/TestMigrationCommand.php:130-145 | a canonical value normalises to itself |
| NormalizerProperties.NormalizeIsIdempotent | src/Mongrate/Command/TestMigrationCommand.php:130-145 | normalising a normal form changes nothing |
| NormalizerProperties.NormalizeKeepsListOrder | src/Mongrate/Command/TestMigrationCommand.php:135-139 | when the first key is 0, the keys stay in exactly their original order and each value is replaced by its own normal form |
| NormalizerProperties.NormalizeSortsKeys | src/Mongrate/Command/TestMigrationCommand.php:137-139 | when the first key is not 0, the result's keys are in ascending key order |
| NormalizerProperties.NormalizeKeepsEntries | src/Mongrate/Command/TestMigrationCommand.php:137-145 | the result holds exactly the normalised entries, reordered, so the multiset of keys is the input's |
| NormalizerProperties.NormalizeMatchesSortThenNormalize | src/Mongrate/Command/TestMigrationCommand.php:137-145 | sorting by key first and then normalising the values, as the source does, gives the same result and the same failures as normalising first |
| NormalizerProperties.NormalizeEntriesCons | src/Mongrate/Command/TestMigrationCommand.php:141-145 | normalising an entry followed by a sequence normalises the entry and then the rest |
| NormalizerProperties.NormalizeCommutesWithInsert | src/Mongrate/Command/TestMigrationCommand.php:137-145 | inserting an entry by key commutes with normalising the values |
| NormalizerProperties.NormalizeCommutesWithSort | src/Mongrate/Command/TestMigrationCommand.php:137-145 | sorting by key commutes with normalising the values |
| NormalizerProperties.SortKeepsSupport | src/Mongrate/Command/TestMigrationCommand.php:138 | sorting entries does not change whether their values can be normalised |
| NormalizerProperties.NormalizeIgnoresEntryOrder | src/Mongrate/Command/TestMigrationCommand.php:135-145 | two arrays with the same entries (distinct keys) in different orders, neither starting with key 0, normalise identically |
| NormalizerProperties.StringZeroKeyIsListLike | src/Mongrate/Command/TestMigrationCommand.php:137 | a mapping whose first key is the string "0" counts as list-like, because PHP stores that key as the integer 0 |
| NormalizerProperties.ZeroFirstKeepsOrder | src/Mongrate/Command/TestMigrationCommand.php:137 | the mixed array [0, "b", "a"] keeps its key order |
| NormalizerProperties.StringFirstIsSorted | src/Mongrate/Command/TestMigrationCommand.php:137-138 | the same entries starting with "b" get sorted |
| NormalizerProperties.MixedKeysDependOnFirstEntry | src/Mongrate/Command/TestMigrationCommand.php:135-139 | the first-key test makes order-independence fail for arrays mixing key kinds: the same three entries normalise differently depending on which comes first |
| NormalizerProperties.SameEntries | src/Mongrate/Command/TestMigrationCommand.php:135-139 | the two arrays of that example hold the same entries |
| PhpValues.KeyOf | src/Mongrate/Command/TestMigrationCommand.php:137 | a string key stays a string exactly when it is not the canonical decimal form of an integer; negative integer keys come from strings starting with "-" |
| PhpValues.KeyOfDecimalString | src/Mongrate/Command/TestMigrationCommand.php:137 | the decimal form of any integer becomes that integer key; in particular "0" becomes 0 |
| PhpValues.KeyOfIsInjective | src/Mongrate/Command/TestMigrationCommand.php:137 | two different string keys never become the same array key |
| PhpValues.DecimalOfKey | src/Mongrate/Command/TestMigrationCommand.php:137 | a canonical decimal string is the decimal form of the key it becomes |
| PhpValues.NaturalStringIsCanonical | src/Mongrate/Command/TestMigrationCommand.php:137 | the decimal form of a natural number is canonical and reads back as that number |
| PhpValues.CanonicalNaturalRoundTrip | src/Mongrate/Command/TestMigrationCommand.php:137 | reading a canonical digit string and printing the number gives the string back |
| PhpValues.LeadingNonZeroIsPositive | src/Mongrate/Command/TestMigrationCommand.php:137 | digits with a non-zero first digit denote a positive number |
| PhpValues.KeyLeAntisymmetric | src/Mongrate/Command/TestMigrationCommand.php:138 | two keys ordered both ways are the same key |
| PhpValues.EntryLeIsTotalPreorder | src/Mongrate/Command/TestMigrationCommand.php:138 | the key order used in place of `ksort` is total and transitive |
| PhpValues.StrLeTotal | src/Mongrate/Command/TestMigrationCommand.php:138 | string keys are always comparable |
| PhpValues.StrLeTransitive | src/Mongrate/Command/TestMigrationCommand.php:138 | string key order is transitive |
| PhpValues.StrLeAntisymmetric | src/Mongrate/Command/TestMigrationCommand.php:138 | strings ordered both ways are equal |
| PhpValues.FieldOf | src/Mongrate/Command/TestMigrationCommand.php:78 | a field is found exactly when the document has that key, and the found value is stored under it |
| PhpValues.SetField | src/Mongrate/Command/TestMigrationCommand.php:78 | after the assignment, the field holds the new value and every other field is unchanged; a new key is appended at the end |
| PhpValues.WithoutKeys | src/Mongrate/Command/TestMigrationCommand.php:112 | the projection removes exactly the excluded keys, keeps every other field's value, and changes nothing when no excluded key is present |
| PhpValues.WithoutKeysDropsAppended | src/Mongrate/Command/TestMigrationCommand.php:112 | a field appended under an excluded key vanishes from the projection |
| Sorting.SortBy | src/Mongrate/Command/TestMigrationCommand.php:138 | the sort returns a permutation of its input |
| Sorting.SortIsSorted | src/Mongrate/Command/TestMigrationCommand.php:138 | for a total preorder, the sort's output is sorted |
| Sorting.SortOfSortedIsIdentity | src/Mongrate/Command/TestMigrationCommand.php:138 | sorting already-sorted input changes nothing |
| Sorting.SortIgnoresInputOrder | src/Mongrate/Command/TestMigrationCommand.php:138 | two permutations of the same elements sort to the same sequence, provided no two distinct elements tie |
| Sorting.SortedPermutationsAreEqual | src/Mongrate/Command/TestMigrationCommand.php:138 | two sorted permutations without distinct ties are equal |
| Sorting.InsertKeepsSorted | src/Mongrate/Command/TestMigrationCommand.php:138 | inserting into a sorted sequence keeps it sorted |
| Sorting.MapKeepsPermutation | src/Mongrate/Command/TestMigrationCommand.php:141-145 | mapping a function over two permutations of each other gives two permutations of each other |
| Fixtures.Tagged | src/Mongrate/Command/TestMigrationCommand.php:77-80 | document i carries `_orderInTestYamlFile = i`, and every other field is the fixture's |
| Fixtures.Loaded | src/Mongrate/Command/TestMigrationCommand.php:71-81 | after loading, the store's collections are the previous ones plus every collection the fixture names |
| FixtureProperties.LoadedHoldsFixture | src/Mongrate/Command/TestMigrationCommand.php:71-81 | each collection the fixture names holds exactly its tagged documents, in file order |
| FixtureProperties.LoadedKeepsOthers | src/Mongrate/Command/TestMigrationCommand.php:71-81 | a collection the fixture does not name is left exactly as it was |
| FixtureProperties.LoadedIsOverlay | src/Mongrate/Command/TestMigrationCommand.php:74-75 | loading is overwriting: the result is the old store overlaid with the fixture's collections loaded into an empty store |
| FixtureProperties.LoadIsIdempotent | src/Mongrate/Command/TestMigrationCommand.php:71-81 | loading the same fixture twice gives the same store as loading it once |
| FixtureProperties.LoadDiscardsPriorContents | src/Mongrate/Command/TestMigrationCommand.php:74-75 | what a named collection held before loading makes no difference afterwards |
| Verifier.DocLeIsTotalPreorder | src/Mongrate/Command/TestMigrationCommand.php:111 | ordering documents by their tag is a total preorder |
| Verifier.ReadOrdered | src/Mongrate/Command/TestMigrationCommand.php:110-113 | the read returns the collection's documents, all of them and nothing else, in ascending tag order |
| Verifier.Projected | src/Mongrate/Command/TestMigrationCommand.php:112 | the read drops `_id` and the tag and keeps every other field |
| Verifier.ActualDocs | src/Mongrate/Command/TestMigrationCommand.php:110-113 | there is one actual document per stored document |
| Verifier.ListValue | src/Mongrate/Command/TestMigrationCommand.php:110 | the document list is a PHP list: keys 0, 1, ... in order |
| Verifier.Compare | src/Mongrate/Command/TestMigrationCommand.php:105-117 | the comparison fails exactly when one side cannot be normalised; otherwise the collection is verified exactly when the normalised expected list equals the normalised actual list |
| Verifier.VerifyReport | src/Mongrate/Command/TestMigrationCommand.php:105-127 | at most one verdict per expected collection; the report carries an error exactly when it stops before the last collection |
| VerifierProperties.VerifyReportSpec | src/Mongrate/Command/TestMigrationCommand.php:105-127 | one verdict per expected collection in file order, up to the first collection that cannot be normalised; an error appears exactly when the report stops early |
| VerifierProperties.NormalizeListValue | src/Mongrate/Command/TestMigrationCommand.php:107-114 | normalising a document list normalises each document and keeps the positions |
| VerifierProperties.CompareVerdictPerDocument | src/Mongrate/Command/TestMigrationCommand.php:117 | a collection passes exactly when the counts match and every document normalises to the same value as its counterpart |
| VerifierProperties.VerifiedDocumentsHaveSameFields | src/Mongrate/Command/TestMigrationCommand.php:117 | in a passing collection, each actual document has the same keys as the expected one |
| VerifierProperties.MissingFieldFails | src/Mongrate/Command/TestMigrationCommand.php:117 | an expected field missing from the matching actual document makes the collection fail |
| VerifierProperties.CompareIgnoresStorageOrder | src/Mongrate/Command/TestMigrationCommand.php:110-117 | when the tags are distinct, the order in which the database stores documents does not change the verdict |
| VerifierProperties.ProjectedUndoesTag | src/Mongrate/Command/TestMigrationCommand.php:112 | for a document without `_id` or tag, tagging and then projecting gives the document back |
| VerifierProperties.SeededDocumentsReadInOrder | src/Mongrate/Command/TestMigrationCommand.php:110-113 | the tagged documents are already in tag order |
| VerifierProperties.SeededDocumentsReadBack | src/Mongrate/Command/TestMigrationCommand.php:77-113 | reading back seeded documents without `_id` or tag gives the fixture documents, in order, whether or not they can be normalised |
| VerifierProperties.NullDocumentReadsBack | src/Mongrate/Command/TestMigrationCommand.php:77-113 | a document holding a null cannot be normalised, yet it is seeded and read back unchanged |
| VerifierProperties.SeededCollectionPasses | src/Mongrate/Command/TestMigrationCommand.php:105-117 | a collection holding exactly the seeded documents passes against those documents |
| VerifierProperties.AllPassingReport | src/Mongrate/Command/TestMigrationCommand.php:105-127 | when every comparison passes, the report is one pass per collection and no error |
| VerifierProperties.LoadThenVerifyPasses | src/Mongrate/Command/TestMigrationCommand.php:71-127 | loading a fixture and verifying against that same fixture passes every collection |
| Protocol.Directions | src/Mongrate/Command/TestMigrationCommand.php:47-52 | `up` or `down` selects that one phase; any other token, or none, selects up and then down; only up and down are ever selected |
| Protocol.ScratchDatabaseName | src/Mongrate/Command/TestMigrationCommand.php:45 | the scratch database is named `mongrate_test_` followed by the class name |
| Protocol.InputPath | src/Mongrate/Command/TestMigrationCommand.php:57-58 | the input file is `<migrations_directory>/<ClassName>/<direction>-input.yml` |
| Protocol.VerifierPath | src/Mongrate/Command/TestMigrationCommand.php:57-59 | the verifier file is `<migrations_directory>/<ClassName>/<direction>-verifier.yml` |
| Protocol.FixtureAt | src/Mongrate/Command/TestMigrationCommand.php:68-71 | a readable file yields its parsed collections; a file that cannot be read yields none |
| Protocol.LoadStep | src/Mongrate/Command/TestMigrationCommand.php:66-82 | a readable fixture file loads into the store; a missing one leaves the store unchanged and raises nothing |
| Protocol.ApplyStep | src/Mongrate/Command/TestMigrationCommand.php:84-98 | an unknown class fails; up and down announce themselves and then run exactly that direction; any other direction fails without output and without touching the store |
| Protocol.Outcome | src/Mongrate/Command/TestMigrationCommand.php:89-94 | the announcement is written before the migration runs; an exception from the migration keeps its partial changes and becomes the step's error |
| Protocol.VerifyStep | src/Mongrate/Command/TestMigrationCommand.php:100-128 | verification never changes the database; a missing verifier file checks nothing, writes nothing and raises nothing |
| Protocol.PhaseStep | src/Mongrate/Command/TestMigrationCommand.php:55-64 | an unknown class or a direction other than up/down fails after seeding, with no output; otherwise the phase's output starts by announcing its class and direction |
| Protocol.PhasesStep | src/Mongrate/Command/TestMigrationCommand.php:47-52 | no phase does nothing; the first phase that fails ends the sequence with its result; otherwise the first phase's output comes first |
| Protocol.ExecuteRun | src/Mongrate/Command/TestMigrationCommand.php:29-53 | an unknown class fails with nothing changed or written; otherwise the scratch database is present in the model's server afterwards and the output is that of the selected phases run on it |
| Verifier.EventOf | src/Mongrate/Command/TestMigrationCommand.php:117-126 | the line for a collection is a pass exactly when it was verified; a failure shows the expected and the actual normal form |
| ProtocolProperties.MissingFilesStillRunMigration | src/Mongrate/Command/TestMigrationCommand.php:55-71 | with neither the input nor the verifier file readable, a phase is exactly the announced migration run on the unchanged store |
| ProtocolProperties.ScratchDatabasesAreDistinct | src/Mongrate/Command/TestMigrationCommand.php:45 | two migration classes share a scratch database only if they are the same class |
| Protocol.SelectDatabase | src/Mongrate/Command/TestMigrationCommand.php:45 | selecting a database makes it present, as an empty database when it did not exist, and leaves every other database as it was |
| ProtocolProperties.ExecuteTouchesOnlyScratchDatabase | src/Mongrate/Command/TestMigrationCommand.php:36-45 | an unknown migration is refused before anything changes; otherwise the harness's own steps create or change no database other than `mongrate_test_<ClassName>` |
| ProtocolProperties.OnePhase | src/Mongrate/Command/TestMigrationCommand.php:47-48 | running the one selected phase is running that phase |
| ProtocolProperties.UpThenDown | src/Mongrate/Command/TestMigrationCommand.php:49-52 | down runs on the state up left, and only if up raised nothing |
| ProtocolProperties.SameFrame | src/Mongrate/Command/TestMigrationCommand.php:57-59 | strings with the same prefix and suffix, such as two file names built from one directory, are equal exactly when their middles (the directions) are |
| ProtocolProperties.PhaseFilesAreDistinct | src/Mongrate/Command/TestMigrationCommand.php:57-59 | a phase's input file is never a verifier file, and different directions read different files |
| ProtocolProperties.PhaseAnnouncesItsDirection | src/Mongrate/Command/TestMigrationCommand.php:55-64 | the only announcement a phase writes names its own direction, and a phase that succeeds starts with it |
| ProtocolProperties.PhasesNeverRejectDirection | src/Mongrate/Command/TestMigrationCommand.php:95-96 | phases run with up and down only never fail with an invalid direction |
| ProtocolProperties.ExecuteNeverRejectsDirection | src/Mongrate/Command/TestMigrationCommand.php:47-52 | whatever direction token `execute` receives, the invalid-direction exception is never raised |
| ProtocolProperties.UpFailureSkipsDown | src/Mongrate/Command/TestMigrationCommand.php:49-52 | when both directions are tested and the up phase raises, the run ends with that error and down is never announced |
| ProtocolProperties.CompleteRunTestsUpThenDown | src/Mongrate/Command/TestMigrationCommand.php:49-52 | a run of both directions that completes tested up first and then down |
| ProtocolProperties.SingleDirectionRunsOnePhase | src/Mongrate/Command/TestMigrationCommand.php:47-48 | with `up` or `down` given, only that direction is announced |
| ProtocolProperties.NoOpPhasePasses | src/Mongrate/Command/TestMigrationCommand.php:55-64 | with a migration that changes nothing and a verifier file equal to its input file, the phase passes every collection and leaves the seeded database |
| TestMigration.TestMigrationCommand.Execute | src/Mongrate/Command/TestMigrationCommand.php:29-53 | the command's new server, output and error are exactly those of the `execute` specification; an unknown class leaves the selected database as it was, otherwise `mongrate_test_<ClassName>` is selected |
| TestMigration.TestMigrationCommand.TestDirections | src/Mongrate/Command/TestMigrationCommand.php:47-52 | the dispatch changes the selected database and output exactly as the selected phases do, in order, stopping at the first error |
| TestMigration.TestMigrationCommand.Test | src/Mongrate/Command/TestMigrationCommand.php:55-64 | one phase (load, apply, verify) changes the selected database and output exactly as the phase specification says |
| TestMigration.TestMigrationCommand.AddFixturesToDatabaseFromYamlFile | src/Mongrate/Command/TestMigrationCommand.php:66-82 | the loop over collections leaves the selected database equal to the loader specification's result, unchanged for a file that cannot be read; other databases are untouched |
| TestMigration.TestMigrationCommand.ReplaceCollection | src/Mongrate/Command/TestMigrationCommand.php:72-80 | emptying a collection and inserting the documents one by one leaves it holding exactly the tagged documents |
| TestMigration.TestMigrationCommand.ApplyMigration | src/Mongrate/Command/TestMigrationCommand.php:84-98 | the database, output and error after dispatch are those of the apply specification |
| TestMigration.TestMigrationCommand.VerifyDatabaseAgainstYamlFile | src/Mongrate/Command/TestMigrationCommand.php:100-128 | the loop writes exactly the report's verdicts and stops with its error; the database is not modified |

## Left out

- MongoDB and Doctrine mechanics are not modelled: the connection, `find` with `$orderby`, `remove`, `insert` and BSON encoding. The database is an in-memory map from collection name to a sequence of documents.
- Generation of `_id` on insert is not modelled, because `_id` is projected away before every comparison.
- Collections that hold the same tag twice, or a tag that is not an integer, are not modelled for the database's sort order. The model ranks documents by tag and keeps ties in storage order.
- YAML parsing and `file_get_contents` are not modelled. Files arrive as a map from path to parsed fixture, and a path missing from that map stands for a file that cannot be read, which the source treats as empty.
- The PHP warning printed for a file that cannot be read is not modelled, and neither is an error handler that would turn such warnings into exceptions.
- A fixture whose top level is not a mapping of collections to document lists is not modelled, and neither is a document list keyed by something other than 0, 1, ....
- `file_exists`/`require_once` and `new $fullClassName()` are not modelled. A registry from class name to migration replaces class loading, and the bodies of migrations are arbitrary functions.
- Console text and `writeln` formatting are reduced to events. `json_encode` is taken to be injective, and its failures are not modelled. It returns `false` on invalid UTF-8 and on infinite or NaN floats, which YAML's `.inf` and `.nan` produce. When both sides fail, `false === false` at TestMigrationCommand.php:117 holds, so "Test passed." is printed whatever the contents.
- The `var_dump` output is not modelled. `var_dump($object, true)` prints the value, and `bool(true)`, to standard output and returns nothing, so the exception's message is just "Unexpected object type: ". Neither the dump nor the message is modelled: the error carries no payload.
- PHP `ksort` comparison quirks are not modelled, such as numeric strings compared as numbers or PHP 7 versus PHP 8 behaviour for mixed keys. The model uses a fixed total order: integers by value, before strings, and strings by character code.
- Values are taken to be in PHP's key form already: every array has distinct keys, and no string key is the canonical decimal form of an integer (PHP would have stored `"0"` as the integer 0). `KeyOf` states PHP's cast, but the parsed fixtures are not checked against it, and `Normalize` applied to an array that breaks this form would treat `StrKey("0")` as a string key.
- Floats are opaque bit patterns. Integer keys are unbounded, so PHP's 64-bit limit for a decimal string key is not modelled.
- The console `configure()` method is not modelled.
- `ListCommand.php` is not part of this model.
- Protocol.VerifyStep: its own contract states only that the database is unchanged and what a missing file does. The verdicts it reports are stated by `VerifierProperties.VerifyReportSpec`.
- ProtocolProperties.ExecuteTouchesOnlyScratchDatabase: the model confines a migration to the scratch database, because a migration is a function from that database to its outcome. A PHP migration receives a connection-bound database object and could reach other databases; that is not modelled.
- Verifier.VerifyReport: its own contract states only how many verdicts the report holds and when it carries an error; `VerifierProperties.VerifyReportSpec` states what each verdict is.
- Protocol.SelectDatabase: the model creates the scratch database, empty, when it is selected. On a MongoDB server `selectDatabase` creates nothing, and a database appears only at its first write. The harness never reads anything that tells the two apart: an absent database and an empty one both read back no documents.

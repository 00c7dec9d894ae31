# dbt ingestion of a database source, modelled in Dafny

This project models `DBTMixin`, the part of an OpenMetadata database source that reads the three
documents dbt writes (the manifest, the catalog and the run results). From them it builds:

- data models, each with its columns, upstream tables and owner;
- lineage edges between tables;
- test suite and test definition requests;
- test case requests;
- test results submitted to the metadata server.

Modules:

- `Wrappers`: `Option` and `Result`. In `Result`, `Raise` carries the Python exception that escapes.
- `PyJson`: how the code reads the JSON dictionaries. A key is absent, `null` or a value. The
  module covers subscripting, `.get`, `in`, truthiness, f-strings, `str.lower`, `str.join` and `str.split`.
- `OrderedDicts`: Python dictionaries with their insertion order. This covers `d[k] = v`,
  `{**a, **b}`, `.values()` and `.items()`.
- `DbtArtifacts`: the documents, the records sent to the server, and the outside collaborators:
  - `Env` holds the service name, the `fqn.build` builders and the column type parser;
  - `Store` holds the metadata client's lookups, each of which finds an entity, finds nothing or raises.
- `DataModels`: `_parse_data_model` and its column, upstream and owner helpers.
- `Lineage`: `create_dbt_lineage`.
- `DbtTests`:
  - parameter definitions and values;
  - entity links;
  - the suite and definition stage;
  - test cases;
  - test results.
- `Timestamps`: `datetime.strptime` with the layout `%Y-%m-%dT%H:%M:%S.%fZ`, and `unix_time_millis`.
- `DbtSource`: the class `DbtMixin`:
  - its fields are `manifest_entities`, `catalog_entities`, `data_models` and `dbt_tests`;
  - each method of the source is a method with its loops;
  - each method is proved equal to the function that specifies that stage.

A generator is modelled by the sequence it yields. A stage that lets an exception out also returns
that exception.

Where the code and its documented intent disagree, the model follows the code:

- A catalog column without a `name` aborts the node. The name is read before each column's `try`
  (line 183), so the whole column list raises and the node is skipped.
- One `try` surrounds the whole loop of `create_dbt_tests_suite_definition` (242-286). The first
  failure therefore ends the stage.
- A `results` entry that is missing or `null` raises out of `update_dbt_test_result` (339), and so
  out of `create_dbt_test_cases`.
- A missing `database` or `schema` key gives no "default". The subscript raises and the node is skipped.
- A test with a dependency that is missing from the manifest yields no test case at all. This is
  because `generate_entity_link` raises on `None.get`.
- No suite or definition is requested twice only because the caller stores each request before the
  generator resumes, so the next lookup finds it. The model makes this a parameter, `persisted`.
  `SuitesAtMostOnce` proves the property when it holds. Without it, duplicates can be yielded.

## Model

| member | source | states |
|---|---|---|
| DataModels.ColumnFacts | ingestion/src/metadata/ingestion/source/database/dbt_source.py:179-197 | a catalog column without a name aborts the column list; it is kept exactly when it has a type the parser accepts, the manifest columns are not null and it has an index; a kept column has the lower-cased name, the parsed type, length 1, the catalog index, and the manifest description (an empty one gives none) or else the catalog comment |
| DataModels.ColumnsOk | ingestion/src/metadata/ingestion/source/database/dbt_source.py:178-202 | the column list is produced exactly when no catalog column seen so far aborts it |
| DataModels.ColumnsMembers | ingestion/src/metadata/ingestion/source/database/dbt_source.py:178-202 | a produced column list holds at most one column per catalog column, and a column is in it exactly when some catalog column produces it |
| DataModels.ColumnsPrefix | ingestion/src/metadata/ingestion/source/database/dbt_source.py:181-197 | columns keep catalog order: the list after m catalog columns is a prefix of the list after n, and an abort is never undone |
| DataModels.ColumnsStop | ingestion/src/metadata/ingestion/source/database/dbt_source.py:181-183 | an abort keeps the exception of the first catalog column that aborts |
| DataModels.OrDefault | ingestion/src/metadata/ingestion/source/database/dbt_source.py:96-97 | a missing key raises; a null or empty value gives "default"; a non-empty value is kept |
| DataModels.UpstreamStepFacts | ingestion/src/metadata/ingestion/source/database/dbt_source.py:150-172 | a dependency contributes exactly when it is in the manifest, its database, schema and name keys are present and the FQN built from them ("default" for an empty database or schema) is not empty; what it contributes is that FQN |
| DataModels.UpstreamConcat | ingestion/src/metadata/ingestion/source/database/dbt_source.py:150-173 | the upstream list keeps the order of the dependencies |
| DataModels.UpstreamCount | ingestion/src/metadata/ingestion/source/database/dbt_source.py:150-173 | at most one FQN per dependency, and strictly fewer when a dependency is missing from the manifest |
| DataModels.UpstreamMembers | ingestion/src/metadata/ingestion/source/database/dbt_source.py:150-173 | an FQN is upstream exactly when some dependency produces it |
| DataModels.ResolveOwner | ingestion/src/metadata/ingestion/source/database/dbt_source.py:100-122 | no owner name gives no owner; with a non-empty user FQN the user lookup decides, otherwise with a non-empty team FQN the team lookup decides, otherwise no owner; the lookup that decides gives its reference when found, none when not found, and raises only when it fails |
| DataModels.OwnerIgnoresTeams | ingestion/src/metadata/ingestion/source/database/dbt_source.py:107-118 | when the user FQN is non-empty the team builder and team lookup do not affect the owner |
| DataModels.Routing | ingestion/src/metadata/ingestion/source/database/dbt_source.py:80-91 | a node goes to the tests exactly when its resource type is "test" and its name and catalog columns parse; a data model is never a test node and always has a catalog entry |
| DataModels.ModelFields | ingestion/src/metadata/ingestion/source/database/dbt_source.py:92-142 | a data model's FQN, raw SQL (default ""), compiled SQL (raw SQL only when the key is missing), path, description (none when empty), columns, upstream tables and owner, each in terms of the manifest and catalog node |
| DataModels.MergedSections | ingestion/src/metadata/ingestion/source/database/dbt_source.py:71-78 | the merge succeeds exactly when both sections are present; it holds every key of both with the `sources` value winning, keys in `nodes` order followed by the new `sources` keys |
| DataModels.ResolveKeepsInputs | ingestion/src/metadata/ingestion/source/database/dbt_source.py:79-145 | the loop leaves the manifest and catalog dictionaries unchanged |
| DataModels.ResolveTestKeys | ingestion/src/metadata/ingestion/source/database/dbt_source.py:79-91 | a key is among the tests exactly when it was before or a node under that key was routed to the tests |
| DataModels.ResolveTestValues | ingestion/src/metadata/ingestion/source/database/dbt_source.py:89-90 | a node routed to the tests is stored unchanged under its own key |
| DataModels.ResolveModelKeys | ingestion/src/metadata/ingestion/source/database/dbt_source.py:134-142 | an FQN is among the data models exactly when it was before or some node produced a data model under it |
| DataModels.ResolveTestOrder | ingestion/src/metadata/ingestion/source/database/dbt_source.py:79-91 | the keys of the tests are the old keys with each key routed to the tests appended, in manifest order, unless already present |
| DataModels.RoutedTestKeysDistinct | ingestion/src/metadata/ingestion/source/database/dbt_source.py:79-91 | the keys routed to the tests are manifest keys seen so far, each at most once |
| DataModels.ResolveTestsInManifestOrder | ingestion/src/metadata/ingestion/source/database/dbt_source.py:79-91 | starting from no tests, the tests are keyed by the keys routed to them, in manifest order |
| DataModels.ParseStageTestOrder | ingestion/src/metadata/ingestion/source/database/dbt_source.py:61-145 | after the parse stage starting from no tests, the keys of the tests are the merged manifest keys of the nodes routed to the tests, in manifest order |
| DataModels.ResolveModelOrder | ingestion/src/metadata/ingestion/source/database/dbt_source.py:134-142 | the keys of the data models are the old keys followed by each produced FQN in the order it was first produced |
| DataModels.ResolveLastModel | ingestion/src/metadata/ingestion/source/database/dbt_source.py:142 | the data model under an FQN is the one of the last node that produced that FQN |
| Lineage.EdgeFor | ingestion/src/metadata/ingestion/source/database/dbt_source.py:211-230 | an edge comes out exactly when both tables are found, from the upstream table to the model's table, both of type "table" |
| Lineage.PairEdgesShape | ingestion/src/metadata/ingestion/source/database/dbt_source.py:210-236 | at most one edge per upstream table, and exactly the edges whose two lookups succeed; a failing pair does not stop later ones |
| Lineage.PairEdgesConcat | ingestion/src/metadata/ingestion/source/database/dbt_source.py:210-230 | the edges of a model follow the order of its upstream list |
| Lineage.LineageShape | ingestion/src/metadata/ingestion/source/database/dbt_source.py:209-236 | at most one edge per (data model, upstream table) pair, and an edge is emitted exactly when it is the edge of such a pair |
| DbtTests.ParameterDefinitions | ingestion/src/metadata/ingestion/source/database/dbt_source.py:399-407 | raises exactly when the test metadata name cannot be read; otherwise one optional parameter whose name and display name are that name |
| DbtTests.ParameterValues | ingestion/src/metadata/ingestion/source/database/dbt_source.py:409-417 | succeeds exactly when `test_metadata` and its `kwargs` are objects and it has a name; then one value named after the test |
| DbtTests.ParameterValuesRoundTrip | ingestion/src/metadata/ingestion/source/database/dbt_source.py:410-416 | an absent or empty `values` list gives ""; otherwise splitting the parameter value at commas gives the list back when no value contains a comma |
| DbtTests.LinkBody | ingestion/src/metadata/ingestion/source/database/dbt_source.py:433-438 | a link with the table prefix and closing `>` is rebuilt from its body |
| DbtTests.LinkRoundTrip | ingestion/src/metadata/ingestion/source/database/dbt_source.py:432-438 | a link names the table FQN, followed by `::columns::` and the column exactly when the column name is not empty |
| DbtTests.LinksShape | ingestion/src/metadata/ingestion/source/database/dbt_source.py:419-440 | the link list succeeds exactly when every dependency is in the manifest, and then holds one link per dependency, in order |
| DbtTests.LinksStop | ingestion/src/metadata/ingestion/source/database/dbt_source.py:422-423 | a dependency missing from the manifest fails the whole link list with the first failure |
| DbtTests.NamesOf | ingestion/src/metadata/ingestion/source/database/dbt_source.py:259-284 | the created suite and definition names are exactly the names of the requests yielded |
| DbtTests.PassKeepsOnce | ingestion/src/metadata/ingestion/source/database/dbt_source.py:249-284 | when yielded requests are persisted, one pass keeps every suite and definition requested at most once |
| DbtTests.SuitesAtMostOnce | ingestion/src/metadata/ingestion/source/database/dbt_source.py:249-284 | when yielded requests are persisted, no suite or definition is requested twice, however many tests share it |
| DbtTests.SuitesGrow | ingestion/src/metadata/ingestion/source/database/dbt_source.py:249-284 | the requests only grow from one pass to the next |
| DbtTests.SuitesStop | ingestion/src/metadata/ingestion/source/database/dbt_source.py:242-286 | the loop is inside one `try`: after a pass raises, nothing more is yielded |
| DbtTests.SuiteStepFacts | ingestion/src/metadata/ingestion/source/database/dbt_source.py:250-284 | a pass that does not raise yields a suite request exactly when the suite is unknown, then a definition request, for a column exactly when `column_name` is not empty, exactly when the definition is unknown |
| DbtTests.CaseForLink | ingestion/src/metadata/ingestion/source/database/dbt_source.py:301-326 | the requests for two links of one test both fail or both succeed, and differ only in the link |
| DbtTests.CasesAllOrNothing | ingestion/src/metadata/ingestion/source/database/dbt_source.py:298-330 | a test yields no case, or one case per link in order carrying that link; whether it fails is decided at the first link |
| DbtTests.CasesCount | ingestion/src/metadata/ingestion/source/database/dbt_source.py:299-330 | at most one case per link; no exception escapes exactly when every link yielded its case; when the first link's case builds there is one case per link |
| DbtTests.CasesStop | ingestion/src/metadata/ingestion/source/database/dbt_source.py:299-330 | after a case raises, the later links of that test yield nothing |
| DbtTests.NodeCasesCount | ingestion/src/metadata/ingestion/source/database/dbt_source.py:299-326 | a test whose links cannot be generated yields no case; otherwise it has one link per dependency, and it yields one case per dependency, the i-th carrying the i-th link, when the first case builds, and none when it fails |
| DbtTests.TestCasesMembers | ingestion/src/metadata/ingestion/source/database/dbt_source.py:298-330 | a case of the stage is exactly a case of one of the tests; each test has its own `try` |
| DbtTests.StatusOf | ingestion/src/metadata/ingestion/source/database/dbt_source.py:342-349 | "success" gives Success and 1, "failure" gives Failed and 0, anything else Aborted and -1 |
| DbtTests.StatusValueStrings | ingestion/src/metadata/ingestion/source/database/dbt_source.py:367-371 | the reported values are "1", "0" and "-1" |
| DbtTests.LastExecuteFacts | ingestion/src/metadata/ingestion/source/database/dbt_source.py:353-356 | the completion time is that of the last timing named "execute", and none when there is no such timing |
| DbtTests.TimestampOf | ingestion/src/metadata/ingestion/source/database/dbt_source.py:357-362 | no completion time gives no timestamp; a non-empty one raises ValueError exactly when it does not parse, and otherwise gives the epoch milliseconds of the parsed instant |
| DbtTests.SubmissionsShape | ingestion/src/metadata/ingestion/source/database/dbt_source.py:375-395 | at most one submission per dependency, in order, all of them when none raises; each names the test case FQN of its dependency's table and carries the run's result |
| DbtTests.SubmissionsStop | ingestion/src/metadata/ingestion/source/database/dbt_source.py:378-397 | after a submission raises, the later dependencies of that run result submit nothing |
| DbtTests.RunSubmissionsNone | ingestion/src/metadata/ingestion/source/database/dbt_source.py:340-376 | a run result whose processing raises, or whose unique_id is not a stored test, submits nothing |
| DbtTests.ResultsPrefix | ingestion/src/metadata/ingestion/source/database/dbt_source.py:339-397 | the submissions of earlier run results come first: later run results only append |
| DbtTests.ResultsMembers | ingestion/src/metadata/ingestion/source/database/dbt_source.py:339-397 | a submission of the stage is exactly a submission of one of the run results |
| DbtTests.FormattedResult | ingestion/src/metadata/ingestion/source/database/dbt_source.py:342-373 | a run whose last execute timing is the dbt text of an instant is reported at that instant's epoch milliseconds, with its status |
| DbtTests.NewYearResult | ingestion/src/metadata/ingestion/source/database/dbt_source.py:337-373 | a successful run completed at the first second of 2023 is reported at 1672531200000 with value "1" |
| Timestamps.ParseValid | ingestion/src/metadata/ingestion/source/database/dbt_source.py:359-361 | whatever the parse accepts is a valid date and time |
| Timestamps.ParseFormat | ingestion/src/metadata/ingestion/source/database/dbt_source.py:359-361 | parsing the canonical text of a valid timestamp gives it back |
| Timestamps.DaysBeforeYearCorrect | ingestion/src/metadata/ingestion/source/database/dbt_source.py:442-445 | the closed form for the days before a year equals the lengths of the earlier years added up |
| Timestamps.DaysBeforeMonthCorrect | ingestion/src/metadata/ingestion/source/database/dbt_source.py:442-445 | the month table equals the lengths of the earlier months added up |
| Timestamps.OrdinalNextDate | ingestion/src/metadata/ingestion/source/database/dbt_source.py:442-445 | consecutive dates have consecutive day numbers |
| Timestamps.UnixTimeMillisExact | ingestion/src/metadata/ingestion/source/database/dbt_source.py:442-448 | the milliseconds are the microseconds since the epoch divided by 1000, rounded toward zero |
| Timestamps.NewYearMillis | ingestion/src/metadata/ingestion/source/database/dbt_source.py:442-448 | 2023-01-01T00:00:00 UTC is 1672531200000 milliseconds after the epoch |
| OrderedDicts.Put | ingestion/src/metadata/ingestion/source/database/dbt_source.py:90 | assigning a key maps it to the new value and leaves the other keys unchanged; an existing key keeps its place and a new key goes last |
| OrderedDicts.KeysAfterPutsMembers | ingestion/src/metadata/ingestion/source/database/dbt_source.py:90 | after a run of assignments the keys are exactly the old keys and the assigned ones |
| OrderedDicts.KeysAfterPutsFresh | ingestion/src/metadata/ingestion/source/database/dbt_source.py:90 | assigning distinct new keys appends them in the order they were assigned |
| OrderedDicts.MergeEntries | ingestion/src/metadata/ingestion/source/database/dbt_source.py:71-78 | the merge holds every key of both dictionaries, and the second's value wins on a shared key |
| OrderedDicts.MergeKeys | ingestion/src/metadata/ingestion/source/database/dbt_source.py:71-78 | the merge's keys are the first dictionary's keys followed by the second's new keys, in order |
| OrderedDicts.PutAllEntries | ingestion/src/metadata/ingestion/source/database/dbt_source.py:71-78 | writing the first n items of b into a keeps a's keys, adds those n keys, and takes b's values for them |
| OrderedDicts.PutAllKeys | ingestion/src/metadata/ingestion/source/database/dbt_source.py:71-78 | writing items of b into a keeps a's key order and appends b's new keys in b's order |
| PyJson.LowerFacts | ingestion/src/metadata/ingestion/source/database/dbt_source.py:183 | a lower-cased name holds no upper-case ASCII letter, and lower-casing it again changes nothing |
| PyJson.SplitJoin | ingestion/src/metadata/ingestion/source/database/dbt_source.py:413 | splitting a comma-joined list gives the list back when no part holds the separator |
| DbtSource.DbtMixin.constructor | ingestion/src/metadata/ingestion/source/database/dbt_source.py:54-56 | the mixin has no initialiser of its own; the host source is taken to start it with its configuration and documents and four empty dictionaries |
| DbtSource.DbtMixin.GetDataModel | ingestion/src/metadata/ingestion/source/database/dbt_source.py:58-59 | a data model is returned exactly when the FQN is a key of the data models, and it is the stored one |
| DbtSource.DbtMixin.ParseDataModelColumns | ingestion/src/metadata/ingestion/source/database/dbt_source.py:175-202 | the loop computes the column list the column function specifies |
| DbtSource.DbtMixin.ParseDataModelUpstream | ingestion/src/metadata/ingestion/source/database/dbt_source.py:147-173 | the loop computes the upstream list the upstream function specifies |
| DbtSource.DbtMixin.ParseNode | ingestion/src/metadata/ingestion/source/database/dbt_source.py:80-142 | the body of the per-node `try` computes that node's outcome |
| DbtSource.DbtMixin.ParseDataModel | ingestion/src/metadata/ingestion/source/database/dbt_source.py:61-145 | the new dictionaries and the escaping exception are those of the parse stage applied to the old dictionaries |
| DbtSource.DbtMixin.RecordNode | ingestion/src/metadata/ingestion/source/database/dbt_source.py:79-145 | one pass stores the node under the tests or the data models, or nowhere when it raises, and changes nothing else |
| DbtSource.DbtMixin.CreateDbtLineage | ingestion/src/metadata/ingestion/source/database/dbt_source.py:204-236 | the edges yielded are the lineage of the data models |
| DbtSource.DbtMixin.CreateDbtTestsSuiteDefinition | ingestion/src/metadata/ingestion/source/database/dbt_source.py:238-286 | the requests yielded are those of the suite stage: none unless dbt is configured and both documents are present |
| DbtSource.DbtMixin.SuitePass | ingestion/src/metadata/ingestion/source/database/dbt_source.py:249-284 | one pass yields the suite request, then the definition request, of one test |
| DbtSource.DbtMixin.GenerateEntityLink | ingestion/src/metadata/ingestion/source/database/dbt_source.py:419-440 | the loop computes the entity links of a test |
| DbtSource.DbtMixin.CreateDbtTestCases | ingestion/src/metadata/ingestion/source/database/dbt_source.py:288-331 | nothing unless the stage is enabled; then the cases of every test in order, followed by what updating the results submits and lets escape |
| DbtSource.DbtMixin.TestCasesLoop | ingestion/src/metadata/ingestion/source/database/dbt_source.py:298-330 | the loop over the tests yields the cases of every test in the order of the stored tests, which `ParseStageTestOrder` shows is the manifest order of the nodes routed to the tests |
| DbtSource.DbtMixin.NodeTestCases | ingestion/src/metadata/ingestion/source/database/dbt_source.py:299-330 | the per-test `try` yields that test's cases |
| DbtSource.DbtMixin.CompletedAt | ingestion/src/metadata/ingestion/source/database/dbt_source.py:353-356 | the loop over the timings finds the completion time of the last execute timing |
| DbtSource.DbtMixin.UpdateDbtTestResult | ingestion/src/metadata/ingestion/source/database/dbt_source.py:333-397 | the submissions made and the exception that escapes are those of the results stage |
| DbtSource.DbtMixin.SubmitRunResult | ingestion/src/metadata/ingestion/source/database/dbt_source.py:340-397 | the per-result `try` makes the submissions of that run result |
| DbtSource.DbtMixin.SubmitForLinks | ingestion/src/metadata/ingestion/source/database/dbt_source.py:377-395 | the inner loop makes one submission per dependency up to the first that raises |

## Left out

- Logging, tracebacks and the warning texts: they change no result.
- pydantic validation of the records: records are plain datatypes, and a value of the wrong JSON type (a number where a string is expected) is not modelled.
- `fqn.build`, `ColumnTypeParser.get_column_type` and the metadata client are not modelled inside. They are the oracles `Env` and `Store`. The data-model and test-case FQN builders are taken to return a string for every input. A test-case FQN of `None` passed to `add_test_case_results` is not modelled.
- `Store` answers each lookup the same way for the whole of one stage. A lookup that gives different answers for two links of the same test is not modelled. `CaseForLink` and `CasesAllOrNothing` rely on this.
- Loading the three documents and the source configuration: they are constructor arguments, and a missing or empty document is `None`.
- The sink that consumes the generators: its effect on later lookups is the `persisted` parameter.
- Generator laziness and interleaving with the caller: each stage is modelled by the full sequence it yields.
- Exception identity is approximate (KeyError, TypeError, AttributeError, ValueError, a client error). Every exception is caught alike except where it escapes a stage.
- Floating point in `unix_time`: the seconds are an exact rational, and `int()` truncates toward zero. A float rounding off by one millisecond is not modelled.
- `str.lower` and `strptime` digits are restricted to ASCII.
- `Timestamps.Format` writes every year with four digits; this is the `strftime` text for years 1000–9999.
- `DbtSource.DbtMixin.constructor`: `DBTMixin` declares no `__init__`. The four dictionaries are set up by the host source, and the model takes them to start empty.
- NewYearResult: the completion time is given as the canonical text of the instant rather than as a string literal.

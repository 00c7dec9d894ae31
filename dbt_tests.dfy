/**
 * The dbt tests: the parameter lists and entity links of a test node, the test suite and
 * test definition requests, the test case requests, and the test results read from the
 * run results.
 */
module DbtTests {
  import opened Wrappers
  import opened PyJson
  import opened OrderedDicts
  import opened DbtArtifacts
  import opened Timestamps

  // ---------------------------------------------------------------------------------------------
  // Reading a test node
  // ---------------------------------------------------------------------------------------------

  const DefaultSuiteName: string := "DBT_TEST_SUITE"

  /** `dbt_test["meta"].get(k, default)`. */
  function MetaGet(test: ManifestNode, k: string, default: string): Result<string>
  {
    var meta :- SubscriptObject(test.meta, AttributeError);
    Ok(if k in meta then meta[k] else default)
  }

  /** The suite a test belongs to: `meta.test_suite_name`, "DBT_TEST_SUITE" when the key is missing. */
  function SuiteName(test: ManifestNode): Result<string>
  {
    MetaGet(test, "test_suite_name", DefaultSuiteName)
  }

  /** The suite description, read from the key `test_suite_desciption` (spelled so), "" when missing. */
  function SuiteDescription(test: ManifestNode): Result<string>
  {
    MetaGet(test, "test_suite_desciption", "")
  }

  /** `dbt_test["test_metadata"]["name"]`. */
  function TestMetadataName(test: ManifestNode): Result<Option<string>>
  {
    var metadata :- SubscriptObject(test.testMetadata, TypeError);
    Subscript(metadata.name)
  }

  /** `create_test_case_parameter_definitions(dbt_test)`: one optional parameter named after the test. */
  function ParameterDefinitions(test: ManifestNode): (r: Result<seq<ParameterDefinition>>)
    ensures r.Ok? <==> TestMetadataName(test).Ok?
    ensures r.Ok? ==>
      && |r.value| == 1
      && r.value[0].name == TestMetadataName(test).value
      && r.value[0].displayName == r.value[0].name
      && !r.value[0].required
  {
    var name :- TestMetadataName(test);
    Ok([ParameterDefinition(name, name, false)])
  }

  /** `",".join(values) if values else ""`. */
  function JoinedValues(values: Option<seq<string>>): string
  {
    if values.Some? && values.value != [] then Join(",", values.value) else ""
  }

  /**
   * `create_test_case_parameter_values(dbt_test)`: one value named after the test, holding the
   * `values` argument joined by commas.
   */
  function ParameterValues(test: ManifestNode): (r: Result<seq<ParameterValue>>)
    ensures r.Ok? ==> TestMetadataName(test).Ok? && |r.value| == 1 && r.value[0].name == TestMetadataName(test).value
    ensures r.Ok? <==>
      test.testMetadata.Val? && test.testMetadata.value.kwargs.Val? && Has(test.testMetadata.value.name)
  {
    var metadata :- SubscriptObject(test.testMetadata, TypeError);
    var kwargs :- SubscriptObject(metadata.kwargs, AttributeError);
    var values := Get(kwargs.values);
    var name :- Subscript(metadata.name);
    Ok([ParameterValue(name, JoinedValues(values))])
  }

  /**
   * The joined value gives the `values` list back when split at commas, provided the list is
   * not empty and no value holds a comma; an absent or empty list gives "".
   */
  lemma ParameterValuesRoundTrip(test: ManifestNode)
    requires ParameterValues(test).Ok?
    ensures
      var values := Get(test.testMetadata.value.kwargs.value.values);
      var joined := ParameterValues(test).value[0].value;
      && (values.None? || values.value == [] ==> joined == "")
      && (values.Some? && values.value != [] && (forall i :: 0 <= i < |values.value| ==> ',' !in values.value[i]) ==>
            Split(joined, ',') == values.value)
  {
    var values := Get(test.testMetadata.value.kwargs.value.values);
    if values.Some? && values.value != [] && (forall i :: 0 <= i < |values.value| ==> ',' !in values.value[i]) {
      SplitJoin(values.value, ',');
    }
  }

  // ---------------------------------------------------------------------------------------------
  // Entity links (`generate_entity_link`)
  // ---------------------------------------------------------------------------------------------

  const LinkPrefix: string := "<#E::table::"

  /** The entity link of a table, or of one of its columns when the column name is not empty. */
  function TableLink(tableFqn: Option<string>, columnName: Option<string>): string
  {
    if Truthy(columnName) then LinkPrefix + Str(tableFqn) + "::columns::" + columnName.value + ">"
    else LinkPrefix + Str(tableFqn) + ">"
  }

  /** What is between the prefix and the closing `>` of a link. */
  function LinkBody(link: string): (r: Option<string>)
    ensures r.Some? ==> LinkPrefix + r.value + ">" == link
  {
    if |link| > |LinkPrefix| && link[..|LinkPrefix|] == LinkPrefix && link[|link| - 1] == '>' then
      assert link == link[..|LinkPrefix|] + link[|LinkPrefix|..|link| - 1] + [link[|link| - 1]];
      Some(link[|LinkPrefix|..|link| - 1])
    else None
  }

  /** A link names the table FQN, and the column after `::columns::` exactly when there is one. */
  lemma LinkRoundTrip(tableFqn: Option<string>, columnName: Option<string>)
    ensures LinkBody(TableLink(tableFqn, columnName)) ==
      Some(Str(tableFqn) + (if Truthy(columnName) then "::columns::" + columnName.value else ""))
  {
    var link := TableLink(tableFqn, columnName);
    var body := Str(tableFqn) + (if Truthy(columnName) then "::columns::" + columnName.value else "");
    assert link == LinkPrefix + body + ">";
    assert link[..|LinkPrefix|] == LinkPrefix;
    assert link[|LinkPrefix|..|link| - 1] == body;
  }

  /** `dbt_test["depends_on"]["nodes"]`. */
  function DependencyIds(test: ManifestNode): Result<seq<string>>
  {
    var dependsOn :- SubscriptObject(test.dependsOn, TypeError);
    SubscriptObject(dependsOn.nodes, TypeError)
  }

  /**
   * One pass of the loop: the link to the dependency's table, whose FQN is built from the
   * dependency's database, schema and name as they are (no "default"); a dependency missing
   * from the manifest raises.
   */
  function LinkFor(env: Env, me: Dict<ManifestNode>, test: ManifestNode, id: string): Result<string>
  {
    if id !in me.entries then Raise(AttributeError)  // `None.get("database")`
    else
      var model := me.entries[id];
      var tableFqn := env.tableFqn(env.serviceName, Get(model.database), Get(model.schema), Get(model.name));
      Ok(TableLink(tableFqn, Get(test.columnName)))
  }

  /** The links the loop builds from the dependency ids. */
  function LinksOf(env: Env, me: Dict<ManifestNode>, test: ManifestNode, ids: seq<string>): Result<seq<string>>
  {
    if ids == [] then Ok([])
    else
      var before :- LinksOf(env, me, test, ids[..|ids| - 1]);
      var link :- LinkFor(env, me, test, ids[|ids| - 1]);
      Ok(before + [link])
  }

  /** `generate_entity_link(dbt_test)`. */
  function EntityLinks(env: Env, me: Dict<ManifestNode>, test: ManifestNode): Result<seq<string>>
  {
    var ids :- DependencyIds(test);
    LinksOf(env, me, test, ids)
  }

  /**
   * Exactly one link per dependency, in order, when every dependency is in the manifest;
   * otherwise the whole list raises.
   */
  lemma {:induction false} LinksShape(env: Env, me: Dict<ManifestNode>, test: ManifestNode, ids: seq<string>)
    ensures LinksOf(env, me, test, ids).Ok? <==> forall i :: 0 <= i < |ids| ==> ids[i] in me.entries
    ensures LinksOf(env, me, test, ids).Ok? ==>
      && |LinksOf(env, me, test, ids).value| == |ids|
      && forall i :: 0 <= i < |ids| ==> Ok(LinksOf(env, me, test, ids).value[i]) == LinkFor(env, me, test, ids[i])
  {
    if ids != [] {
      var before := ids[..|ids| - 1];
      LinksShape(env, me, test, before);
      if LinksOf(env, me, test, ids).Ok? {
        var r := LinksOf(env, me, test, ids).value;
        forall i | 0 <= i < |ids| ensures Ok(r[i]) == LinkFor(env, me, test, ids[i]) {
          if i < |ids| - 1 {
            assert before[i] == ids[i];
          }
        }
      }
      if forall i :: 0 <= i < |ids| ==> ids[i] in me.entries {
        assert forall i :: 0 <= i < |before| ==> before[i] == ids[i];
      }
    }
  }

  /** A link list that raises keeps the exception of the first dependency that raises. */
  lemma {:induction false} LinksStop(env: Env, me: Dict<ManifestNode>, test: ManifestNode, a: seq<string>, b: seq<string>)
    requires LinksOf(env, me, test, a).Raise?
    ensures LinksOf(env, me, test, a + b) == LinksOf(env, me, test, a)
  {
    if b == [] {
      assert a + b == a;
    } else {
      var b' := b[..|b| - 1];
      assert (a + b)[..|a + b| - 1] == a + b';
      LinksStop(env, me, test, a, b');
    }
  }

  // ---------------------------------------------------------------------------------------------
  // Test suites and test definitions (`create_dbt_tests_suite_definition`)
  // ---------------------------------------------------------------------------------------------

  /** A `get_by_name` whose result is only tested for truthiness. */
  function Known<T>(l: Fetched<T>): Result<bool>
  {
    match l
    case Found(_) => Ok(true)
    case NotFound => Ok(false)
    case Fails => Raise(ClientError)
  }

  /** The requests yielded so far, and the exception that ended the loop, if one did. */
  datatype SuiteState = SuiteState(requests: seq<SuiteRequest>, raised: Option<Exception>)

  /** The suites the requests create. */
  function SuiteNames(requests: seq<SuiteRequest>): set<string>
  {
    if requests == [] then {}
    else
      var last := requests[|requests| - 1];
      SuiteNames(requests[..|requests| - 1]) + (if last.CreateTestSuite? then {last.suiteName} else {})
  }

  /** The definitions the requests create. */
  function DefinitionNames(requests: seq<SuiteRequest>): set<Option<string>>
  {
    if requests == [] then {}
    else
      var last := requests[|requests| - 1];
      DefinitionNames(requests[..|requests| - 1]) + (if last.CreateTestDefinition? then {last.definitionName} else {})
  }

  lemma {:induction false} NamesOf(requests: seq<SuiteRequest>)
    ensures forall s :: s in SuiteNames(requests) <==>
      exists i :: 0 <= i < |requests| && requests[i].CreateTestSuite? && requests[i].suiteName == s
    ensures forall d :: d in DefinitionNames(requests) <==>
      exists i :: 0 <= i < |requests| && requests[i].CreateTestDefinition? && requests[i].definitionName == d
  {
    if requests != [] {
      var before := requests[..|requests| - 1];
      NamesOf(before);
      assert forall i :: 0 <= i < |before| ==> before[i] == requests[i];
    }
  }

  /**
   * Whether the server has the suite. When `persisted` holds, the caller stores each yielded
   * request before the generator resumes, so a suite yielded earlier is found.
   */
  function SuiteKnown(store: Store, persisted: bool, st: SuiteState, name: string): Result<bool>
  {
    if persisted && name in SuiteNames(st.requests) then Ok(true) else Known(store.suiteByName(name))
  }

  function DefinitionKnown(store: Store, persisted: bool, st: SuiteState, name: Option<string>): Result<bool>
  {
    if persisted && name in DefinitionNames(st.requests) then Ok(true) else Known(store.definitionByName(name))
  }

  /** The suite request one pass yields, if any. */
  function SuiteDecision(store: Store, persisted: bool, st: SuiteState, test: ManifestNode): Result<Option<SuiteRequest>>
  {
    var name :- SuiteName(test);
    var description :- SuiteDescription(test);
    var known :- SuiteKnown(store, persisted, st, name);
    Ok(if known then None else Some(CreateTestSuite(name, description)))
  }

  /** The suite half of one pass: yield a suite request when the suite does not exist. */
  function SuitePart(store: Store, persisted: bool, st: SuiteState, test: ManifestNode): SuiteState
  {
    match SuiteDecision(store, persisted, st, test)
    case Raise(e) => st.(raised := Some(e))
    case Ok(None) => st
    case Ok(Some(request)) => st.(requests := st.requests + [request])
  }

  /**
   * The definition request of a test: a column test when `column_name` is not empty, a table
   * test otherwise.
   */
  function DefinitionRequest(test: ManifestNode): Result<SuiteRequest>
  {
    var name :- Subscript(test.name);
    var description :- Subscript(test.description);
    var entityType := if Truthy(Get(test.columnName)) then ColumnEntity else TableEntity;
    var parameters :- ParameterDefinitions(test);
    Ok(CreateTestDefinition(name, description, entityType, [DbtPlatform], parameters))
  }

  /** The definition request one pass yields, if any. */
  function DefinitionDecision(store: Store, persisted: bool, st: SuiteState, test: ManifestNode): Result<Option<SuiteRequest>>
  {
    var name :- Subscript(test.name);
    var known :- DefinitionKnown(store, persisted, st, name);
    if known then Ok(None)
    else
      var request :- DefinitionRequest(test);
      Ok(Some(request))
  }

  /** The definition half of one pass: yield a definition request when the definition does not exist. */
  function DefinitionPart(store: Store, persisted: bool, st: SuiteState, test: ManifestNode): SuiteState
  {
    match DefinitionDecision(store, persisted, st, test)
    case Raise(e) => st.(raised := Some(e))
    case Ok(None) => st
    case Ok(Some(request)) => st.(requests := st.requests + [request])
  }

  /** One pass of the loop; once a pass has raised, the loop is over. */
  function SuiteStep(store: Store, persisted: bool, st: SuiteState, test: ManifestNode): SuiteState
  {
    if st.raised.Some? then st
    else
      var afterSuite := SuitePart(store, persisted, st, test);
      if afterSuite.raised.Some? then afterSuite else DefinitionPart(store, persisted, afterSuite, test)
  }

  /** The state after the loop has seen the first n tests. */
  function SuitesUpTo(store: Store, persisted: bool, tests: seq<ManifestNode>, n: nat): SuiteState
    requires n <= |tests|
  {
    if n == 0 then SuiteState([], None)
    else SuiteStep(store, persisted, SuitesUpTo(store, persisted, tests, n - 1), tests[n - 1])
  }

  /** `create_dbt_tests_suite_definition()`: nothing unless dbt is configured and both documents are non-empty. */
  function SuiteStage(store: Store, persisted: bool, enabled: bool, tests: Dict<ManifestNode>): SuiteState
  {
    if enabled then SuitesUpTo(store, persisted, Values(tests), |tests.keys|) else SuiteState([], None)
  }

  /** No suite and no definition is requested twice. */
  ghost predicate AtMostOnce(requests: seq<SuiteRequest>)
  {
    && (forall i, j :: 0 <= i < j < |requests| && requests[i].CreateTestSuite? && requests[j].CreateTestSuite? ==>
          requests[i].suiteName != requests[j].suiteName)
    && (forall i, j :: 0 <= i < j < |requests| && requests[i].CreateTestDefinition? && requests[j].CreateTestDefinition? ==>
          requests[i].definitionName != requests[j].definitionName)
  }

  /** Appending a request whose name is new keeps every name requested once. */
  lemma AppendNew(requests: seq<SuiteRequest>, r: SuiteRequest)
    requires AtMostOnce(requests)
    requires r.CreateTestSuite? ==> r.suiteName !in SuiteNames(requests)
    requires r.CreateTestDefinition? ==> r.definitionName !in DefinitionNames(requests)
    ensures AtMostOnce(requests + [r])
  {
    NamesOf(requests);
    var rs := requests + [r];
    forall i, j | 0 <= i < j < |rs| && rs[i].CreateTestSuite? && rs[j].CreateTestSuite?
      ensures rs[i].suiteName != rs[j].suiteName
    {
      if j == |requests| {
        assert requests[i].CreateTestSuite? && requests[i].suiteName == rs[i].suiteName;
      }
    }
    forall i, j | 0 <= i < j < |rs| && rs[i].CreateTestDefinition? && rs[j].CreateTestDefinition?
      ensures rs[i].definitionName != rs[j].definitionName
    {
      if j == |requests| {
        assert requests[i].CreateTestDefinition? && requests[i].definitionName == rs[i].definitionName;
      }
    }
  }

  lemma PassKeepsOnce(store: Store, st: SuiteState, test: ManifestNode)
    requires AtMostOnce(st.requests)
    ensures AtMostOnce(SuiteStep(store, true, st, test).requests)
  {
    if st.raised.None? {
      var afterSuite := SuitePart(store, true, st, test);
      if afterSuite.requests != st.requests {
        AppendNew(st.requests, SuiteDecision(store, true, st, test).value.value);
      }
      if afterSuite.raised.None? {
        var st' := DefinitionPart(store, true, afterSuite, test);
        if st'.requests != afterSuite.requests {
          AppendNew(afterSuite.requests, DefinitionDecision(store, true, afterSuite, test).value.value);
        }
      }
    }
  }

  /**
   * When the caller stores each request before the generator resumes, no suite and no
   * definition is requested twice, however many tests share them.
   */
  lemma {:induction false} SuitesAtMostOnce(store: Store, tests: seq<ManifestNode>, n: nat)
    requires n <= |tests|
    ensures AtMostOnce(SuitesUpTo(store, true, tests, n).requests)
  {
    if n > 0 {
      SuitesAtMostOnce(store, tests, n - 1);
      PassKeepsOnce(store, SuitesUpTo(store, true, tests, n - 1), tests[n - 1]);
    }
  }

  /** One pass only appends requests, and does nothing once the loop is over. */
  lemma SuiteStepGrows(store: Store, persisted: bool, st: SuiteState, test: ManifestNode)
    ensures st.requests <= SuiteStep(store, persisted, st, test).requests
    ensures st.raised.Some? ==> SuiteStep(store, persisted, st, test) == st
    ensures SuiteStep(store, persisted, st, test).raised.None? ==> st.raised.None?
  {
  }

  /** The requests only grow from one pass to the next. */
  lemma {:induction false} SuitesGrow(store: Store, persisted: bool, tests: seq<ManifestNode>, m: nat, n: nat)
    requires m <= n <= |tests|
    ensures SuitesUpTo(store, persisted, tests, m).requests <= SuitesUpTo(store, persisted, tests, n).requests
  {
    if m < n {
      SuitesGrow(store, persisted, tests, m, n - 1);
      SuiteStepGrows(store, persisted, SuitesUpTo(store, persisted, tests, n - 1), tests[n - 1]);
    }
  }

  /**
   * The whole loop sits in one `try`: after the first pass that raises nothing more is
   * yielded.
   */
  lemma {:induction false} SuitesStop(store: Store, persisted: bool, tests: seq<ManifestNode>, m: nat, n: nat)
    requires m <= n <= |tests|
    requires SuitesUpTo(store, persisted, tests, m).raised.Some?
    ensures SuitesUpTo(store, persisted, tests, n) == SuitesUpTo(store, persisted, tests, m)
  {
    if m < n {
      SuitesStop(store, persisted, tests, m, n - 1);
      SuiteStepGrows(store, persisted, SuitesUpTo(store, persisted, tests, n - 1), tests[n - 1]);
    }
  }

  /**
   * A pass that does not raise yields a suite request exactly when the suite is unknown, and a
   * definition request, for a column exactly when `column_name` is not empty, exactly when the
   * definition is unknown.
   */
  lemma SuiteStepFacts(store: Store, persisted: bool, st: SuiteState, test: ManifestNode)
    requires st.raised.None?
    requires SuiteStep(store, persisted, st, test).raised.None?
    ensures
      var st' := SuiteStep(store, persisted, st, test);
      var afterSuite := SuitePart(store, persisted, st, test);
      && SuiteName(test).Ok? && Subscript(test.name).Ok?
      && (afterSuite.requests == st.requests <==> SuiteKnown(store, persisted, st, SuiteName(test).value) == Ok(true))
      && (afterSuite.requests != st.requests ==>
            afterSuite.requests == st.requests + [CreateTestSuite(SuiteName(test).value, SuiteDescription(test).value)])
      && (st'.requests == afterSuite.requests <==>
            DefinitionKnown(store, persisted, afterSuite, Subscript(test.name).value) == Ok(true))
      && (st'.requests != afterSuite.requests ==>
            && st'.requests == afterSuite.requests + [DefinitionRequest(test).value]
            && st'.requests[|st'.requests| - 1].definitionName == Get(test.name)
            && (st'.requests[|st'.requests| - 1].entityType == ColumnEntity <==> Truthy(Get(test.columnName))))
  {
  }

  // ---------------------------------------------------------------------------------------------
  // Test cases (`create_dbt_test_cases`)
  // ---------------------------------------------------------------------------------------------

  /** `get_by_name(...).id`: finding nothing raises on `None.id`. */
  function IdOf(l: Fetched<EntityId>): Result<EntityId>
  {
    match l
    case Found(id) => Ok(id)
    case NotFound => Raise(AttributeError)
    case Fails => Raise(ClientError)
  }

  /** One pass of the inner loop: the test case request for one entity link. */
  function CaseFor(store: Store, test: ManifestNode, link: string): Result<CreateTestCase>
  {
    var suiteName :- SuiteName(test);
    var name :- Subscript(test.name);
    var description :- Subscript(test.description);
    var definitionId :- IdOf(store.definitionByName(name));
    var suiteId :- IdOf(store.suiteByName(suiteName));
    var parameters :- ParameterValues(test);
    Ok(CreateTestCase(name, description, EntityReference(definitionId, "testDefinition"), link,
                      EntityReference(suiteId, "testSuite"), parameters))
  }

  /** The cases yielded for the first n links before a pass raises, and that exception. */
  function CasesUpTo(store: Store, test: ManifestNode, links: seq<string>, n: nat): (seq<CreateTestCase>, Option<Exception>)
    requires n <= |links|
  {
    if n == 0 then ([], None)
    else
      var (before, raised) := CasesUpTo(store, test, links, n - 1);
      if raised.Some? then (before, raised)
      else
        match CaseFor(store, test, links[n - 1])
        case Raise(e) => (before, Some(e))
        case Ok(c) => (before + [c], None)
  }

  /** The test cases one test yields: links that cannot be generated yield none. */
  function NodeCases(env: Env, me: Dict<ManifestNode>, store: Store, test: ManifestNode): seq<CreateTestCase>
  {
    match EntityLinks(env, me, test)
    case Raise(_) => []
    case Ok(links) => CasesUpTo(store, test, links, |links|).0
  }

  /** The cases yielded for the first n tests; each test has its own `try`. */
  function TestCasesUpTo(env: Env, me: Dict<ManifestNode>, store: Store, tests: seq<ManifestNode>, n: nat): seq<CreateTestCase>
    requires n <= |tests|
  {
    if n == 0 then []
    else TestCasesUpTo(env, me, store, tests, n - 1) + NodeCases(env, me, store, tests[n - 1])
  }

  /** The request for a link differs from the request for another link only in the link. */
  lemma CaseForLink(store: Store, test: ManifestNode, a: string, b: string)
    ensures CaseFor(store, test, a).Ok? <==> CaseFor(store, test, b).Ok?
    ensures CaseFor(store, test, a).Ok? ==>
      CaseFor(store, test, b).value == CaseFor(store, test, a).value.(entityLink := b)
    ensures CaseFor(store, test, a).Ok? ==> CaseFor(store, test, a).value.entityLink == a
  {
  }

  /**
   * All or nothing: whatever fails in a pass fails for the first link already, so a test
   * yields either no case or one case per link, in order, carrying that link.
   */
  lemma {:induction false} CasesAllOrNothing(store: Store, test: ManifestNode, links: seq<string>, n: nat)
    requires n <= |links|
    ensures var cases := CasesUpTo(store, test, links, n).0;
      || cases == []
      || (&& |cases| == n
          && forall i :: 0 <= i < n ==> Ok(cases[i]) == CaseFor(store, test, links[i]) && cases[i].entityLink == links[i])
    ensures n > 0 && CaseFor(store, test, links[0]).Ok? ==> CasesUpTo(store, test, links, n).1.None?
    ensures n > 0 && CaseFor(store, test, links[0]).Raise? ==> CasesUpTo(store, test, links, n).0 == []
  {
    if n > 0 {
      CasesAllOrNothing(store, test, links, n - 1);
      CaseForLink(store, test, links[0], links[n - 1]);
      var (before, raised) := CasesUpTo(store, test, links, n - 1);
      if raised.None? && CaseFor(store, test, links[n - 1]).Ok? {
        CaseForLink(store, test, links[n - 1], links[n - 1]);
      }
    }
  }

  /**
   * No exception escapes exactly when every link yielded its case, and a test whose first case
   * builds yields one case per link.
   */
  lemma {:induction false} CasesCount(store: Store, test: ManifestNode, links: seq<string>, n: nat)
    requires n <= |links|
    ensures |CasesUpTo(store, test, links, n).0| <= n
    ensures CasesUpTo(store, test, links, n).1.None? <==> |CasesUpTo(store, test, links, n).0| == n
    ensures n > 0 && CaseFor(store, test, links[0]).Ok? ==> |CasesUpTo(store, test, links, n).0| == n
  {
    if n > 0 {
      CasesCount(store, test, links, n - 1);
      CasesAllOrNothing(store, test, links, n);
    }
  }

  /**
   * A test whose links can be generated and whose first case builds yields one case per
   * dependency, the i-th for the i-th dependency's link; otherwise it yields none.
   */
  lemma NodeCasesCount(env: Env, me: Dict<ManifestNode>, store: Store, test: ManifestNode)
    ensures EntityLinks(env, me, test).Raise? ==> NodeCases(env, me, store, test) == []
    ensures EntityLinks(env, me, test).Ok? ==>
      var ids := DependencyIds(test).value;
      var links := EntityLinks(env, me, test).value;
      var cases := NodeCases(env, me, store, test);
      && |links| == |ids|
      && (|ids| > 0 && CaseFor(store, test, links[0]).Raise? ==> cases == [])
      && (|ids| > 0 && CaseFor(store, test, links[0]).Ok? ==>
            && |cases| == |ids|
            && forall i :: 0 <= i < |ids| ==> Ok(cases[i]) == CaseFor(store, test, links[i]) && cases[i].entityLink == links[i])
  {
    if EntityLinks(env, me, test).Ok? {
      var ids := DependencyIds(test).value;
      var links := EntityLinks(env, me, test).value;
      LinksShape(env, me, test, ids);
      CasesAllOrNothing(store, test, links, |links|);
      CasesCount(store, test, links, |links|);
    }
  }

  /** Once a pass has raised, the later links yield nothing. */
  lemma {:induction false} CasesStop(store: Store, test: ManifestNode, links: seq<string>, m: nat, n: nat)
    requires m <= n <= |links|
    requires CasesUpTo(store, test, links, m).1.Some?
    ensures CasesUpTo(store, test, links, n) == CasesUpTo(store, test, links, m)
  {
    if m < n {
      CasesStop(store, test, links, m, n - 1);
    }
  }

  /** A case of the stage is a case of one test of it. */
  lemma {:induction false} TestCasesMembers(env: Env, me: Dict<ManifestNode>, store: Store, tests: seq<ManifestNode>, n: nat)
    requires n <= |tests|
    ensures forall c :: c in TestCasesUpTo(env, me, store, tests, n) <==>
      exists j :: 0 <= j < n && c in NodeCases(env, me, store, tests[j])
  {
    if n > 0 {
      TestCasesMembers(env, me, store, tests, n - 1);
      var before := TestCasesUpTo(env, me, store, tests, n - 1);
      var part := NodeCases(env, me, store, tests[n - 1]);
      assert TestCasesUpTo(env, me, store, tests, n) == before + part;
      forall c ensures c in before + part <==> exists j :: 0 <= j < n && c in NodeCases(env, me, store, tests[j]) {
        if c in before {
          var j :| 0 <= j < n - 1 && c in NodeCases(env, me, store, tests[j]);
          assert 0 <= j < n && c in NodeCases(env, me, store, tests[j]);
        } else if c in part {
          assert c in NodeCases(env, me, store, tests[n - 1]);
        }
        if exists j :: 0 <= j < n && c in NodeCases(env, me, store, tests[j]) {
          var j :| 0 <= j < n && c in NodeCases(env, me, store, tests[j]);
          if j < n - 1 {
            assert c in before;
          } else {
            assert c in part;
          }
        }
      }
    }
  }

  // ---------------------------------------------------------------------------------------------
  // Test results (`update_dbt_test_result`)
  // ---------------------------------------------------------------------------------------------

  /** The status of a run result and the value reported with it. */
  function StatusOf(status: Option<string>): (r: (TestCaseStatus, int))
    ensures r.0 == Success <==> status == Some("success")
    ensures r.0 == Failed <==> status == Some("failure")
    ensures r.1 == (match r.0 case Success => 1 case Failed => 0 case Aborted => -1)
  {
    if status == Some("success") then (Success, 1)
    else if status == Some("failure") then (Failed, 0)
    else (Aborted, -1)
  }

  function NatToString(n: nat): (r: string)
    ensures |r| >= 1
  {
    if n < 10 then [Digit(n)] else NatToString(n / 10) + [Digit(n % 10)]
  }

  /** `str(i)`. */
  function IntToString(i: int): string
  {
    if i < 0 then "-" + NatToString(-i) else NatToString(i)
  }

  lemma StatusValueStrings()
    ensures IntToString(StatusOf(Some("success")).1) == "1"
    ensures IntToString(StatusOf(Some("failure")).1) == "0"
    ensures forall s :: s != Some("success") && s != Some("failure") ==> IntToString(StatusOf(s).1) == "-1"
  {
    assert NatToString(1) == "1";
    assert NatToString(0) == "0";
  }

  /** The `completed_at` of the last timing entry named "execute", `None` when there is none. */
  function LastExecute(timings: seq<Timing>): Option<string>
  {
    if timings == [] then None
    else
      var last := timings[|timings| - 1];
      if GetOr(last.name, "") == Some("execute") then Get(last.completedAt) else LastExecute(timings[..|timings| - 1])
  }

  predicate IsExecute(t: Timing)
  {
    GetOr(t.name, "") == Some("execute")
  }

  /** The completion time comes from the last "execute" entry; there is none without one. */
  lemma {:induction false} LastExecuteFacts(timings: seq<Timing>)
    ensures (forall i :: 0 <= i < |timings| ==> !IsExecute(timings[i])) ==> LastExecute(timings) == None
    ensures forall i :: 0 <= i < |timings| && IsExecute(timings[i]) && (forall k :: i < k < |timings| ==> !IsExecute(timings[k])) ==>
      LastExecute(timings) == Get(timings[i].completedAt)
  {
    if timings != [] {
      var before := timings[..|timings| - 1];
      LastExecuteFacts(before);
      forall i | 0 <= i < |timings| && IsExecute(timings[i]) && (forall k :: i < k < |timings| ==> !IsExecute(timings[k]))
        ensures LastExecute(timings) == Get(timings[i].completedAt)
      {
        if i < |timings| - 1 {
          assert !IsExecute(timings[|timings| - 1]);
          assert before[i] == timings[i];
          assert forall k :: i < k < |before| ==> before[k] == timings[k];
        }
      }
      if forall i :: 0 <= i < |timings| ==> !IsExecute(timings[i]) {
        assert forall i :: 0 <= i < |before| ==> before[i] == timings[i];
      }
    }
  }

  /** The timestamp of a result: none without a completion time, epoch milliseconds otherwise. */
  function TimestampOf(completedAt: Option<string>): (r: Result<Option<int>>)
    ensures !Truthy(completedAt) ==> r == Ok(None)
    ensures Truthy(completedAt) ==> (r.Raise? <==> ParseTimestamp(completedAt.value).None?)
    ensures r.Raise? ==> r.exception == ValueError
    ensures Truthy(completedAt) && ParseTimestamp(completedAt.value).Some? ==>
      Valid(ParseTimestamp(completedAt.value).value) && r == Ok(Some(UnixTimeMillis(ParseTimestamp(completedAt.value).value)))
  {
    if !Truthy(completedAt) then Ok(None)
    else
      ParseValid(completedAt.value);
      match ParseTimestamp(completedAt.value)
      case None => Raise(ValueError)
      case Some(dt) => Ok(Some(UnixTimeMillis(dt)))
  }

  /** The test case result of one run result. */
  function ResultOf(run: RunResult): Result<TestCaseResult>
  {
    var (status, value) := StatusOf(Get(run.status));
    var timings :- SubscriptObject(run.timing, TypeError);
    var timestamp :- TimestampOf(LastExecute(timings));
    Ok(TestCaseResult(timestamp, status, [TestResultValue(Get(run.uniqueId), IntToString(value))]))
  }

  /** The submissions for the first n dependencies of a test before one raises, and that exception. */
  function SubmissionsUpTo(env: Env, me: Dict<ManifestNode>, store: Store, testNode: ManifestNode,
                           result: TestCaseResult, ids: seq<string>, n: nat): (seq<ResultSubmission>, Option<Exception>)
    requires n <= |ids|
  {
    if n == 0 then ([], None)
    else
      var (before, raised) := SubmissionsUpTo(env, me, store, testNode, result, ids, n - 1);
      if raised.Some? then (before, raised)
      else
        var id := ids[n - 1];
        if id !in me.entries then (before, Some(AttributeError))  // `None.get("database")`
        else
          var model := me.entries[id];
          match Subscript(testNode.name)
          case Raise(e) => (before, Some(e))
          case Ok(testName) =>
            var caseFqn := env.testCaseFqn(env.serviceName, Get(model.database), Get(model.schema), Get(model.name),
                                           Get(testNode.columnName), testName);
            if store.submissionFails(caseFqn, result) then (before, Some(ClientError))
            else (before + [ResultSubmission(caseFqn, result)], None)
  }

  /** The submissions one run result makes; a pass that raises keeps those already made. */
  function RunSubmissions(env: Env, me: Dict<ManifestNode>, tests: Dict<ManifestNode>, store: Store, run: RunResult): seq<ResultSubmission>
  {
    match ResultOf(run)
    case Raise(_) => []
    case Ok(result) =>
      match Subscript(run.uniqueId)
      case Raise(_) => []
      case Ok(uniqueId) =>
        var testNode := if uniqueId.Some? then Lookup(tests, uniqueId.value) else None;
        match testNode
        case None => []
        case Some(node) =>
          match DependencyIds(node)
          case Raise(_) => []
          case Ok(ids) => SubmissionsUpTo(env, me, store, node, result, ids, |ids|).0
  }

  /** The submissions for the first n run results. */
  function ResultsUpTo(env: Env, me: Dict<ManifestNode>, tests: Dict<ManifestNode>, store: Store, runs: seq<RunResult>, n: nat): seq<ResultSubmission>
    requires n <= |runs|
  {
    if n == 0 then [] else ResultsUpTo(env, me, tests, store, runs, n - 1) + RunSubmissions(env, me, tests, store, runs[n - 1])
  }

  /**
   * A run result submits nothing when its result cannot be built or its `unique_id` is not the
   * key of a stored test.
   */
  lemma RunSubmissionsNone(env: Env, me: Dict<ManifestNode>, tests: Dict<ManifestNode>, store: Store, run: RunResult)
    ensures ResultOf(run).Raise? ==> RunSubmissions(env, me, tests, store, run) == []
    ensures !(run.uniqueId.Val? && run.uniqueId.value in tests.entries) ==> RunSubmissions(env, me, tests, store, run) == []
  {
  }

  /** The submissions of the first m run results come first: later runs only append. */
  lemma {:induction false} ResultsPrefix(env: Env, me: Dict<ManifestNode>, tests: Dict<ManifestNode>, store: Store,
                                         runs: seq<RunResult>, m: nat, n: nat)
    requires m <= n <= |runs|
    ensures ResultsUpTo(env, me, tests, store, runs, m) <= ResultsUpTo(env, me, tests, store, runs, n)
  {
    if m < n {
      ResultsPrefix(env, me, tests, store, runs, m, n - 1);
    }
  }

  /** A submission of the stage is exactly a submission of one of its run results. */
  lemma {:induction false} ResultsMembers(env: Env, me: Dict<ManifestNode>, tests: Dict<ManifestNode>, store: Store,
                                          runs: seq<RunResult>, n: nat)
    requires n <= |runs|
    ensures forall s :: s in ResultsUpTo(env, me, tests, store, runs, n) <==>
      exists j :: 0 <= j < n && s in RunSubmissions(env, me, tests, store, runs[j])
  {
    if n > 0 {
      ResultsMembers(env, me, tests, store, runs, n - 1);
      var before := ResultsUpTo(env, me, tests, store, runs, n - 1);
      var part := RunSubmissions(env, me, tests, store, runs[n - 1]);
      assert ResultsUpTo(env, me, tests, store, runs, n) == before + part;
      forall s ensures s in before + part <==> exists j :: 0 <= j < n && s in RunSubmissions(env, me, tests, store, runs[j]) {
        if s in before {
          var j :| 0 <= j < n - 1 && s in RunSubmissions(env, me, tests, store, runs[j]);
          assert 0 <= j < n && s in RunSubmissions(env, me, tests, store, runs[j]);
        } else if s in part {
          assert s in RunSubmissions(env, me, tests, store, runs[n - 1]);
        }
        if exists j :: 0 <= j < n && s in RunSubmissions(env, me, tests, store, runs[j]) {
          var j :| 0 <= j < n && s in RunSubmissions(env, me, tests, store, runs[j]);
          if j < n - 1 {
            assert s in before;
          } else {
            assert s in part;
          }
        }
      }
    }
  }

  /**
   * `update_dbt_test_result()`: nothing without run results; a `results` list that is missing
   * or null raises out of the method, uncaught.
   */
  function ResultsStage(env: Env, me: Dict<ManifestNode>, tests: Dict<ManifestNode>, store: Store,
                        runResults: Option<RunResults>): (seq<ResultSubmission>, Option<Exception>)
  {
    match runResults
    case None => ([], None)
    case Some(doc) =>
      match doc.results
      case Val(runs) => (ResultsUpTo(env, me, tests, store, runs, |runs|), None)
      case _ => ([], Some(TypeError))
  }

  /**
   * The submissions for one test: one per dependency, in order, up to the first that raises,
   * each naming the test case of that dependency's table and carrying the same result.
   */
  lemma {:induction false} SubmissionsShape(env: Env, me: Dict<ManifestNode>, store: Store, testNode: ManifestNode,
                                            result: TestCaseResult, ids: seq<string>, n: nat)
    requires n <= |ids|
    ensures var (subs, raised) := SubmissionsUpTo(env, me, store, testNode, result, ids, n);
      && |subs| <= n
      && (raised.None? <==> |subs| == n)
      && (raised.None? && n > 0 ==> Has(testNode.name))
      && forall i :: 0 <= i < |subs| ==>
           && ids[i] in me.entries
           && subs[i].result == result
           && subs[i].testCaseName == env.testCaseFqn(env.serviceName, Get(me.entries[ids[i]].database),
                Get(me.entries[ids[i]].schema), Get(me.entries[ids[i]].name), Get(testNode.columnName), Get(testNode.name))
           && !store.submissionFails(subs[i].testCaseName, result)
  {
    if n > 0 {
      SubmissionsShape(env, me, store, testNode, result, ids, n - 1);
    }
  }

  /** Once a submission pass has raised, the later dependencies submit nothing. */
  lemma {:induction false} SubmissionsStop(env: Env, me: Dict<ManifestNode>, store: Store, testNode: ManifestNode,
                                           result: TestCaseResult, ids: seq<string>, m: nat, n: nat)
    requires m <= n <= |ids|
    requires SubmissionsUpTo(env, me, store, testNode, result, ids, m).1.Some?
    ensures SubmissionsUpTo(env, me, store, testNode, result, ids, n) == SubmissionsUpTo(env, me, store, testNode, result, ids, m)
  {
    if m < n {
      SubmissionsStop(env, me, store, testNode, result, ids, m, n - 1);
    }
  }

  /**
   * A run whose last "execute" timing completed at the dbt timestamp of dt is reported at the
   * epoch milliseconds of dt, with the status its own status maps to.
   */
  lemma FormattedResult(run: RunResult, dt: DateTime)
    requires Valid(dt) && run.timing.Val?
    requires LastExecute(run.timing.value) == Some(Format(dt))
    ensures ResultOf(run).Ok?
    ensures ResultOf(run).value.timestamp == Some(UnixTimeMillis(dt))
    ensures ResultOf(run).value.testCaseStatus == StatusOf(Get(run.status)).0
  {
    ParseFormat(dt);
  }

  /** A successful run that completed at the first second of 2023 is reported at 1672531200000 with the value "1". */
  lemma NewYearResult(run: RunResult)
    requires run.timing == Val([Timing(Val("execute"), Val(Format(DateTime(2023, 1, 1, 0, 0, 0, 0))))])
    requires run.status == Val("success")
    ensures ResultOf(run).Ok?
    ensures ResultOf(run).value.timestamp == Some(1672531200000)
    ensures ResultOf(run).value.testCaseStatus == Success
    ensures ResultOf(run).value.testResultValue == [TestResultValue(Get(run.uniqueId), "1")]
  {
    var dt := DateTime(2023, 1, 1, 0, 0, 0, 0);
    NewYearMillis();
    assert LastExecute(run.timing.value) == Some(Format(dt));
    FormattedResult(run, dt);
    assert NatToString(1) == "1";
  }
}

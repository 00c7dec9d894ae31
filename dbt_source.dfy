/**
 * `DBTMixin`: the part of a database source that reads the dbt artifacts. It owns the merged
 * manifest and catalog dictionaries, the data models keyed by model FQN and the test nodes
 * keyed by manifest key, and turns them into data models, lineage edges and test records.
 */
module DbtSource {
  import opened Wrappers
  import opened PyJson
  import opened OrderedDicts
  import opened DbtArtifacts
  import opened DataModels
  import opened Lineage
  import opened DbtTests

  class DbtMixin {
    /** The service name and the builders and parsers the mixin calls. */
    const env: Env
    /** Whether `source_config.dbtConfigSource` is set. */
    const configured: bool
    /** The loaded documents; `None` stands for a missing or empty one. */
    const dbtManifest: Option<Artifact<ManifestNode>>
    const dbtCatalog: Option<Artifact<CatalogNode>>
    const dbtRunResults: Option<RunResults>

    var manifestEntities: Dict<ManifestNode>
    var catalogEntities: Dict<CatalogNode>
    var dataModels: Dict<DataModel>
    var dbtTests: Dict<ManifestNode>

    function State(): Entities
      reads this
    {
      Entities(manifestEntities, catalogEntities, dataModels, dbtTests)
    }

    /** The guard of every stage but lineage: dbt configured, manifest and catalog non-empty. */
    predicate Enabled()
    {
      configured && dbtManifest.Some? && dbtCatalog.Some?
    }

    constructor(env: Env, configured: bool, dbtManifest: Option<Artifact<ManifestNode>>,
                dbtCatalog: Option<Artifact<CatalogNode>>, dbtRunResults: Option<RunResults>)
      ensures this.env == env && this.configured == configured
      ensures this.dbtManifest == dbtManifest && this.dbtCatalog == dbtCatalog && this.dbtRunResults == dbtRunResults
      ensures State() == Entities(Empty(), Empty(), Empty(), Empty())
    {
      this.env := env;
      this.configured := configured;
      this.dbtManifest := dbtManifest;
      this.dbtCatalog := dbtCatalog;
      this.dbtRunResults := dbtRunResults;
      manifestEntities := Empty();
      catalogEntities := Empty();
      dataModels := Empty();
      dbtTests := Empty();
    }

    /** `get_data_model(table_fqn)`. */
    method GetDataModel(tableFqn: string) returns (r: Option<DataModel>)
      ensures r.Some? <==> tableFqn in dataModels.entries
      ensures r.Some? ==> r.value == dataModels.entries[tableFqn]
    {
      r := Lookup(dataModels, tableFqn);
    }

    /** `_parse_data_model_columns(name, mnode, cnode)`. */
    method ParseDataModelColumns(mnode: ManifestNode, cnode: CatalogNode) returns (r: Result<seq<Column>>)
      ensures r == DataModelColumns(env, mnode, cnode)
    {
      if !cnode.columns.Val? {
        return Raise(TypeError);
      }
      var ccolumns := cnode.columns.value;
      var columns: seq<Column> := [];
      var i := 0;
      while i < |ccolumns.keys|
        invariant 0 <= i <= |ccolumns.keys|
        invariant ColumnsUpTo(env, mnode.columns, ccolumns, i) == Ok(columns)
      {
        var key := ccolumns.keys[i];
        match ParseColumn(env, mnode.columns, key, ccolumns.entries[key]) {
          case AbortColumns(e) =>
            ColumnsStop(env, mnode.columns, ccolumns, i + 1, |ccolumns.keys|);
            return Raise(e);
          case SkipColumn =>
          case KeepColumn(column) =>
            columns := columns + [column];
        }
        i := i + 1;
      }
      return Ok(columns);
    }

    /** `_parse_data_model_upstream(mnode)`. */
    method ParseDataModelUpstream(mnode: ManifestNode) returns (r: Result<seq<string>>)
      ensures r == DataModelUpstream(env, manifestEntities, mnode)
    {
      if mnode.dependsOn.Absent? {
        return Ok([]);
      }
      if mnode.dependsOn.Null? || mnode.dependsOn.value.nodes.Null? {
        return Raise(TypeError);
      }
      if mnode.dependsOn.value.nodes.Absent? {
        return Ok([]);
      }
      var ids := mnode.dependsOn.value.nodes.value;
      var upstreamNodes: seq<string> := [];
      var i := 0;
      while i < |ids|
        invariant 0 <= i <= |ids|
        invariant UpstreamOf(env, manifestEntities, ids[..i]) == upstreamNodes
      {
        assert ids[..i + 1][..i] == ids[..i];
        match UpstreamStep(env, manifestEntities, ids[i]) {
          case None =>
          case Some(parentFqn) =>
            upstreamNodes := upstreamNodes + [parentFqn];
        }
        i := i + 1;
      }
      assert ids[..i] == ids;
      return Ok(upstreamNodes);
    }

    /** The body of the `try` in the loop of `_parse_data_model`, for the node under key. */
    method ParseNode(store: Store, key: string, mnode: ManifestNode) returns (outcome: Result<Routed>)
      ensures outcome == NodeOutcome(env, store, manifestEntities, catalogEntities, key, mnode)
    {
      var name := AliasOrName(mnode);
      if name.Raise? {
        return Raise(name.exception);
      }
      var cnode := Lookup(catalogEntities, key);
      var columns: Result<seq<Column>> := Ok([]);
      if CatalogTruthy(cnode) {
        columns := ParseDataModelColumns(mnode, cnode.value);
      }
      if columns.Raise? {
        return Raise(columns.exception);
      }
      var resourceType := Subscript(mnode.resourceType);
      if resourceType.Raise? {
        return Raise(resourceType.exception);
      }
      if resourceType.value == Some("test") {
        return Ok(RoutedTest);
      }
      var upstream := ParseDataModelUpstream(mnode);
      if upstream.Raise? {
        return Raise(upstream.exception);
      }
      var database := OrDefault(mnode.database);
      if database.Raise? {
        return Raise(database.exception);
      }
      var schema := OrDefault(mnode.schema);
      if schema.Raise? {
        return Raise(schema.exception);
      }
      var rawSql := GetOr(mnode.rawSql, "");
      var description := Get(mnode.description);
      var dbtOwner := CatalogOwner(cnode);
      if dbtOwner.Raise? {
        return Raise(dbtOwner.exception);
      }
      var owner := ResolveOwner(env, store, dbtOwner.value);
      if owner.Raise? {
        return Raise(owner.exception);
      }
      var rootPath := Subscript(mnode.rootPath);
      if rootPath.Raise? {
        return Raise(rootPath.exception);
      }
      var originalFilePath := Subscript(mnode.originalFilePath);
      if originalFilePath.Raise? {
        return Raise(originalFilePath.exception);
      }
      var model := DataModel(
        Dbt, if Truthy(description) then description else None,
        Str(rootPath.value) + "/" + Str(originalFilePath.value), rawSql, CompiledSql(mnode, rawSql),
        columns.value, upstream.value, owner.value);
      var modelFqn := env.dataModelFqn(env.serviceName, database.value, schema.value, name.value);
      return Ok(RoutedModel(modelFqn, model));
    }

    /** `_parse_data_model()`: returns the exception that escapes it, if any. */
    method ParseDataModel(store: Store) returns (raised: Option<Exception>)
      modifies this
      ensures StageEnd(State(), raised) == ParseStage(env, store, configured, dbtManifest, dbtCatalog, old(State()))
    {
      if !Enabled() {
        return None;
      }
      var me := MergedSections(dbtManifest.value);
      if me.Raise? {
        return Some(me.exception);
      }
      manifestEntities := me.value;
      var ce := MergedSections(dbtCatalog.value);
      if ce.Raise? {
        return Some(ce.exception);
      }
      catalogEntities := ce.value;
      ghost var start := State();
      ghost var outs := Outcomes(env, store, me.value, ce.value);
      var keys := me.value.keys;
      var i := 0;
      while i < |keys|
        invariant manifestEntities == me.value && catalogEntities == ce.value
        invariant 0 <= i <= |keys|
        invariant State() == ResolveUpTo(start, outs, i)
      {
        RecordNode(store, keys[i]);
        i := i + 1;
      }
      return None;
    }

    /** One pass of the loop in `_parse_data_model()`: the node under key goes to the tests, to the data models, or nowhere. */
    method RecordNode(store: Store, key: string)
      requires key in manifestEntities.entries
      modifies this
      ensures manifestEntities == old(manifestEntities) && catalogEntities == old(catalogEntities)
      ensures State() == Record(old(State()), key, old(manifestEntities.entries[key]),
                                NodeOutcome(env, store, old(manifestEntities), old(catalogEntities), key, old(manifestEntities.entries[key])))
    {
      var mnode := manifestEntities.entries[key];
      var outcome := ParseNode(store, key, mnode);
      match outcome {
        case Raise(_) =>
        case Ok(RoutedTest) =>
          dbtTests := Put(dbtTests, key, mnode);
        case Ok(RoutedModel(modelFqn, model)) =>
          dataModels := Put(dataModels, modelFqn, model);
      }
    }

    /** `create_dbt_lineage()`. */
    method CreateDbtLineage(store: Store) returns (edges: seq<LineageEdge>)
      ensures edges == DbtLineage(store, dataModels)
    {
      edges := [];
      var models := Items(dataModels);
      var i := 0;
      while i < |models|
        invariant 0 <= i <= |models|
        invariant edges == LineageUpTo(store, models, i)
      {
        var (dataModelName, dataModel) := models[i];
        var upstream := dataModel.upstream;
        var j := 0;
        while j < |upstream|
          invariant 0 <= j <= |upstream|
          invariant edges == LineageUpTo(store, models, i) + PairEdges(store, dataModelName, upstream[..j])
        {
          assert upstream[..j + 1][..j] == upstream[..j];
          match EdgeFor(store, dataModelName, upstream[j]) {
            case None =>
            case Some(edge) =>
              edges := edges + [edge];
          }
          j := j + 1;
        }
        assert upstream[..j] == upstream;
        i := i + 1;
      }
    }

    /**
     * `create_dbt_tests_suite_definition()`; `persisted` says whether the caller stores each
     * yielded request before the generator resumes.
     */
    method CreateDbtTestsSuiteDefinition(store: Store, persisted: bool) returns (requests: seq<SuiteRequest>)
      ensures requests == SuiteStage(store, persisted, Enabled(), dbtTests).requests
    {
      if !Enabled() {
        return [];
      }
      var tests := Values(dbtTests);
      var n := |tests|;
      var st := SuiteState([], None);
      var i := 0;
      while i < n
        invariant 0 <= i <= n
        invariant st == SuitesUpTo(store, persisted, tests, i)
        invariant st.raised.None?
      {
        st := SuitePass(store, persisted, st, tests[i]);
        if st.raised.Some? {
          SuitesStop(store, persisted, tests, i + 1, n);
          return st.requests;
        }
        i := i + 1;
      }
      return st.requests;
    }

    /** One pass of the loop in `create_dbt_tests_suite_definition()`: the suite, then the definition. */
    static method SuitePass(store: Store, persisted: bool, st: SuiteState, dbtTest: ManifestNode) returns (st': SuiteState)
      requires st.raised.None?
      ensures st' == SuiteStep(store, persisted, st, dbtTest)
    {
      st' := SuitePart(store, persisted, st, dbtTest);
      if st'.raised.None? {
        st' := DefinitionPart(store, persisted, st', dbtTest);
      }
    }

    /** `generate_entity_link(dbt_test)`. */
    method GenerateEntityLink(dbtTest: ManifestNode) returns (r: Result<seq<string>>)
      ensures r == EntityLinks(env, manifestEntities, dbtTest)
    {
      var nodes := DependencyIds(dbtTest);
      if nodes.Raise? {
        return Raise(nodes.exception);
      }
      var ids := nodes.value;
      var entityLinkList: seq<string> := [];
      var i := 0;
      while i < |ids|
        invariant 0 <= i <= |ids|
        invariant LinksOf(env, manifestEntities, dbtTest, ids[..i]) == Ok(entityLinkList)
      {
        assert ids[..i + 1][..i] == ids[..i];
        var link := LinkFor(env, manifestEntities, dbtTest, ids[i]);
        if link.Raise? {
          LinksStop(env, manifestEntities, dbtTest, ids[..i + 1], ids[i + 1..]);
          assert ids[..i + 1] + ids[i + 1..] == ids;
          return Raise(link.exception);
        }
        entityLinkList := entityLinkList + [link.value];
        i := i + 1;
      }
      assert ids[..i] == ids;
      return Ok(entityLinkList);
    }

    /** `create_dbt_test_cases()`: the test cases, then what `update_dbt_test_result()` submits and lets out. */
    method CreateDbtTestCases(store: Store) returns (cases: seq<CreateTestCase>, submissions: seq<ResultSubmission>, raised: Option<Exception>)
      ensures !Enabled() ==> cases == [] && submissions == [] && raised == None
      ensures Enabled() ==>
        && cases == TestCasesUpTo(env, manifestEntities, store, Values(dbtTests), |dbtTests.keys|)
        && (submissions, raised) == ResultsStage(env, manifestEntities, dbtTests, store, dbtRunResults)
    {
      if !Enabled() {
        return [], [], None;
      }
      cases := TestCasesLoop(store);
      submissions, raised := UpdateDbtTestResult(store);
    }

    /** The loop of `create_dbt_test_cases()` over the dbt tests, in manifest order. */
    method TestCasesLoop(store: Store) returns (cases: seq<CreateTestCase>)
      ensures cases == TestCasesUpTo(env, manifestEntities, store, Values(dbtTests), |dbtTests.keys|)
    {
      var me := manifestEntities;
      var tests := Values(dbtTests);
      cases := [];
      var i := 0;
      while i < |tests|
        invariant 0 <= i <= |tests|
        invariant cases == TestCasesUpTo(env, me, store, tests, i)
      {
        var nodeCases := NodeTestCases(store, tests[i]);
        cases := cases + nodeCases;
        i := i + 1;
      }
    }

    /** The body of the `try` in `create_dbt_test_cases()` for one test: its cases, one per link. */
    method NodeTestCases(store: Store, dbtTest: ManifestNode) returns (nodeCases: seq<CreateTestCase>)
      ensures nodeCases == NodeCases(env, manifestEntities, store, dbtTest)
    {
      var links := GenerateEntityLink(dbtTest);
      if links.Raise? {
        return [];
      }
      var acc: (seq<CreateTestCase>, Option<Exception>) := ([], None);
      var j := 0;
      while j < |links.value| && acc.1.None?
        invariant 0 <= j <= |links.value|
        invariant acc == CasesUpTo(store, dbtTest, links.value, j)
      {
        match CaseFor(store, dbtTest, links.value[j]) {
          case Raise(e) =>
            acc := (acc.0, Some(e));
          case Ok(testCase) =>
            acc := (acc.0 + [testCase], None);
        }
        j := j + 1;
      }
      if acc.1.Some? {
        CasesStop(store, dbtTest, links.value, j, |links.value|);
      }
      return acc.0;
    }

    /** The loop over the timings of a run result: the `completed_at` of the last "execute" entry. */
    static method CompletedAt(timings: seq<Timing>) returns (completedAt: Option<string>)
      ensures completedAt == LastExecute(timings)
    {
      completedAt := None;
      var i := 0;
      while i < |timings|
        invariant 0 <= i <= |timings|
        invariant completedAt == LastExecute(timings[..i])
      {
        assert timings[..i + 1][..i] == timings[..i];
        if GetOr(timings[i].name, "") == Some("execute") {
          completedAt := Get(timings[i].completedAt);
        }
        i := i + 1;
      }
      assert timings[..i] == timings;
    }

    /** `update_dbt_test_result()`: the submissions made, and the exception that escapes, if any. */
    method UpdateDbtTestResult(store: Store) returns (submissions: seq<ResultSubmission>, raised: Option<Exception>)
      ensures (submissions, raised) == ResultsStage(env, manifestEntities, dbtTests, store, dbtRunResults)
    {
      if dbtRunResults.None? {
        return [], None;
      }
      if !dbtRunResults.value.results.Val? {
        return [], Some(TypeError);
      }
      var runs := dbtRunResults.value.results.value;
      submissions := [];
      var i := 0;
      while i < |runs|
        invariant 0 <= i <= |runs|
        invariant submissions == ResultsUpTo(env, manifestEntities, dbtTests, store, runs, i)
      {
        var made := SubmitRunResult(store, runs[i]);
        submissions := submissions + made;
        i := i + 1;
      }
      return submissions, None;
    }

    /** The body of the `try` in `update_dbt_test_result()` for one run result. */
    method SubmitRunResult(store: Store, run: RunResult) returns (made: seq<ResultSubmission>)
      ensures made == RunSubmissions(env, manifestEntities, dbtTests, store, run)
    {
      var (status, value) := StatusOf(Get(run.status));
      if !run.timing.Val? {
        return [];
      }
      var completedAt := CompletedAt(run.timing.value);
      var timestamp := TimestampOf(completedAt);
      if timestamp.Raise? {
        return [];
      }
      var result := TestCaseResult(timestamp.value, status, [TestResultValue(Get(run.uniqueId), IntToString(value))]);
      if run.uniqueId.Absent? {
        return [];
      }
      var testNode := if run.uniqueId.Null? then None else Lookup(dbtTests, run.uniqueId.value);
      if testNode.None? {
        return [];
      }
      var nodes := DependencyIds(testNode.value);
      if nodes.Raise? {
        return [];
      }
      made := SubmitForLinks(store, testNode.value, result, nodes.value);
    }

    /** The inner loop of `update_dbt_test_result()`: one submission per dependency of the test. */
    method SubmitForLinks(store: Store, testNode: ManifestNode, result: TestCaseResult, ids: seq<string>)
      returns (made: seq<ResultSubmission>)
      ensures made == SubmissionsUpTo(env, manifestEntities, store, testNode, result, ids, |ids|).0
    {
      var me := manifestEntities;
      made := [];
      var j := 0;
      while j < |ids|
        invariant 0 <= j <= |ids|
        invariant SubmissionsUpTo(env, me, store, testNode, result, ids, j) == (made, None)
      {
        var id := ids[j];
        if id !in me.entries {
          SubmissionsStop(env, me, store, testNode, result, ids, j + 1, |ids|);
          return made;
        }
        var model := me.entries[id];
        var testName := Subscript(testNode.name);
        if testName.Raise? {
          SubmissionsStop(env, me, store, testNode, result, ids, j + 1, |ids|);
          return made;
        }
        var testCaseFqn := env.testCaseFqn(env.serviceName, Get(model.database), Get(model.schema), Get(model.name),
                                           Get(testNode.columnName), testName.value);
        if store.submissionFails(testCaseFqn, result) {
          SubmissionsStop(env, me, store, testNode, result, ids, j + 1, |ids|);
          return made;
        }
        made := made + [ResultSubmission(testCaseFqn, result)];
        j := j + 1;
      }
    }
  }
}

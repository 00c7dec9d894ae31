/**
 * The dbt artifacts the ingestion reads (manifest, catalog, run results), the records it
 * produces for the metadata server, and the external collaborators it calls.
 */
module DbtArtifacts {
  import opened Wrappers
  import opened PyJson
  import opened OrderedDicts

  // ---------------------------------------------------------------------------------------------
  // Manifest
  // ---------------------------------------------------------------------------------------------

  datatype DependsOn = DependsOn(nodes: Field<seq<string>>)

  /** An entry of a node's `columns` in the manifest, keyed there by the lower-cased column name. */
  datatype ManifestColumn = ManifestColumn(description: Field<string>)

  datatype TestKwargs = TestKwargs(values: Field<seq<string>>)

  datatype TestMetadata = TestMetadata(name: Field<string>, kwargs: Field<TestKwargs>)

  /** One entry of the manifest's `nodes` or `sources`: a model, seed, snapshot, source or test. */
  datatype ManifestNode = ManifestNode(
    alias: Field<string>,
    name: Field<string>,
    resourceType: Field<string>,
    database: Field<string>,
    schema: Field<string>,
    rawSql: Field<string>,
    compiledSql: Field<string>,
    description: Field<string>,
    rootPath: Field<string>,
    originalFilePath: Field<string>,
    dependsOn: Field<DependsOn>,
    columns: Field<map<string, ManifestColumn>>,
    meta: Field<map<string, string>>,
    testMetadata: Field<TestMetadata>,
    columnName: Field<string>)

  // ---------------------------------------------------------------------------------------------
  // Catalog
  // ---------------------------------------------------------------------------------------------

  datatype CatalogColumn = CatalogColumn(
    name: Field<string>, columnType: Field<string>, index: Field<int>, comment: Field<string>)

  datatype CatalogMetadata = CatalogMetadata(owner: Field<string>)

  /**
   * One entry of the catalog's `nodes` or `sources`. `otherKeys` says whether the object holds
   * keys besides `columns` and `metadata` (`stats`, `unique_id`): only an empty object is falsy.
   */
  datatype CatalogNode = CatalogNode(
    columns: Field<Dict<CatalogColumn>>, metadata: Field<CatalogMetadata>, otherKeys: bool)

  /** `if cnode`: a dictionary is truthy when it is not empty. */
  predicate CatalogTruthy(c: Option<CatalogNode>)
  {
    c.Some? && (Has(c.value.columns) || Has(c.value.metadata) || c.value.otherKeys)
  }

  /** A loaded, non-empty manifest or catalog document. */
  datatype Artifact<N> = Artifact(nodes: Field<Dict<N>>, sources: Field<Dict<N>>)

  // ---------------------------------------------------------------------------------------------
  // Run results
  // ---------------------------------------------------------------------------------------------

  datatype Timing = Timing(name: Field<string>, completedAt: Field<string>)

  datatype RunResult = RunResult(status: Field<string>, timing: Field<seq<Timing>>, uniqueId: Field<string>)

  /** A loaded, non-empty run-results document. */
  datatype RunResults = RunResults(results: Field<seq<RunResult>>)

  // ---------------------------------------------------------------------------------------------
  // Records produced for the metadata server
  // ---------------------------------------------------------------------------------------------

  type EntityId = string

  /** A reference to an entity of the metadata server; `kind` is its `type` ("table", "user", …). */
  datatype EntityReference = EntityReference(id: EntityId, kind: string)

  /** The semantic data type `ColumnTypeParser.get_column_type` derives from a raw type string. */
  type DataType = string

  datatype Column = Column(
    name: string, description: Option<string>, dataType: DataType,
    dataLength: int, ordinalPosition: Option<int>)

  datatype ModelType = Dbt

  datatype DataModel = DataModel(
    modelType: ModelType, description: Option<string>, path: string,
    rawSql: Option<string>, sql: Option<string>, columns: seq<Column>,
    upstream: seq<string>, owner: Option<EntityReference>)

  /** The edge of an `AddLineageRequest`. */
  datatype LineageEdge = LineageEdge(fromEntity: EntityReference, toEntity: EntityReference)

  datatype EntityType = ColumnEntity | TableEntity

  datatype TestPlatform = DbtPlatform

  datatype ParameterDefinition = ParameterDefinition(name: Option<string>, displayName: Option<string>, required: bool)

  datatype ParameterValue = ParameterValue(name: Option<string>, value: string)

  /** What `create_dbt_tests_suite_definition` yields. */
  datatype SuiteRequest =
    | CreateTestSuite(suiteName: string, suiteDescription: string)
    | CreateTestDefinition(definitionName: Option<string>, definitionDescription: Option<string>, entityType: EntityType,
                           testPlatforms: seq<TestPlatform>, parameterDefinition: seq<ParameterDefinition>)

  /** What `create_dbt_test_cases` yields. */
  datatype CreateTestCase = CreateTestCase(
    name: Option<string>, description: Option<string>, testDefinition: EntityReference,
    entityLink: string, testSuite: EntityReference, parameterValues: seq<ParameterValue>)

  datatype TestCaseStatus = Success | Failed | Aborted

  datatype TestResultValue = TestResultValue(name: Option<string>, value: string)

  datatype TestCaseResult = TestCaseResult(
    timestamp: Option<int>, testCaseStatus: TestCaseStatus, testResultValue: seq<TestResultValue>)

  /** One call of `add_test_case_results`. */
  datatype ResultSubmission = ResultSubmission(testCaseName: string, result: TestCaseResult)

  // ---------------------------------------------------------------------------------------------
  // External collaborators
  // ---------------------------------------------------------------------------------------------

  /**
   * The configured service name, `fqn.build` for each entity kind, and
   * `ColumnTypeParser.get_column_type` (`None` where it raises). Their insides are not modelled.
   */
  datatype Env = Env(
    serviceName: string,
    // (service, database, schema, table)
    tableFqn: (string, Option<string>, Option<string>, Option<string>) -> Option<string>,
    // (service, database, schema, model)
    dataModelFqn: (string, string, string, Option<string>) -> string,
    userFqn: string -> Option<string>,
    teamFqn: string -> Option<string>,
    // (service, database, schema, table, column, test case)
    testCaseFqn: (string, Option<string>, Option<string>, Option<string>, Option<string>, Option<string>) -> string,
    columnType: Option<string> -> Option<DataType>)

  /** A lookup on the metadata server: the entity, no such entity, or a client call that raises. */
  datatype Fetched<+T> = Found(value: T) | NotFound | Fails

  /** The metadata server as one stage of the ingestion sees it. */
  datatype Store = Store(
    tableByName: string -> Fetched<EntityId>,
    suiteByName: string -> Fetched<EntityId>,
    definitionByName: Option<string> -> Fetched<EntityId>,
    userReference: string -> Fetched<EntityReference>,
    teamReference: string -> Fetched<EntityReference>,
    // whether `add_test_case_results` raises for this call
    submissionFails: (string, TestCaseResult) -> bool)
}

/**
 * `_parse_data_model` and its helpers: merging the manifest and catalog sections, routing test
 * nodes aside, and resolving every other node into a data model with its columns, upstream
 * tables and owner.
 */
module DataModels {
  import opened Wrappers
  import opened PyJson
  import opened OrderedDicts
  import opened DbtArtifacts

  // ---------------------------------------------------------------------------------------------
  // Columns (`_parse_data_model_columns`)
  // ---------------------------------------------------------------------------------------------

  /** What one pass of the column loop does with a catalog column. */
  datatype ColumnStep = AbortColumns(exception: Exception) | SkipColumn | KeepColumn(column: Column)

  /** `manifest_columns.get(key.lower(), {}).get("description")`, where `manifest_columns = mnode.get("columns", {})`. */
  function ManifestDescription(manifestColumns: Field<map<string, ManifestColumn>>, key: string): Result<Option<string>>
  {
    match GetOr(manifestColumns, map[])
    case None => Raise(AttributeError)
    case Some(columns) =>
      if Lower(key) in columns then Ok(Get(columns[Lower(key)].description)) else Ok(None)
  }

  /**
   * The catalog column under key: reading and lower-casing its name happens outside the
   * per-column `try`, so a missing name aborts the whole column list; every later failure only
   * skips the column.
   */
  function ParseColumn(env: Env, manifestColumns: Field<map<string, ManifestColumn>>,
                       key: string, cc: CatalogColumn): ColumnStep
  {
    match cc.name
    case Absent => AbortColumns(KeyError)
    case Null => AbortColumns(AttributeError)
    case Val(name) =>
      if cc.columnType.Absent? then SkipColumn
      else
        match env.columnType(Get(cc.columnType))
        case None => SkipColumn
        case Some(dataType) =>
          match ManifestDescription(manifestColumns, key)
          case Raise(_) => SkipColumn
          case Ok(fromManifest) =>
            var description := if fromManifest.None? then Get(cc.comment) else fromManifest;
            if cc.index.Absent? then SkipColumn
            else KeepColumn(Column(Lower(name), if Truthy(description) then description else None,
                                   dataType, 1, Get(cc.index)))
  }

  /** The column list after the loop has seen the first n catalog columns. */
  function ColumnsUpTo(env: Env, manifestColumns: Field<map<string, ManifestColumn>>,
                       columns: Dict<CatalogColumn>, n: nat): Result<seq<Column>>
    requires n <= |columns.keys|
  {
    if n == 0 then Ok([])
    else
      var before :- ColumnsUpTo(env, manifestColumns, columns, n - 1);
      var key := columns.keys[n - 1];
      match ParseColumn(env, manifestColumns, key, columns.entries[key])
      case AbortColumns(e) => Raise(e)
      case SkipColumn => Ok(before)
      case KeepColumn(c) => Ok(before + [c])
  }

  /** `_parse_data_model_columns(name, mnode, cnode)`. */
  function DataModelColumns(env: Env, mnode: ManifestNode, cnode: CatalogNode): Result<seq<Column>>
  {
    match cnode.columns
    case Val(columns) => ColumnsUpTo(env, mnode.columns, columns, |columns.keys|)
    case _ => Raise(TypeError)  // cnode.get("columns") is None and the loop iterates it
  }

  /**
   * A kept column has the catalog name lower-cased, the parsed type, data length 1 and the
   * catalog index verbatim; its description is the manifest's when the manifest has one (an
   * empty one gives none, without falling back), otherwise the catalog comment.
   */
  lemma ColumnFacts(env: Env, manifestColumns: Field<map<string, ManifestColumn>>, key: string, cc: CatalogColumn)
    ensures ParseColumn(env, manifestColumns, key, cc).AbortColumns? <==> !cc.name.Val?
    ensures ParseColumn(env, manifestColumns, key, cc).KeepColumn? <==>
      && cc.name.Val? && Has(cc.columnType) && env.columnType(Get(cc.columnType)).Some?
      && manifestColumns != Null && Has(cc.index)
    ensures ParseColumn(env, manifestColumns, key, cc).KeepColumn? ==>
      var c := ParseColumn(env, manifestColumns, key, cc).column;
      && c.name == Lower(cc.name.value)
      && Some(c.dataType) == env.columnType(Get(cc.columnType))
      && c.dataLength == 1
      && c.ordinalPosition == Get(cc.index)
      && var fromManifest := ManifestDescription(manifestColumns, key).value;
         var chosen := if fromManifest.Some? then fromManifest else Get(cc.comment);
         c.description == (if Truthy(chosen) then chosen else None)
  {
  }

  /** What the loop does with the catalog column at position j. */
  function StepAt(env: Env, manifestColumns: Field<map<string, ManifestColumn>>,
                  columns: Dict<CatalogColumn>, j: nat): ColumnStep
    requires j < |columns.keys|
  {
    ParseColumn(env, manifestColumns, columns.keys[j], columns.entries[columns.keys[j]])
  }

  /** The column list fails exactly when some catalog column seen so far aborts it. */
  lemma {:induction false} ColumnsOk(env: Env, manifestColumns: Field<map<string, ManifestColumn>>,
                                     columns: Dict<CatalogColumn>, n: nat)
    requires n <= |columns.keys|
    ensures ColumnsUpTo(env, manifestColumns, columns, n).Ok? <==>
      forall j :: 0 <= j < n ==> !StepAt(env, manifestColumns, columns, j).AbortColumns?
  {
    if n > 0 {
      ColumnsOk(env, manifestColumns, columns, n - 1);
      var r := ColumnsUpTo(env, manifestColumns, columns, n);
      var prev := ColumnsUpTo(env, manifestColumns, columns, n - 1);
      if prev.Raise? {
        var j :| 0 <= j < n - 1 && StepAt(env, manifestColumns, columns, j).AbortColumns?;
        assert r.Raise? && 0 <= j < n;
      } else if StepAt(env, manifestColumns, columns, n - 1).AbortColumns? {
        assert r.Raise?;
      } else {
        assert r.Ok?;
      }
    }
  }

  /**
   * A column list that does not fail holds at most one column per catalog column, and exactly
   * the columns the catalog columns produce.
   */
  lemma {:induction false} ColumnsMembers(env: Env, manifestColumns: Field<map<string, ManifestColumn>>,
                                          columns: Dict<CatalogColumn>, n: nat)
    requires n <= |columns.keys|
    ensures ColumnsUpTo(env, manifestColumns, columns, n).Ok? ==>
      var cs := ColumnsUpTo(env, manifestColumns, columns, n).value;
      && |cs| <= n
      && (forall c :: c in cs <==> exists j :: 0 <= j < n && StepAt(env, manifestColumns, columns, j) == KeepColumn(c))
  {
    if n > 0 {
      ColumnsMembers(env, manifestColumns, columns, n - 1);
      var r := ColumnsUpTo(env, manifestColumns, columns, n);
      var step := StepAt(env, manifestColumns, columns, n - 1);
      var prev := ColumnsUpTo(env, manifestColumns, columns, n - 1);
      if prev.Ok? && !step.AbortColumns? {
        var before := prev.value;
        assert r.value == if step.KeepColumn? then before + [step.column] else before;
        forall c ensures c in r.value <==> exists j :: 0 <= j < n && StepAt(env, manifestColumns, columns, j) == KeepColumn(c)
        {
          if c in r.value && c !in before {
            assert step == KeepColumn(c);
          }
          if exists j :: 0 <= j < n && StepAt(env, manifestColumns, columns, j) == KeepColumn(c) {
            var j :| 0 <= j < n && StepAt(env, manifestColumns, columns, j) == KeepColumn(c);
            if j < n - 1 {
              assert c in before;
            }
          }
        }
      }
    }
  }

  /**
   * Order is kept: the columns after the first m catalog columns are the start of the columns
   * after the first n, and a column list that aborts stays aborted.
   */
  lemma {:induction false} ColumnsPrefix(env: Env, manifestColumns: Field<map<string, ManifestColumn>>,
                                         columns: Dict<CatalogColumn>, m: nat, n: nat)
    requires m <= n <= |columns.keys|
    ensures ColumnsUpTo(env, manifestColumns, columns, m).Raise? ==> ColumnsUpTo(env, manifestColumns, columns, n).Raise?
    ensures ColumnsUpTo(env, manifestColumns, columns, n).Ok? ==>
      ColumnsUpTo(env, manifestColumns, columns, m).value <= ColumnsUpTo(env, manifestColumns, columns, n).value
  {
    if m < n {
      ColumnsPrefix(env, manifestColumns, columns, m, n - 1);
    }
  }

  /** A column list that aborts keeps the exception of the first column that aborts it. */
  lemma {:induction false} ColumnsStop(env: Env, manifestColumns: Field<map<string, ManifestColumn>>,
                                       columns: Dict<CatalogColumn>, m: nat, n: nat)
    requires m <= n <= |columns.keys|
    requires ColumnsUpTo(env, manifestColumns, columns, m).Raise?
    ensures ColumnsUpTo(env, manifestColumns, columns, n) == ColumnsUpTo(env, manifestColumns, columns, m)
  {
    if m < n {
      ColumnsStop(env, manifestColumns, columns, m, n - 1);
    }
  }

  // ---------------------------------------------------------------------------------------------
  // Upstream tables (`_parse_data_model_upstream`)
  // ---------------------------------------------------------------------------------------------

  /** `node[k] if node[k] else "default"`. */
  function OrDefault(f: Field<string>): (r: Result<string>)
    ensures r.Raise? <==> f.Absent?
    ensures r.Ok? ==> r.value != ""
    ensures r.Ok? && f.Val? && f.value != "" ==> r.value == f.value
    ensures r.Ok? && !Truthy(Get(f)) ==> r.value == "default"
  {
    match f
    case Absent => Raise(KeyError)
    case Null => Ok("default")
    case Val(s) => Ok(if s == "" then "default" else s)
  }

  /**
   * One pass of the loop over `depends_on.nodes`: the parent's table FQN, or nothing when the
   * pass raises (a dependency missing from the manifest, a missing key) or the FQN is empty.
   */
  function UpstreamStep(env: Env, me: Dict<ManifestNode>, id: string): Option<string>
  {
    if id !in me.entries then None
    else
      var parent := me.entries[id];
      match (OrDefault(parent.database), OrDefault(parent.schema), Subscript(parent.name))
      case (Ok(database), Ok(schema), Ok(name)) =>
        var parentFqn := env.tableFqn(env.serviceName, Some(database), Some(schema), name);
        if Truthy(parentFqn) then parentFqn else None
      case _ => None
  }

  /** The upstream list the loop builds from the dependency ids. */
  function UpstreamOf(env: Env, me: Dict<ManifestNode>, ids: seq<string>): seq<string>
  {
    if ids == [] then []
    else
      var before := UpstreamOf(env, me, ids[..|ids| - 1]);
      match UpstreamStep(env, me, ids[|ids| - 1])
      case None => before
      case Some(parentFqn) => before + [parentFqn]
  }

  /** `_parse_data_model_upstream(mnode)`. */
  function DataModelUpstream(env: Env, me: Dict<ManifestNode>, mnode: ManifestNode): Result<seq<string>>
  {
    match mnode.dependsOn
    case Absent => Ok([])
    case Null => Raise(TypeError)  // `"nodes" in None`
    case Val(dependsOn) =>
      match dependsOn.nodes
      case Absent => Ok([])
      case Null => Raise(TypeError)  // iterating None
      case Val(ids) => Ok(UpstreamOf(env, me, ids))
  }

  /**
   * A dependency contributes its parent's FQN built from the parent's `name` (not its alias),
   * with "default" for an empty database or schema; it contributes nothing when it is not in
   * the manifest or the FQN is empty.
   */
  lemma UpstreamStepFacts(env: Env, me: Dict<ManifestNode>, id: string)
    ensures id !in me.entries ==> UpstreamStep(env, me, id).None?
    ensures UpstreamStep(env, me, id).Some? <==>
      && id in me.entries
      && Has(me.entries[id].database) && Has(me.entries[id].schema) && Has(me.entries[id].name)
      && Truthy(env.tableFqn(env.serviceName, Some(OrDefault(me.entries[id].database).value),
                             Some(OrDefault(me.entries[id].schema).value), Get(me.entries[id].name)))
    ensures UpstreamStep(env, me, id).Some? ==>
      var parent := me.entries[id];
      && UpstreamStep(env, me, id).value != ""
      && UpstreamStep(env, me, id) ==
         env.tableFqn(env.serviceName, Some(OrDefault(parent.database).value),
                      Some(OrDefault(parent.schema).value), Get(parent.name))
  {
  }

  /** The loop keeps the order of the dependencies: it distributes over concatenation. */
  lemma {:induction false} UpstreamConcat(env: Env, me: Dict<ManifestNode>, a: seq<string>, b: seq<string>)
    ensures UpstreamOf(env, me, a + b) == UpstreamOf(env, me, a) + UpstreamOf(env, me, b)
  {
    if b != [] {
      var b' := b[..|b| - 1];
      assert (a + b)[..|a + b| - 1] == a + b';
      assert (a + b)[|a + b| - 1] == b[|b| - 1];
      UpstreamConcat(env, me, a, b');
    } else {
      assert a + b == a;
    }
  }

  /** At most one FQN per dependency, and strictly fewer when a dependency is missing from the manifest. */
  lemma {:induction false} UpstreamCount(env: Env, me: Dict<ManifestNode>, ids: seq<string>)
    ensures |UpstreamOf(env, me, ids)| <= |ids|
    ensures (exists i :: 0 <= i < |ids| && ids[i] !in me.entries) ==> |UpstreamOf(env, me, ids)| < |ids|
  {
    if ids != [] {
      var ids' := ids[..|ids| - 1];
      UpstreamCount(env, me, ids');
      UpstreamStepFacts(env, me, ids[|ids| - 1]);
      if exists i :: 0 <= i < |ids| && ids[i] !in me.entries {
        var i :| 0 <= i < |ids| && ids[i] !in me.entries;
        if i < |ids| - 1 {
          assert ids'[i] !in me.entries;
        }
      }
    }
  }

  /** The upstream list holds exactly the FQNs the dependencies produce. */
  lemma {:induction false} UpstreamMembers(env: Env, me: Dict<ManifestNode>, ids: seq<string>)
    ensures forall f :: f in UpstreamOf(env, me, ids) <==> exists i :: 0 <= i < |ids| && UpstreamStep(env, me, ids[i]) == Some(f)
  {
    if ids != [] {
      var ids' := ids[..|ids| - 1];
      UpstreamMembers(env, me, ids');
      var before := UpstreamOf(env, me, ids');
      var step := UpstreamStep(env, me, ids[|ids| - 1]);
      assert UpstreamOf(env, me, ids) == if step.Some? then before + [step.value] else before;
      forall f ensures f in UpstreamOf(env, me, ids) <==> exists i :: 0 <= i < |ids| && UpstreamStep(env, me, ids[i]) == Some(f)
      {
        if f in before {
          var i :| 0 <= i < |ids'| && UpstreamStep(env, me, ids'[i]) == Some(f);
          assert ids[i] == ids'[i];
          assert 0 <= i < |ids| && UpstreamStep(env, me, ids[i]) == Some(f);
        } else if f in UpstreamOf(env, me, ids) {
          assert step == Some(f);
        }
        if exists i :: 0 <= i < |ids| && UpstreamStep(env, me, ids[i]) == Some(f) {
          var i :| 0 <= i < |ids| && UpstreamStep(env, me, ids[i]) == Some(f);
          if i < |ids| - 1 {
            assert ids'[i] == ids[i];
            assert f in before;
          }
        }
      }
    }
  }

  // ---------------------------------------------------------------------------------------------
  // Owner
  // ---------------------------------------------------------------------------------------------

  /** `metadata.get_entity_reference(...)`: `None` when the server has no such entity. */
  function Reference(l: Fetched<EntityReference>): Result<Option<EntityReference>>
  {
    match l
    case Found(r) => Ok(Some(r))
    case NotFound => Ok(None)
    case Fails => Raise(ClientError)
  }

  /**
   * The owner of a data model from the catalog's `metadata.owner`: the user named `*owner*`
   * when the user FQN is not empty, otherwise the team of that name, otherwise none. The
   * lookup consulted decides: found gives that reference, not found gives none, and only a
   * failing lookup raises.
   */
  function ResolveOwner(env: Env, store: Store, dbtOwner: Option<string>): (r: Result<Option<EntityReference>>)
    ensures !Truthy(dbtOwner) ==> r == Ok(None)
    ensures r.Raise? ==> r.exception == ClientError
    ensures Truthy(dbtOwner) ==>
      var ownerName := "*" + dbtOwner.value + "*";
      var user := env.userFqn(ownerName);
      var team := env.teamFqn(ownerName);
      if Truthy(user) then
        && (r.Raise? <==> store.userReference(user.value).Fails?)
        && (r.Ok? && r.value.Some? <==> store.userReference(user.value).Found?)
        && (r.Ok? && r.value.Some? ==> r.value.value == store.userReference(user.value).value)
      else if Truthy(team) then
        && (r.Raise? <==> store.teamReference(team.value).Fails?)
        && (r.Ok? && r.value.Some? <==> store.teamReference(team.value).Found?)
        && (r.Ok? && r.value.Some? ==> r.value.value == store.teamReference(team.value).value)
      else
        r == Ok(None)
  {
    if !Truthy(dbtOwner) then Ok(None)
    else
      var ownerName := "*" + dbtOwner.value + "*";
      var user := env.userFqn(ownerName);
      if Truthy(user) then Reference(store.userReference(user.value))
      else
        var team := env.teamFqn(ownerName);
        if Truthy(team) then Reference(store.teamReference(team.value))
        else Ok(None)
  }

  /** The team is consulted only when the user FQN is empty: otherwise teams do not matter. */
  lemma OwnerIgnoresTeams(env: Env, store: Store, env': Env, store': Store, dbtOwner: Option<string>)
    requires env'.userFqn == env.userFqn && store'.userReference == store.userReference
    requires Truthy(dbtOwner) && Truthy(env.userFqn("*" + dbtOwner.value + "*"))
    ensures ResolveOwner(env', store', dbtOwner) == ResolveOwner(env, store, dbtOwner)
  {
  }

  // ---------------------------------------------------------------------------------------------
  // One manifest node (the body of the loop in `_parse_data_model`)
  // ---------------------------------------------------------------------------------------------

  /** Where a node that is parsed without raising goes. */
  datatype Routed = RoutedTest | RoutedModel(fqn: string, model: DataModel)

  /** `mnode["alias"] if "alias" in mnode.keys() else mnode["name"]`. */
  function AliasOrName(mnode: ManifestNode): Result<Option<string>>
  {
    if Has(mnode.alias) then Subscript(mnode.alias) else Subscript(mnode.name)
  }

  /** `cnode["metadata"].get("owner")`. */
  function CatalogOwner(cnode: Option<CatalogNode>): Result<Option<string>>
  {
    match cnode
    case None => Raise(TypeError)  // subscripting None
    case Some(c) =>
      var metadata :- SubscriptObject(c.metadata, AttributeError);
      Ok(Get(metadata.owner))
  }

  /** `mnode.get("compiled_sql", raw_sql)`. */
  function CompiledSql(mnode: ManifestNode, rawSql: Option<string>): Option<string>
  {
    match mnode.compiledSql
    case Absent => rawSql
    case Null => None
    case Val(s) => Some(s)
  }

  /** The columns of a node: parsed only when its catalog entry is a non-empty dictionary. */
  function NodeColumns(env: Env, mnode: ManifestNode, cnode: Option<CatalogNode>): Result<seq<Column>>
  {
    if CatalogTruthy(cnode) then DataModelColumns(env, mnode, cnode.value) else Ok([])
  }

  /**
   * One pass of the `try` in the loop of `_parse_data_model` for the manifest node under key:
   * a test node, a data model with its FQN, or the exception that skips the node.
   */
  function NodeOutcome(env: Env, store: Store, me: Dict<ManifestNode>, ce: Dict<CatalogNode>,
                       key: string, mnode: ManifestNode): Result<Routed>
  {
    var name :- AliasOrName(mnode);
    var cnode := Lookup(ce, key);
    var columns :- NodeColumns(env, mnode, cnode);
    var resourceType :- Subscript(mnode.resourceType);
    if resourceType == Some("test") then Ok(RoutedTest)
    else
      var upstream :- DataModelUpstream(env, me, mnode);
      var database :- OrDefault(mnode.database);
      var schema :- OrDefault(mnode.schema);
      var rawSql := GetOr(mnode.rawSql, "");
      var description := Get(mnode.description);
      var dbtOwner :- CatalogOwner(cnode);
      var owner :- ResolveOwner(env, store, dbtOwner);
      var rootPath :- Subscript(mnode.rootPath);
      var originalFilePath :- Subscript(mnode.originalFilePath);
      var model := DataModel(
        Dbt, if Truthy(description) then description else None,
        Str(rootPath) + "/" + Str(originalFilePath), rawSql, CompiledSql(mnode, rawSql),
        columns, upstream, owner);
      Ok(RoutedModel(env.dataModelFqn(env.serviceName, database, schema, name), model))
  }

  /**
   * Routing: a node is set aside as a test exactly when its resource type is "test" and what
   * comes before that check succeeds, which includes parsing its catalog columns; a node that
   * is not a test and has no catalog entry is always skipped.
   */
  lemma Routing(env: Env, store: Store, me: Dict<ManifestNode>, ce: Dict<CatalogNode>, key: string, mnode: ManifestNode)
    ensures NodeOutcome(env, store, me, ce, key, mnode) == Ok(RoutedTest) <==>
      && mnode.resourceType == Val("test")
      && AliasOrName(mnode).Ok?
      && NodeColumns(env, mnode, Lookup(ce, key)).Ok?
    ensures NodeOutcome(env, store, me, ce, key, mnode).Ok? && NodeOutcome(env, store, me, ce, key, mnode).value.RoutedModel? ==>
      mnode.resourceType != Val("test") && key in ce.entries
  {
  }

  /**
   * What a data model holds: the FQN from the database and schema ("default" when empty) and
   * the alias when there is one, the name otherwise; raw SQL defaulting to ""; compiled SQL
   * falling back to the raw SQL only when the key is missing; a path joining root path and
   * file path; the columns, upstream tables and owner the helpers compute.
   */
  lemma ModelFields(env: Env, store: Store, me: Dict<ManifestNode>, ce: Dict<CatalogNode>, key: string, mnode: ManifestNode)
    requires NodeOutcome(env, store, me, ce, key, mnode).Ok?
    requires NodeOutcome(env, store, me, ce, key, mnode).value.RoutedModel?
    ensures
      var r := NodeOutcome(env, store, me, ce, key, mnode).value;
      var m := r.model;
      && Has(mnode.database) && Has(mnode.schema) && Has(mnode.rootPath) && Has(mnode.originalFilePath)
      && r.fqn == env.dataModelFqn(env.serviceName, OrDefault(mnode.database).value, OrDefault(mnode.schema).value,
                                   if Has(mnode.alias) then Get(mnode.alias) else Get(mnode.name))
      && m.rawSql == (if mnode.rawSql.Absent? then Some("") else Get(mnode.rawSql))
      && m.sql == (if mnode.compiledSql.Absent? then m.rawSql else Get(mnode.compiledSql))
      && m.path == Str(Get(mnode.rootPath)) + "/" + Str(Get(mnode.originalFilePath))
      && (m.description.Some? <==> Truthy(Get(mnode.description)))
      && (m.description.Some? ==> m.description == Get(mnode.description))
      && m.columns == NodeColumns(env, mnode, Lookup(ce, key)).value
      && m.upstream == DataModelUpstream(env, me, mnode).value
      && m.owner == ResolveOwner(env, store, CatalogOwner(Lookup(ce, key)).value).value
  {
  }

  // ---------------------------------------------------------------------------------------------
  // All nodes (`_parse_data_model`)
  // ---------------------------------------------------------------------------------------------

  /** The four dictionaries of the mixin that `_parse_data_model` fills. */
  datatype Entities = Entities(
    manifestEntities: Dict<ManifestNode>, catalogEntities: Dict<CatalogNode>,
    dataModels: Dict<DataModel>, dbtTests: Dict<ManifestNode>)

  /** `{**doc["nodes"], **doc["sources"]}`: every key of either section, the `sources` value winning. */
  function MergedSections<N>(doc: Artifact<N>): (r: Result<Dict<N>>)
    ensures r.Ok? <==> doc.nodes.Val? && doc.sources.Val?
    ensures r.Ok? ==> r.value.entries == doc.nodes.value.entries + doc.sources.value.entries
    ensures r.Ok? ==> r.value.keys == doc.nodes.value.keys + Missing(doc.sources.value.keys, doc.nodes.value.entries)
  {
    var nodes :- SubscriptObject(doc.nodes, TypeError);
    var sources :- SubscriptObject(doc.sources, TypeError);
    MergeEntries(nodes, sources);
    MergeKeys(nodes, sources);
    Ok(Merge(nodes, sources))
  }

  /** What the `try` of the loop does with the dictionaries for one node's outcome. */
  function Record(st: Entities, key: string, mnode: ManifestNode, outcome: Result<Routed>): Entities
  {
    match outcome
    case Raise(_) => st
    case Ok(RoutedTest) => st.(dbtTests := Put(st.dbtTests, key, mnode))
    case Ok(RoutedModel(modelFqn, model)) => st.(dataModels := Put(st.dataModels, modelFqn, model))
  }

  /** The outcome of every node of the merged manifest, in its order. */
  function Outcomes(env: Env, store: Store, me: Dict<ManifestNode>, ce: Dict<CatalogNode>): (outs: seq<Result<Routed>>)
    ensures |outs| == |me.keys|
  {
    seq(|me.keys|, j requires 0 <= j < |me.keys| => NodeOutcome(env, store, me, ce, me.keys[j], me.entries[me.keys[j]]))
  }

  /** The dictionaries after the loop has seen the first n manifest nodes, whose outcomes are outs. */
  function ResolveUpTo(st: Entities, outs: seq<Result<Routed>>, n: nat): Entities
    requires n <= |st.manifestEntities.keys| && |outs| == |st.manifestEntities.keys|
  {
    if n == 0 then st
    else
      var key := st.manifestEntities.keys[n - 1];
      Record(ResolveUpTo(st, outs, n - 1), key, st.manifestEntities.entries[key], outs[n - 1])
  }

  /** How `_parse_data_model` ends: the dictionaries, and the exception it lets out, if any. */
  datatype StageEnd = StageEnd(state: Entities, raised: Option<Exception>)

  /**
   * `_parse_data_model`: nothing happens unless dbt is configured and both the manifest and the
   * catalog are non-empty (`None` stands for a missing or empty document); a section that is
   * missing or null escapes, after the manifest dictionary is replaced if it was the catalog's.
   */
  function ParseStage(env: Env, store: Store, configured: bool, manifest: Option<Artifact<ManifestNode>>,
                      catalog: Option<Artifact<CatalogNode>>, st: Entities): StageEnd
  {
    if !(configured && manifest.Some? && catalog.Some?) then StageEnd(st, None)
    else
      match MergedSections(manifest.value)
      case Raise(e) => StageEnd(st, Some(e))
      case Ok(me) =>
        match MergedSections(catalog.value)
        case Raise(e) => StageEnd(st.(manifestEntities := me), Some(e))
        case Ok(ce) =>
          var merged := st.(manifestEntities := me, catalogEntities := ce);
          StageEnd(ResolveUpTo(merged, Outcomes(env, store, me, ce), |me.keys|), None)
  }

  /** The loop changes only the data models and the tests. */
  lemma {:induction false} ResolveKeepsInputs(st: Entities, outs: seq<Result<Routed>>, n: nat)
    requires n <= |st.manifestEntities.keys| && |outs| == |st.manifestEntities.keys|
    ensures ResolveUpTo(st, outs, n).manifestEntities == st.manifestEntities
    ensures ResolveUpTo(st, outs, n).catalogEntities == st.catalogEntities
  {
    if n > 0 {
      ResolveKeepsInputs(st, outs, n - 1);
    }
  }

  /** Output j routes manifest node j to the tests. */
  predicate TestAt(outs: seq<Result<Routed>>, j: nat)
  {
    j < |outs| && outs[j] == Ok(RoutedTest)
  }

  /** A key is among the tests exactly when it was before or one of the nodes seen so far under that key is a test. */
  lemma {:induction false} ResolveTestKeys(st: Entities, outs: seq<Result<Routed>>, n: nat)
    requires n <= |st.manifestEntities.keys| && |outs| == |st.manifestEntities.keys|
    ensures forall key :: key in ResolveUpTo(st, outs, n).dbtTests.entries <==>
      key in st.dbtTests.entries || exists j :: 0 <= j < n && st.manifestEntities.keys[j] == key && TestAt(outs, j)
  {
    if n > 0 {
      ResolveTestKeys(st, outs, n - 1);
      var keys := st.manifestEntities.keys;
      var prev := ResolveUpTo(st, outs, n - 1).dbtTests.entries;
      var now := ResolveUpTo(st, outs, n).dbtTests.entries;
      forall k ensures k in now <==> k in st.dbtTests.entries || exists j :: 0 <= j < n && keys[j] == k && TestAt(outs, j) {
        if TestAt(outs, n - 1) {
          assert now == prev[keys[n - 1] := st.manifestEntities.entries[keys[n - 1]]];
        } else {
          assert now == prev;
        }
        if k != keys[n - 1] || !TestAt(outs, n - 1) {
          if exists j :: 0 <= j < n && keys[j] == k && TestAt(outs, j) {
            var j :| 0 <= j < n && keys[j] == k && TestAt(outs, j);
            assert j < n - 1;
          }
        }
      }
    }
  }

  /** A manifest node routed to the tests is stored there unchanged, under its own key. */
  lemma {:induction false} ResolveTestValues(st: Entities, outs: seq<Result<Routed>>, n: nat)
    requires n <= |st.manifestEntities.keys| && |outs| == |st.manifestEntities.keys|
    ensures forall j :: 0 <= j < n && TestAt(outs, j) ==>
      && st.manifestEntities.keys[j] in ResolveUpTo(st, outs, n).dbtTests.entries
      && ResolveUpTo(st, outs, n).dbtTests.entries[st.manifestEntities.keys[j]] == st.manifestEntities.entries[st.manifestEntities.keys[j]]
  {
    if n > 0 {
      ResolveTestValues(st, outs, n - 1);
      var keys := st.manifestEntities.keys;
      var prev := ResolveUpTo(st, outs, n - 1).dbtTests.entries;
      var now := ResolveUpTo(st, outs, n).dbtTests.entries;
      if TestAt(outs, n - 1) {
        assert now == prev[keys[n - 1] := st.manifestEntities.entries[keys[n - 1]]];
      } else {
        assert now == prev;
      }
      forall j | 0 <= j < n && TestAt(outs, j)
        ensures keys[j] in now && now[keys[j]] == st.manifestEntities.entries[keys[j]]
      {
        if j < n - 1 && TestAt(outs, n - 1) {
          assert keys[j] != keys[n - 1];
        }
      }
    }
  }

  /** The manifest keys among the first n whose nodes were routed to the tests, in manifest order. */
  function RoutedTestKeys(keys: seq<string>, outs: seq<Result<Routed>>, n: nat): seq<string>
    requires n <= |keys|
  {
    if n == 0 then []
    else RoutedTestKeys(keys, outs, n - 1) + (if TestAt(outs, n - 1) then [keys[n - 1]] else [])
  }

  /** One pass adds a routed node's key to the tests' keys when it is new, and leaves them otherwise. */
  lemma RecordTestKeys(st: Entities, key: string, mnode: ManifestNode, outcome: Result<Routed>)
    ensures Record(st, key, mnode, outcome).dbtTests.keys ==
      if outcome != Ok(RoutedTest) then st.dbtTests.keys
      else if key in st.dbtTests.keys then st.dbtTests.keys
      else st.dbtTests.keys + [key]
  {
  }

  /** The keys of the tests follow the manifest: each routed key goes last unless it was already there. */
  lemma {:induction false} ResolveTestOrder(st: Entities, outs: seq<Result<Routed>>, n: nat)
    requires n <= |st.manifestEntities.keys| && |outs| == |st.manifestEntities.keys|
    ensures ResolveUpTo(st, outs, n).dbtTests.keys ==
      KeysAfterPuts(st.dbtTests.keys, RoutedTestKeys(st.manifestEntities.keys, outs, n))
  {
    if n > 0 {
      ResolveTestOrder(st, outs, n - 1);
      var keys := st.manifestEntities.keys;
      var key := keys[n - 1];
      var before := RoutedTestKeys(keys, outs, n - 1);
      var prev := ResolveUpTo(st, outs, n - 1).dbtTests.keys;
      assert ResolveUpTo(st, outs, n).dbtTests.keys ==
        if !TestAt(outs, n - 1) then prev else if key in prev then prev else prev + [key]
      by {
        var mid := ResolveUpTo(st, outs, n - 1);
        assert ResolveUpTo(st, outs, n) == Record(mid, key, st.manifestEntities.entries[key], outs[n - 1]);
        RecordTestKeys(mid, key, st.manifestEntities.entries[key], outs[n - 1]);
      }
      if TestAt(outs, n - 1) {
        assert RoutedTestKeys(keys, outs, n) == before + [key];
        KeysAfterPutsSnoc(st.dbtTests.keys, before, key);
      } else {
        assert RoutedTestKeys(keys, outs, n) == before;
      }
    }
  }

  /** Each routed key is a manifest key seen so far, and no key is routed twice. */
  lemma {:induction false} RoutedTestKeysDistinct(keys: seq<string>, outs: seq<Result<Routed>>, n: nat)
    requires n <= |keys| && Distinct(keys)
    ensures forall k :: k in RoutedTestKeys(keys, outs, n) ==> k in keys[..n]
    ensures Distinct(RoutedTestKeys(keys, outs, n))
  {
    if n > 0 {
      RoutedTestKeysDistinct(keys, outs, n - 1);
      var before := RoutedTestKeys(keys, outs, n - 1);
      assert keys[..n] == keys[..n - 1] + [keys[n - 1]];
      assert keys[n - 1] !in keys[..n - 1] by {
        assert forall i :: 0 <= i < n - 1 ==> keys[..n - 1][i] == keys[i] && keys[i] != keys[n - 1];
      }
    }
  }

  /** Starting with no tests, the tests are keyed by the routed manifest keys in manifest order. */
  lemma ResolveTestsInManifestOrder(st: Entities, outs: seq<Result<Routed>>, n: nat)
    requires n <= |st.manifestEntities.keys| && |outs| == |st.manifestEntities.keys|
    requires st.dbtTests.keys == []
    ensures ResolveUpTo(st, outs, n).dbtTests.keys == RoutedTestKeys(st.manifestEntities.keys, outs, n)
  {
    ResolveTestOrder(st, outs, n);
    RoutedTestKeysDistinct(st.manifestEntities.keys, outs, n);
    KeysAfterPutsFresh([], RoutedTestKeys(st.manifestEntities.keys, outs, n));
  }

  /**
   * A parse that starts with no tests and merges both documents leaves the tests keyed by the
   * manifest keys routed to the tests, in the order of the merged manifest.
   */
  lemma ParseStageTestOrder(env: Env, store: Store, manifest: Artifact<ManifestNode>,
                            catalog: Artifact<CatalogNode>, st: Entities)
    requires st.dbtTests.keys == []
    requires MergedSections(manifest).Ok? && MergedSections(catalog).Ok?
    ensures
      var me := MergedSections(manifest).value;
      var ce := MergedSections(catalog).value;
      ParseStage(env, store, true, Some(manifest), Some(catalog), st).state.dbtTests.keys ==
        RoutedTestKeys(me.keys, Outcomes(env, store, me, ce), |me.keys|)
  {
    var me := MergedSections(manifest).value;
    var ce := MergedSections(catalog).value;
    var merged := st.(manifestEntities := me, catalogEntities := ce);
    ResolveTestsInManifestOrder(merged, Outcomes(env, store, me, ce), |me.keys|);
  }

  /** The FQNs of the data models the first n manifest nodes produced, repeats included, in manifest order. */
  function ProducedFqns(outs: seq<Result<Routed>>, n: nat): seq<string>
    requires n <= |outs|
  {
    if n == 0 then []
    else
      var out := outs[n - 1];
      ProducedFqns(outs, n - 1) + (if out.Ok? && out.value.RoutedModel? then [out.value.fqn] else [])
  }

  /** One pass adds a produced FQN to the data models' keys when it is new, and leaves them otherwise. */
  lemma RecordModelKeys(st: Entities, key: string, mnode: ManifestNode, outcome: Result<Routed>)
    ensures Record(st, key, mnode, outcome).dataModels.keys ==
      if !(outcome.Ok? && outcome.value.RoutedModel?) then st.dataModels.keys
      else if outcome.value.fqn in st.dataModels.keys then st.dataModels.keys
      else st.dataModels.keys + [outcome.value.fqn]
  {
  }

  /** The keys of the data models are the FQNs in the order they were first produced. */
  lemma {:induction false} ResolveModelOrder(st: Entities, outs: seq<Result<Routed>>, n: nat)
    requires n <= |st.manifestEntities.keys| && |outs| == |st.manifestEntities.keys|
    ensures ResolveUpTo(st, outs, n).dataModels.keys == KeysAfterPuts(st.dataModels.keys, ProducedFqns(outs, n))
  {
    if n > 0 {
      ResolveModelOrder(st, outs, n - 1);
      var key := st.manifestEntities.keys[n - 1];
      var prev := ResolveUpTo(st, outs, n - 1);
      var before := ProducedFqns(outs, n - 1);
      var out := outs[n - 1];
      assert ResolveUpTo(st, outs, n).dataModels.keys ==
        if !(out.Ok? && out.value.RoutedModel?) then prev.dataModels.keys
        else if out.value.fqn in prev.dataModels.keys then prev.dataModels.keys
        else prev.dataModels.keys + [out.value.fqn]
      by {
        assert ResolveUpTo(st, outs, n) == Record(prev, key, st.manifestEntities.entries[key], out);
        RecordModelKeys(prev, key, st.manifestEntities.entries[key], out);
      }
      if out.Ok? && out.value.RoutedModel? {
        assert ProducedFqns(outs, n) == before + [out.value.fqn];
        KeysAfterPutsSnoc(st.dataModels.keys, before, out.value.fqn);
      } else {
        assert ProducedFqns(outs, n) == before;
      }
    }
  }

  /** Output j produces a data model under the FQN f. */
  predicate ModelAt(outs: seq<Result<Routed>>, j: nat, f: string)
  {
    j < |outs| && outs[j].Ok? && outs[j].value.RoutedModel? && outs[j].value.fqn == f
  }

  /** A model FQN is among the data models exactly when it was before or some node seen so far produced a data model under it. */
  lemma {:induction false} ResolveModelKeys(st: Entities, outs: seq<Result<Routed>>, n: nat)
    requires n <= |st.manifestEntities.keys| && |outs| == |st.manifestEntities.keys|
    ensures forall f :: f in ResolveUpTo(st, outs, n).dataModels.entries <==>
      f in st.dataModels.entries || exists j :: 0 <= j < n && ModelAt(outs, j, f)
  {
    if n > 0 {
      ResolveModelKeys(st, outs, n - 1);
      var prev := ResolveUpTo(st, outs, n - 1).dataModels.entries;
      var key := st.manifestEntities.keys[n - 1];
      var now := ResolveUpTo(st, outs, n).dataModels.entries;
      forall f ensures f in now <==> f in st.dataModels.entries || exists j :: 0 <= j < n && ModelAt(outs, j, f) {
        if ModelAt(outs, n - 1, f) {
          assert now == prev[f := outs[n - 1].value.model];
        } else {
          assert f in now <==> f in prev;
          if exists j :: 0 <= j < n && ModelAt(outs, j, f) {
            var j :| 0 <= j < n && ModelAt(outs, j, f);
            assert j < n - 1;
          }
        }
      }
    }
  }

  /** The data model stored under an FQN is the one of the last node seen so far that produced it. */
  lemma {:induction false} ResolveLastModel(st: Entities, outs: seq<Result<Routed>>, n: nat, j: nat, f: string)
    requires n <= |st.manifestEntities.keys| && |outs| == |st.manifestEntities.keys|
    requires j < n && ModelAt(outs, j, f)
    requires forall i :: j < i < n ==> !ModelAt(outs, i, f)
    ensures f in ResolveUpTo(st, outs, n).dataModels.entries
    ensures ResolveUpTo(st, outs, n).dataModels.entries[f] == outs[j].value.model
  {
    var now := ResolveUpTo(st, outs, n).dataModels.entries;
    var prev := ResolveUpTo(st, outs, n - 1).dataModels.entries;
    if j == n - 1 {
      assert now == prev[f := outs[j].value.model];
    } else {
      ResolveLastModel(st, outs, n - 1, j, f);
      assert !ModelAt(outs, n - 1, f);
      assert f in now && now[f] == prev[f];
    }
  }
}

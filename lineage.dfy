/**
 * `create_dbt_lineage`: one lineage edge per (data model, upstream table) pair whose two
 * tables the metadata server knows.
 */
module Lineage {
  import opened Wrappers
  import opened OrderedDicts
  import opened DbtArtifacts

  /**
   * One pass of the inner `try`: both tables are looked up by FQN; a lookup that raises or
   * finds nothing gives no edge.
   */
  function EdgeFor(store: Store, modelFqn: string, upstream: string): (r: Option<LineageEdge>)
    ensures r.Some? <==> store.tableByName(upstream).Found? && store.tableByName(modelFqn).Found?
    ensures r.Some? ==>
      && r.value.fromEntity == EntityReference(store.tableByName(upstream).value, "table")
      && r.value.toEntity == EntityReference(store.tableByName(modelFqn).value, "table")
  {
    match (store.tableByName(upstream), store.tableByName(modelFqn))
    case (Found(fromId), Found(toId)) => Some(LineageEdge(EntityReference(fromId, "table"), EntityReference(toId, "table")))
    case _ => None
  }

  /** The edges of one data model, in the order of its upstream list. */
  function PairEdges(store: Store, modelFqn: string, upstream: seq<string>): seq<LineageEdge>
  {
    if upstream == [] then []
    else
      var before := PairEdges(store, modelFqn, upstream[..|upstream| - 1]);
      match EdgeFor(store, modelFqn, upstream[|upstream| - 1])
      case None => before
      case Some(e) => before + [e]
  }

  /** The edges after the loop has seen the first n data models, given as (model FQN, data model) items. */
  function LineageUpTo(store: Store, models: seq<(string, DataModel)>, n: nat): seq<LineageEdge>
    requires n <= |models|
  {
    if n == 0 then []
    else LineageUpTo(store, models, n - 1) + PairEdges(store, models[n - 1].0, models[n - 1].1.upstream)
  }

  /** `create_dbt_lineage()`. */
  function DbtLineage(store: Store, dataModels: Dict<DataModel>): seq<LineageEdge>
  {
    LineageUpTo(store, Items(dataModels), |dataModels.keys|)
  }

  /** The number of (data model, upstream table) pairs among the first n data models. */
  function PairCount(models: seq<(string, DataModel)>, n: nat): nat
    requires n <= |models|
  {
    if n == 0 then 0 else PairCount(models, n - 1) + |models[n - 1].1.upstream|
  }

  /**
   * The edges of one data model: at most one per upstream table, exactly those whose two
   * lookups succeed; a failing pair does not stop the later ones.
   */
  lemma {:induction false} PairEdgesShape(store: Store, modelFqn: string, upstream: seq<string>)
    ensures |PairEdges(store, modelFqn, upstream)| <= |upstream|
    ensures forall e :: e in PairEdges(store, modelFqn, upstream) <==>
      exists i :: 0 <= i < |upstream| && EdgeFor(store, modelFqn, upstream[i]) == Some(e)
  {
    if upstream != [] {
      var before := upstream[..|upstream| - 1];
      PairEdgesShape(store, modelFqn, before);
      forall e ensures e in PairEdges(store, modelFqn, upstream) <==>
        exists i :: 0 <= i < |upstream| && EdgeFor(store, modelFqn, upstream[i]) == Some(e)
      {
        if exists i :: 0 <= i < |upstream| && EdgeFor(store, modelFqn, upstream[i]) == Some(e) {
          var i :| 0 <= i < |upstream| && EdgeFor(store, modelFqn, upstream[i]) == Some(e);
          if i < |upstream| - 1 {
            assert before[i] == upstream[i];
          }
        }
        if e in PairEdges(store, modelFqn, before) {
          var i :| 0 <= i < |before| && EdgeFor(store, modelFqn, before[i]) == Some(e);
          assert upstream[i] == before[i];
        }
      }
    }
  }

  /** The edges of one data model keep the order of its upstream list. */
  lemma {:induction false} PairEdgesConcat(store: Store, modelFqn: string, a: seq<string>, b: seq<string>)
    ensures PairEdges(store, modelFqn, a + b) == PairEdges(store, modelFqn, a) + PairEdges(store, modelFqn, b)
  {
    if b == [] {
      assert a + b == a;
    } else {
      var b' := b[..|b| - 1];
      assert (a + b)[..|a + b| - 1] == a + b';
      assert (a + b)[|a + b| - 1] == b[|b| - 1];
      PairEdgesConcat(store, modelFqn, a, b');
    }
  }

  /**
   * An edge is emitted exactly when it is the edge of some data model and one of its upstream
   * tables, and there is at most one edge per such pair.
   */
  lemma {:induction false} LineageShape(store: Store, models: seq<(string, DataModel)>, n: nat)
    requires n <= |models|
    ensures |LineageUpTo(store, models, n)| <= PairCount(models, n)
    ensures forall e :: e in LineageUpTo(store, models, n) <==>
      exists j :: 0 <= j < n && e in PairEdges(store, models[j].0, models[j].1.upstream)
  {
    if n > 0 {
      LineageShape(store, models, n - 1);
      var (fqn, model) := models[n - 1];
      PairEdgesShape(store, fqn, model.upstream);
      var before := LineageUpTo(store, models, n - 1);
      var part := PairEdges(store, fqn, model.upstream);
      assert LineageUpTo(store, models, n) == before + part;
      forall e ensures e in before + part <==>
        exists j :: 0 <= j < n && e in PairEdges(store, models[j].0, models[j].1.upstream)
      {
        if e in before {
          var j :| 0 <= j < n - 1 && e in PairEdges(store, models[j].0, models[j].1.upstream);
          assert 0 <= j < n && e in PairEdges(store, models[j].0, models[j].1.upstream);
        } else if e in part {
          assert e in PairEdges(store, models[n - 1].0, models[n - 1].1.upstream);
        }
        if exists j :: 0 <= j < n && e in PairEdges(store, models[j].0, models[j].1.upstream) {
          var j :| 0 <= j < n && e in PairEdges(store, models[j].0, models[j].1.upstream);
          if j < n - 1 {
            assert e in before;
          } else {
            assert e in part;
          }
        }
      }
    }
  }
}

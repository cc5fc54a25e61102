/**
 * The dependency check of a plan (data/seam_real_producers.rs): distinct ids,
 * known dependencies, and a depth-first walk that refuses cycles.
 */
module PlanGraph {
  import opened Wrappers

  datatype Node = Node(id: string, deps: seq<string>)

  function Ids(nodes: seq<Node>): set<string> {
    set i | 0 <= i < |nodes| :: nodes[i].id
  }

  predicate DistinctIds(nodes: seq<Node>) {
    forall i, j :: 0 <= i < j < |nodes| ==> nodes[i].id != nodes[j].id
  }

  /** Dependencies name other nodes of the plan. */
  predicate DepsKnown(nodes: seq<Node>) {
    forall i :: 0 <= i < |nodes| ==> forall d :: d in nodes[i].deps ==> d != nodes[i].id && d in Ids(nodes)
  }

  ghost predicate Before(order: seq<string>, a: string, b: string) {
    exists i, j :: 0 <= i < j < |order| && order[i] == a && order[j] == b
  }

  ghost predicate NoRepeats(order: seq<string>) {
    forall i, j :: 0 <= i < j < |order| ==> order[i] != order[j]
  }

  /** An arrangement of all the ids in which every dependency precedes its dependents. */
  ghost predicate TopologicalOrder(nodes: seq<Node>, order: seq<string>) {
    && NoRepeats(order)
    && (forall x :: x in order <==> x in Ids(nodes))
    && (forall i :: 0 <= i < |nodes| ==> forall d :: d in nodes[i].deps ==> Before(order, d, nodes[i].id))
  }

  ghost predicate GraphAccepted(nodes: seq<Node>) {
    nodes != [] && DistinctIds(nodes) && DepsKnown(nodes) && exists order :: TopologicalOrder(nodes, order)
  }

  // ---------------------------------------------------------------- the lookup table

  function ById(nodes: seq<Node>): map<string, seq<string>> {
    if nodes == [] then map[]
    else ById(nodes[..|nodes| - 1])[nodes[|nodes| - 1].id := nodes[|nodes| - 1].deps]
  }

  lemma {:induction false} LookupIsExact(nodes: seq<Node>)
    requires DistinctIds(nodes)
    ensures ById(nodes).Keys == Ids(nodes)
    ensures forall i :: 0 <= i < |nodes| ==> nodes[i].id in ById(nodes) && ById(nodes)[nodes[i].id] == nodes[i].deps
  {
    if nodes != [] {
      var n := |nodes| - 1;
      LookupIsExact(nodes[..n]);
      assert nodes == nodes[..n] + [nodes[n]];
      assert Ids(nodes) == Ids(nodes[..n]) + {nodes[n].id};
    }
  }

  // ---------------------------------------------------------------- the walk

  /** The finished nodes, in the order they finished: each after all its dependencies. */
  ghost predicate Finished(byId: map<string, seq<string>>, order: seq<string>, done: set<string>) {
    && done <= byId.Keys
    && NoRepeats(order)
    && (forall x :: x in order <==> x in done)
    && (forall k :: 0 <= k < |order| ==> order[k] in byId && forall d :: d in byId[order[k]] ==> d in order[..k])
  }

  /** A numbering in which every dependency is known and smaller. */
  ghost predicate Ranks(byId: map<string, seq<string>>, rank: map<string, nat>) {
    forall x :: x in byId ==> x in rank && forall d :: d in byId[x] ==> d in byId && d in rank && rank[d] < rank[x]
  }

  /** Every node being visited lies above `id` in the numbering. */
  ghost predicate Below(rank: map<string, nat>, id: string, visiting: set<string>) {
    id in rank && forall v :: v in visiting && v in rank ==> rank[id] < rank[v]
  }

  lemma FinishOne(byId: map<string, seq<string>>, order: seq<string>, done: set<string>, id: string)
    requires Finished(byId, order, done) && id in byId && id !in done
    requires forall d :: d in byId[id] ==> d in done
    ensures Finished(byId, order + [id], done + {id})
  {
    var longer := order + [id];
    assert longer[..|order|] == order;
    forall k | 0 <= k < |longer| ensures longer[k] in byId && forall d :: d in byId[longer[k]] ==> d in longer[..k] {
      if k < |order| {
        assert longer[k] == order[k] && longer[..k] == order[..k];
      }
    }
  }

  /**
   * `visit`: on success `id` is finished, the finishing order has only grown,
   * and the visiting set is as before. It cannot fail while some numbering puts
   * `id` below everything being visited.
   */
  method Visit(id: string, byId: map<string, seq<string>>, visiting: set<string>, done: set<string>,
               ghost order: seq<string>, ghost rank: map<string, nat>)
    returns (r: Result<()>, stillVisiting: set<string>, nowDone: set<string>, ghost grown: seq<string>)
    requires Finished(byId, order, done) && visiting !! done
    ensures r.Ok? ==> stillVisiting == visiting && id in nowDone && done <= nowDone && nowDone !! visiting
    ensures r.Ok? ==> order <= grown && Finished(byId, grown, nowDone)
    ensures id in byId && Ranks(byId, rank) && Below(rank, id, visiting) ==> r.Ok?
    decreases byId.Keys - visiting
  {
    stillVisiting, nowDone, grown := visiting, done, order;
    if id in done {
      return Ok(()), visiting, done, order;
    }
    if id in visiting {
      return Err("dependency cycle"), visiting, done, order;
    }
    stillVisiting := stillVisiting + {id};
    if id !in byId {
      return Err("unit missing during graph walk"), stillVisiting, done, order;
    }
    var deps := byId[id];
    for k := 0 to |deps|
      invariant stillVisiting == visiting + {id}
      invariant done <= nowDone && nowDone !! stillVisiting
      invariant forall j :: 0 <= j < k ==> deps[j] in nowDone
      invariant order <= grown && Finished(byId, grown, nowDone)
    {
      assert deps[k] in deps;
      assert byId.Keys - stillVisiting < byId.Keys - visiting by {
        assert id in byId.Keys - visiting;
      }
      r, stillVisiting, nowDone, grown := Visit(deps[k], byId, stillVisiting, nowDone, grown, rank);
      if r.Err? {
        return;
      }
    }
    FinishOne(byId, grown, nowDone, id);
    stillVisiting := stillVisiting - {id};
    nowDone := nowDone + {id};
    grown := grown + [id];
    r := Ok(());
  }

  // ---------------------------------------------------------------- numberings and orders

  ghost function IndexOf(order: seq<string>, x: string): nat
    requires x in order
    ensures IndexOf(order, x) < |order| && order[IndexOf(order, x)] == x
  {
    if order[0] == x then 0 else 1 + IndexOf(order[1..], x)
  }

  lemma OrderRanks(nodes: seq<Node>, order: seq<string>) returns (rank: map<string, nat>)
    requires DistinctIds(nodes) && TopologicalOrder(nodes, order)
    ensures Ranks(ById(nodes), rank)
  {
    var byId := ById(nodes);
    LookupIsExact(nodes);
    rank := map x | x in byId :: IndexOf(order, x);
    forall x, d | x in byId && d in byId[x] ensures d in byId && rank[d] < rank[x] {
      var i :| 0 <= i < |nodes| && nodes[i].id == x;
      assert Before(order, d, x);
      var a, b :| 0 <= a < b < |order| && order[a] == d && order[b] == x;
      assert order[a] in order;
      assert order[IndexOf(order, d)] == order[a] && order[IndexOf(order, x)] == order[b];
    }
  }

  lemma FinishedIsTopological(nodes: seq<Node>, order: seq<string>, done: set<string>)
    requires DistinctIds(nodes) && Finished(ById(nodes), order, done) && Ids(nodes) <= done
    ensures TopologicalOrder(nodes, order)
  {
    LookupIsExact(nodes);
    forall i, d | 0 <= i < |nodes| && d in nodes[i].deps ensures Before(order, d, nodes[i].id) {
      var id := nodes[i].id;
      assert id in order;
      var k :| 0 <= k < |order| && order[k] == id;
      assert d in order[..k];
      var j :| 0 <= j < k && order[..k][j] == d;
      assert order[j] == d;
    }
  }

  // ---------------------------------------------------------------- the whole check

  /** The graph check accepts exactly the non-empty plans with a topological order. */
  method ValidateGraph(nodes: seq<Node>) returns (r: Result<()>)
    ensures r.Ok? <==> GraphAccepted(nodes)
  {
    if nodes == [] {
      return Err("expected at least 1 approved unit, got 0");
    }
    var ids: set<string> := {};
    for i := 0 to |nodes|
      invariant ids == set k | 0 <= k < i :: nodes[k].id
      invariant forall j, k :: 0 <= j < k < i ==> nodes[j].id != nodes[k].id
    {
      if nodes[i].id in ids {
        return Err("duplicate unit id");
      }
      ids := ids + {nodes[i].id};
    }
    var known := CheckDeps(nodes, ids);
    if !known {
      return Err("dependency on itself or on an unknown unit");
    }
    r := Walk(nodes);
  }

  method CheckDeps(nodes: seq<Node>, ids: set<string>) returns (known: bool)
    requires ids == Ids(nodes)
    ensures known <==> DepsKnown(nodes)
  {
    for i := 0 to |nodes|
      invariant forall k :: 0 <= k < i ==> forall d :: d in nodes[k].deps ==> d != nodes[k].id && d in ids
    {
      var deps := nodes[i].deps;
      for j := 0 to |deps|
        invariant forall k :: 0 <= k < j ==> deps[k] != nodes[i].id && deps[k] in ids
      {
        if deps[j] == nodes[i].id || deps[j] !in ids {
          assert deps[j] in nodes[i].deps;
          return false;
        }
      }
    }
    known := true;
  }

  method Walk(nodes: seq<Node>) returns (r: Result<()>)
    requires DistinctIds(nodes)
    ensures r.Ok? <==> exists order :: TopologicalOrder(nodes, order)
  {
    var byId := ById(nodes);
    LookupIsExact(nodes);
    ghost var rank: map<string, nat> := map[];
    if order :| TopologicalOrder(nodes, order) {
      rank := OrderRanks(nodes, order);
    }
    var visiting: set<string>, done: set<string> := {}, {};
    ghost var order: seq<string> := [];
    for i := 0 to |nodes|
      invariant visiting == {} && Finished(byId, order, done)
      invariant forall k :: 0 <= k < i ==> nodes[k].id in done
    {
      assert nodes[i].id in byId;
      assert Ranks(byId, rank) ==> Below(rank, nodes[i].id, visiting);
      r, visiting, done, order := Visit(nodes[i].id, byId, visiting, done, order, rank);
      if r.Err? {
        return;
      }
    }
    FinishedIsTopological(nodes, order, done);
    r := Ok(());
  }
}

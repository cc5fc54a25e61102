/**
 * Whole runs of closings (drivers/src/seam/mod.rs): closing a lane records its
 * closed ref and, when another unit waits for it, its completion gate, in one
 * event. Over every such run the allocation window never stalls.
 */
module AllocationRuns {
  import opened Wrappers
  import opened PlanGraph
  import opened WorkMap
  import opened Allocation

  /** Some unit of the plan has the criterion among its predecessors. */
  predicate WaitedOn(plan: seq<ApprovedUnit>, criterion: string) {
    exists j :: 0 <= j < |plan| && criterion in plan[j].predecessorForwardCriteria
  }

  /** `satisfied_forward_gate_refs` for the lane of a plan unit. */
  function SatisfiedGates(plan: seq<ApprovedUnit>, index: nat): set<string>
    requires index < |plan|
  {
    var criterion := Completion(plan[index].id);
    if WaitedOn(plan, criterion) then {GateRef(criterion)} else {}
  }

  /** A lane of the plan closes, or some other event records refs that close nothing. */
  datatype Event = Close(index: nat) | Other(refs: set<string>)

  predicate Allowed(plan: seq<ApprovedUnit>, e: Event) {
    match e
    case Close(i) => i < |plan|
    case Other(refs) => forall r :: r in refs ==> !("unit-closed:" <= r)
  }

  function Step(plan: seq<ApprovedUnit>, refs: set<string>, e: Event): set<string>
    requires Allowed(plan, e)
  {
    match e
    case Close(i) => refs + {ClosedRef(LaneId(i))} + SatisfiedGates(plan, i)
    case Other(more) => refs + more
  }

  ghost predicate AllAllowed(plan: seq<ApprovedUnit>, events: seq<Event>) {
    forall k :: 0 <= k < |events| ==> Allowed(plan, events[k])
  }

  function Run(plan: seq<ApprovedUnit>, events: seq<Event>): set<string>
    requires forall k :: 0 <= k < |events| ==> Allowed(plan, events[k])
  {
    if events == [] then {} else Step(plan, Run(plan, events[..|events| - 1]), events[|events| - 1])
  }

  /** Every closed unit somebody waits for has its completion gate recorded. */
  ghost predicate GatesRecorded(plan: seq<ApprovedUnit>, refs: set<string>) {
    forall i :: 0 <= i < |plan| && LaneClosed(refs, i) && WaitedOn(plan, Completion(plan[i].id)) ==>
      GateRef(Completion(plan[i].id)) in refs
  }

  lemma StepRecordsGates(plan: seq<ApprovedUnit>, refs: set<string>, e: Event)
    requires GatesRecorded(plan, refs) && Allowed(plan, e)
    ensures GatesRecorded(plan, Step(plan, refs, e))
  {
    var after := Step(plan, refs, e);
    forall i | 0 <= i < |plan| && LaneClosed(after, i) && WaitedOn(plan, Completion(plan[i].id))
      ensures GateRef(Completion(plan[i].id)) in after
    {
      if !LaneClosed(refs, i) {
        ClosedBy(plan, refs, e, i);
      }
    }
  }

  /** Only its own closing closes a lane. */
  lemma ClosedBy(plan: seq<ApprovedUnit>, refs: set<string>, e: Event, i: nat)
    requires Allowed(plan, e) && !LaneClosed(refs, i) && LaneClosed(Step(plan, refs, e), i)
    ensures e == Close(i)
  {
    var r := ClosedRef(LaneId(i));
    assert "unit-closed:" <= r;
    if e.Close? {
      var criterion := Completion(plan[e.index].id);
      assert GateRef(criterion)[0] == 'g' && r[0] == 'u';
      assert r == ClosedRef(LaneId(e.index));
      assert LaneId(i) == r[12..] && LaneId(e.index) == ClosedRef(LaneId(e.index))[12..];
      LaneIdInjective(i, e.index);
    }
  }

  lemma {:induction false} RunRecordsGates(plan: seq<ApprovedUnit>, events: seq<Event>)
    requires AllAllowed(plan, events)
    ensures GatesRecorded(plan, Run(plan, events))
    decreases |events|
  {
    if events == [] {
    } else {
      var n := |events| - 1;
      RunRecordsGates(plan, events[..n]);
      StepRecordsGates(plan, Run(plan, events[..n]), events[n]);
    }
  }

  // ---------------------------------------------------------------- no stall

  function ApprovedOf(units: seq<PlanUnit>): seq<ApprovedUnit> {
    seq(|units|, i requires 0 <= i < |units| => Approve(units[i], i))
  }

  /** The stored plan has the dependency graph of the work map it was approved from. */
  lemma ApprovalKeepsGraph(units: seq<PlanUnit>)
    ensures PlanNodes(ApprovedOf(units)) == Nodes(units)
    ensures GraphAccepted(PlanNodes(ApprovedOf(units))) <==> GraphAccepted(Nodes(units))
  {
    assert PlanNodes(ApprovedOf(units)) == Nodes(units);
  }

  /** The open unit that comes first in a topological order: all its dependencies are closed. */
  lemma FirstOpen(units: seq<PlanUnit>, refs: set<string>, order: seq<string>, someOpen: nat) returns (i: nat)
    requires TopologicalOrder(Nodes(units), order) && someOpen < |units| && !LaneClosed(refs, someOpen)
    ensures i < |units| && !LaneClosed(refs, i)
    ensures forall d :: d in units[i].dependsOn ==> ClosedId(units, refs, d)
  {
    var k := 0;
    assert Nodes(units)[someOpen].id in order;
    while k < |order| && ClosedId(units, refs, order[k])
      invariant k <= |order| && forall m :: 0 <= m < k ==> ClosedId(units, refs, order[m])
    {
      k := k + 1;
    }
    if k == |order| {
      i := someOpen;
      forall d | d in units[i].dependsOn ensures ClosedId(units, refs, d) {
        assert Before(order, d, Nodes(units)[i].id);
        var m, n :| 0 <= m < n < |order| && order[m] == d && order[n] == Nodes(units)[i].id;
      }
    } else {
      assert order[k] in order;
      var j :| 0 <= j < |Nodes(units)| && Nodes(units)[j].id == order[k];
      i := j;
      forall d | d in units[i].dependsOn ensures ClosedId(units, refs, d) {
        assert d in Nodes(units)[i].deps;
        assert Before(order, d, Nodes(units)[i].id);
        var m, n :| 0 <= m < n < |order| && order[m] == d && order[n] == order[k];
        assert n == k;
      }
    }
  }

  /** Some closed unit of the plan has the id. */
  ghost predicate ClosedId(units: seq<PlanUnit>, refs: set<string>, id: string) {
    exists i :: 0 <= i < |units| && units[i].id == id && LaneClosed(refs, i)
  }

  lemma ReleasedUnit(units: seq<PlanUnit>, refs: set<string>, i: nat)
    requires i < |units| && GatesRecorded(ApprovedOf(units), refs)
    requires forall d :: d in units[i].dependsOn ==> ClosedId(units, refs, d)
    ensures !Blocked(refs, ApprovedOf(units)[i])
  {
    var plan := ApprovedOf(units);
    forall k | 0 <= k < |plan[i].predecessorForwardCriteria|
      ensures GateRef(plan[i].predecessorForwardCriteria[k]) in refs
    {
      var d := units[i].dependsOn[k];
      assert d in units[i].dependsOn;
      var j :| 0 <= j < |units| && units[j].id == d && LaneClosed(refs, j);
      assert plan[j].id == d && plan[i].predecessorForwardCriteria[k] == Completion(d);
      assert WaitedOn(plan, Completion(plan[j].id));
    }
  }

  /** If an open candidate is unblocked, the first of the window is live or unblocked. */
  lemma BestFirst(plan: seq<ApprovedUnit>, refs: set<string>, live: string -> Result<bool>, i: nat)
    requires i < |plan| && !LaneClosed(refs, i) && !Blocked(refs, plan[i])
    ensures Window(plan, refs, live) != []
    ensures Window(plan, refs, live)[0].live || !Window(plan, refs, live)[0].blocked
  {
    var c := CandidateAt(plan, refs, live, i);
    var candidates := Open(plan, refs, live, |plan|);
    OpenHolds(plan, refs, live, |plan|, i);
    var sorted := WindowIsPrefix(plan, refs, live);
    assert c in multiset(sorted);
    var k :| 0 <= k < |sorted| && sorted[k] == c;
    assert k > 0 ==> !Earlier(sorted[k], sorted[0]);
  }

  /**
   * Over every run of closings of a plan with an accepted graph: while a unit is
   * open, the window is not empty and starts with a live or unblocked unit.
   */
  lemma NeverStalls(units: seq<PlanUnit>, events: seq<Event>, live: string -> Result<bool>, someOpen: nat)
    requires GraphAccepted(Nodes(units)) && AllAllowed(ApprovedOf(units), events)
    requires someOpen < |units| && !LaneClosed(Run(ApprovedOf(units), events), someOpen)
    ensures var w := Window(ApprovedOf(units), Run(ApprovedOf(units), events), live);
            w != [] && (w[0].live || !w[0].blocked)
  {
    var plan := ApprovedOf(units);
    var refs := Run(plan, events);
    RunRecordsGates(plan, events);
    WindowMoves(units, refs, live, someOpen);
  }

  lemma WindowMoves(units: seq<PlanUnit>, refs: set<string>, live: string -> Result<bool>, someOpen: nat)
    requires GraphAccepted(Nodes(units)) && GatesRecorded(ApprovedOf(units), refs)
    requires someOpen < |units| && !LaneClosed(refs, someOpen)
    ensures Window(ApprovedOf(units), refs, live) != []
    ensures Window(ApprovedOf(units), refs, live)[0].live || !Window(ApprovedOf(units), refs, live)[0].blocked
  {
    var order :| TopologicalOrder(Nodes(units), order);
    var i := FirstOpen(units, refs, order, someOpen);
    ReleasedUnit(units, refs, i);
    BestFirst(ApprovedOf(units), refs, live, i);
  }

  // ---------------------------------------------------------------- the plan can be finished

  ghost function OpenIndices(plan: seq<ApprovedUnit>, refs: set<string>): set<nat> {
    set i: nat | i < |plan| && !LaneClosed(refs, i)
  }

  /** Each closing is of an open, unblocked unit that heads the window of its moment; at the end all are closed. */
  ghost predicate Drains(plan: seq<ApprovedUnit>, refs: set<string>, events: seq<Event>)
    requires AllAllowed(plan, events)
    decreases |events|
  {
    if events == [] then OpenIndices(plan, refs) == {}
    else
      var w := Window(plan, refs, lane => Ok(false));
      w != [] && events[0] == Close(w[0].index) && !LaneClosed(refs, w[0].index) && !w[0].blocked
      && Drains(plan, Step(plan, refs, events[0]), events[1..])
  }

  /** From every state a run can reach, closing the head of each window closes every unit. */
  lemma {:induction false} PlanDrains(units: seq<PlanUnit>, refs: set<string>) returns (events: seq<Event>)
    requires GraphAccepted(Nodes(units)) && GatesRecorded(ApprovedOf(units), refs)
    ensures AllAllowed(ApprovedOf(units), events) && Drains(ApprovedOf(units), refs, events)
    ensures |events| == |OpenIndices(ApprovedOf(units), refs)|
    decreases OpenIndices(ApprovedOf(units), refs)
  {
    var plan := ApprovedOf(units);
    var idle := lane => Ok(false);
    if someOpen :| someOpen in OpenIndices(plan, refs) {
      WindowMoves(units, refs, idle, someOpen);
      WindowIsOpen(plan, refs, idle);
      var head := Window(plan, refs, idle)[0];
      assert Describes(plan, refs, idle, head);
      var e := Close(head.index);
      var after := Step(plan, refs, e);
      StepRecordsGates(plan, refs, e);
      ClosingShrinks(plan, refs, head.index);
      var rest := PlanDrains(units, after);
      events := [e] + rest;
      assert events[1..] == rest;
    } else {
      events := [];
    }
  }

  lemma ClosingShrinks(plan: seq<ApprovedUnit>, refs: set<string>, i: nat)
    requires i < |plan| && !LaneClosed(refs, i)
    ensures OpenIndices(plan, Step(plan, refs, Close(i))) == OpenIndices(plan, refs) - {i}
  {
    var after := Step(plan, refs, Close(i));
    forall j: nat | j < |plan| && j != i && !LaneClosed(refs, j) ensures !LaneClosed(after, j) {
      if LaneClosed(after, j) {
        ClosedBy(plan, refs, Close(i), j);
      }
    }
  }
}

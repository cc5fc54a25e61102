/**
 * The six-lane allocation window (data/seam_real_producers.rs) over the refs a
 * workstream records, and the closings that release dependants
 * (drivers/src/seam/mod.rs).
 */
module Allocation {
  import opened Wrappers
  import opened Json
  import JsonLaws
  import opened PlanGraph
  import opened Sorting
  import opened WorkMap

  const WINDOW: nat := 6

  function LaneId(index: nat): string {
    "L" + Decimal(index + 1)
  }

  function ClosedRef(lane: string): string {
    "unit-closed:" + lane
  }

  function GateRef(criterion: string): string {
    "gate:" + criterion
  }

  predicate LaneClosed(refs: set<string>, index: nat) {
    ClosedRef(LaneId(index)) in refs
  }

  /** Some predecessor gate is not recorded. */
  predicate Blocked(refs: set<string>, unit: ApprovedUnit) {
    exists i :: 0 <= i < |unit.predecessorForwardCriteria| && GateRef(unit.predecessorForwardCriteria[i]) !in refs
  }

  /** An open unit; `live` tells whether its lane has a delivery under way. */
  datatype Candidate = Candidate(index: nat, live: bool, blocked: bool)

  /** The sort key: live lanes first, then unblocked ones, then plan order. */
  predicate Earlier(a: Candidate, b: Candidate) {
    if a.live != b.live then a.live
    else if a.blocked != b.blocked then !a.blocked
    else a.index < b.index
  }

  datatype Lane = Lane(
    laneId: string,
    unitId: string,
    predecessorForwardCriteria: seq<string>,
    downstreamReleaseEdges: seq<string>,
    launchWave: nat,
    continueExisting: bool)

  /** A unit outside the window, and whether that is because it is closed. */
  datatype FutureUnit = FutureUnit(unitId: string, closed: bool)

  datatype Submission = Submission(lanes: seq<Lane>, futureUnits: seq<FutureUnit>)

  // ---------------------------------------------------------------- the submission as a function

  function CandidateAt(plan: seq<ApprovedUnit>, refs: set<string>, live: string -> Result<bool>, index: nat): Candidate
    requires index < |plan|
  {
    Candidate(index, live(LaneId(index)) == Ok(true), Blocked(refs, plan[index]))
  }

  /** The open units among the first `n`, in plan order. */
  function Open(plan: seq<ApprovedUnit>, refs: set<string>, live: string -> Result<bool>, n: nat): seq<Candidate>
    requires n <= |plan|
  {
    if n == 0 then []
    else
      Open(plan, refs, live, n - 1)
      + if LaneClosed(refs, n - 1) then [] else [CandidateAt(plan, refs, live, n - 1)]
  }

  /** Whether the lane of an open unit is live could not be decided. */
  predicate Undecided(refs: set<string>, live: string -> Result<bool>, i: nat) {
    !LaneClosed(refs, i) && live(LaneId(i)).Err?
  }

  predicate LiveFails(refs: set<string>, live: string -> Result<bool>, n: nat) {
    exists i :: 0 <= i < n && Undecided(refs, live, i)
  }

  function Window(plan: seq<ApprovedUnit>, refs: set<string>, live: string -> Result<bool>): seq<Candidate> {
    var sorted := SortBy(Open(plan, refs, live, |plan|), Earlier);
    if |sorted| <= WINDOW then sorted else sorted[..WINDOW]
  }

  function LaneOf(plan: seq<ApprovedUnit>, c: Candidate): Lane
    requires c.index < |plan|
  {
    var unit := plan[c.index];
    Lane(LaneId(c.index), unit.id, unit.predecessorForwardCriteria, unit.downstreamReleaseEdges, c.index, c.live)
  }

  function Future(plan: seq<ApprovedUnit>, refs: set<string>, scheduled: set<string>, n: nat): seq<FutureUnit>
    requires n <= |plan|
  {
    if n == 0 then []
    else
      Future(plan, refs, scheduled, n - 1)
      + if plan[n - 1].id in scheduled then [] else [FutureUnit(plan[n - 1].id, LaneClosed(refs, n - 1))]
  }

  // ---------------------------------------------------------------- validation of the stored plan

  function PlanNodes(plan: seq<ApprovedUnit>): seq<Node> {
    seq(|plan|, i requires 0 <= i < |plan| => Node(plan[i].id, plan[i].dependencies))
  }

  predicate UnitWellFormed(unit: ApprovedUnit) {
    && !Blank(unit.objective) && unit.criteria != [] && unit.criterionText != [] && unit.files != [] && unit.commands != []
    && unit.criteria == seq(|unit.criterionText|, i requires 0 <= i < |unit.criterionText| => unit.criterionText[i].0)
    && (forall i :: 0 <= i < |unit.criterionText| ==> !Blank(unit.criterionText[i].1))
    && (forall i, j :: 0 <= i < j < |unit.criterionText| ==> unit.criterionText[i].0 != unit.criterionText[j].0)
  }

  ghost predicate PlanValid(plan: seq<ApprovedUnit>, authority: seq<ApprovedUnit> -> bool) {
    GraphAccepted(PlanNodes(plan)) && authority(plan) && forall i :: 0 <= i < |plan| ==> UnitWellFormed(plan[i])
  }

  method ValidateApproved(plan: seq<ApprovedUnit>, authority: seq<ApprovedUnit> -> bool) returns (r: Result<()>)
    ensures r.Ok? <==> PlanValid(plan, authority)
  {
    for i := 0 to |plan|
      invariant forall k :: 0 <= k < i ==> UnitWellFormed(plan[k])
    {
      if !UnitWellFormed(plan[i]) {
        return Err("approved unit incomplete");
      }
    }
    if !authority(plan) {
      return Err("invalid authority");
    }
    r := ValidateGraph(PlanNodes(plan));
  }

  lemma CriterionIdInjective(unit: string, i: nat, j: nat)
    requires CriterionId(unit, i) == CriterionId(unit, j)
    ensures i == j
  {
    var prefix := "AC-" + unit + "-";
    assert CriterionId(unit, i) == prefix + Decimal(i + 1) && CriterionId(unit, j) == prefix + Decimal(j + 1);
    assert (prefix + Decimal(i + 1))[|prefix|..] == Decimal(i + 1);
    assert (prefix + Decimal(j + 1))[|prefix|..] == Decimal(j + 1);
    DecimalInjective(i + 1, j + 1);
  }

  lemma DecimalInjective(i: nat, j: nat)
    requires Decimal(i) == Decimal(j)
    ensures i == j
  {
    JsonLaws.ReadDecimalInto(i, "");
    JsonLaws.ReadDecimalInto(j, "");
    assert Decimal(i) + "" == Decimal(j) + "";
  }

  /**
   * A unit that approval accepts passes validation of the stored plan exactly
   * when it has files, which is part of file authority, and every criterion has
   * text, which approval does not look at.
   */
  lemma ApprovedPassesIff(unit: PlanUnit, index: nat)
    requires UnitComplete(unit)
    ensures UnitWellFormed(Approve(unit, index)) <==>
            unit.files != [] && forall k :: 0 <= k < |unit.criteria| ==> !Blank(unit.criteria[k])
  {
    var approved := Approve(unit, index);
    var texts := approved.criterionText;
    assert forall k :: 0 <= k < |texts| ==> texts[k].0 == CriterionId(unit.id, k) && texts[k].1 == unit.criteria[k];
    assert approved.criteria == seq(|texts|, i requires 0 <= i < |texts| => texts[i].0);
    forall i, j | 0 <= i < j < |texts| ensures texts[i].0 != texts[j].0 {
      if texts[i].0 == texts[j].0 {
        CriterionIdInjective(unit.id, i, j);
      }
    }
  }

  // ---------------------------------------------------------------- the window is what it should be

  lemma LaneIdInjective(i: nat, j: nat)
    requires LaneId(i) == LaneId(j)
    ensures i == j
  {
    assert LaneId(i)[1..] == Decimal(i + 1) && LaneId(j)[1..] == Decimal(j + 1);
    DecimalInjective(i + 1, j + 1);
  }

  /** `c` describes an open unit of the plan. */
  predicate Describes(plan: seq<ApprovedUnit>, refs: set<string>, live: string -> Result<bool>, c: Candidate) {
    c.index < |plan| && !LaneClosed(refs, c.index) && c == CandidateAt(plan, refs, live, c.index)
  }

  /** Candidates of open units before `n`, in plan order. */
  ghost predicate Lists(plan: seq<ApprovedUnit>, refs: set<string>, live: string -> Result<bool>, n: nat,
                        s: seq<Candidate>) {
    && (forall k :: 0 <= k < |s| ==> s[k].index < n && Describes(plan, refs, live, s[k]))
    && forall j, k :: 0 <= j < k < |s| ==> s[j].index < s[k].index
  }

  lemma {:induction false} OpenLists(plan: seq<ApprovedUnit>, refs: set<string>, live: string -> Result<bool>, n: nat)
    requires n <= |plan|
    ensures Lists(plan, refs, live, n, Open(plan, refs, live, n))
  {
    if n > 0 {
      OpenLists(plan, refs, live, n - 1);
    }
  }

  lemma {:induction false} OpenHolds(plan: seq<ApprovedUnit>, refs: set<string>, live: string -> Result<bool>, n: nat, i: nat)
    requires i < n <= |plan| && !LaneClosed(refs, i)
    ensures CandidateAt(plan, refs, live, i) in Open(plan, refs, live, n)
  {
    if i < n - 1 {
      OpenHolds(plan, refs, live, n - 1, i);
    }
  }

  lemma EarlierOrders()
    ensures Orders(Earlier)
  {
  }

  /** The window is a prefix of the open units by priority: nothing left out should have come before. */
  lemma WindowIsPrefix(plan: seq<ApprovedUnit>, refs: set<string>, live: string -> Result<bool>)
    returns (sorted: seq<Candidate>)
    ensures multiset(sorted) == multiset(Open(plan, refs, live, |plan|)) && SortedBy(sorted, Earlier)
    ensures |Window(plan, refs, live)| == if |sorted| <= WINDOW then |sorted| else WINDOW
    ensures Window(plan, refs, live) == sorted[..|Window(plan, refs, live)|]
  {
    var candidates := Open(plan, refs, live, |plan|);
    sorted := SortBy(candidates, Earlier);
    SortPermutes(candidates, Earlier);
    EarlierOrders();
    SortSorts(candidates, Earlier);
  }

  lemma CountTwice<T>(s: seq<T>, i: nat, j: nat)
    requires i < j < |s| && s[i] == s[j]
    ensures multiset(s)[s[i]] >= 2
  {
    assert s == s[..j] + [s[j]] + s[j + 1..];
    assert s[i] in s[..j];
  }

  lemma CountOnce<T>(s: seq<T>, x: T)
    requires forall i, j :: 0 <= i < j < |s| ==> s[i] != s[j]
    ensures multiset(s)[x] == if x in s then 1 else 0
  {
    if x in s {
      var i :| 0 <= i < |s| && s[i] == x;
      assert s == s[..i] + [s[i]] + s[i + 1..];
      assert x !in s[..i] && x !in s[i + 1..];
    }
  }

  lemma PrefixOfPermutation<T>(s: seq<T>, permuted: seq<T>, k: nat)
    requires multiset(s) == multiset(permuted) && k <= |permuted|
    requires forall i, j :: 0 <= i < j < |s| ==> s[i] != s[j]
    ensures forall i :: 0 <= i < k ==> permuted[..k][i] in s
    ensures forall i, j :: 0 <= i < j < k ==> permuted[i] != permuted[j]
  {
    forall i | 0 <= i < k ensures permuted[i] in s {
      assert permuted[i] in multiset(permuted);
    }
    forall i, j | 0 <= i < j < k ensures permuted[i] != permuted[j] {
      if permuted[i] == permuted[j] {
        CountTwice(permuted, i, j);
        CountOnce(s, permuted[i]);
      }
    }
  }

  /** Distinct open units, each with the data of its index. */
  ghost predicate DistinctOpen(plan: seq<ApprovedUnit>, refs: set<string>, live: string -> Result<bool>,
                               w: seq<Candidate>) {
    && (forall k :: 0 <= k < |w| ==> Describes(plan, refs, live, w[k]))
    && forall j, k :: 0 <= j < k < |w| ==> w[j].index != w[k].index
  }

  lemma WindowIsOpen(plan: seq<ApprovedUnit>, refs: set<string>, live: string -> Result<bool>)
    ensures DistinctOpen(plan, refs, live, Window(plan, refs, live))
  {
    var sorted := WindowIsPrefix(plan, refs, live);
    OpenLists(plan, refs, live, |plan|);
    PermutedIsOpen(plan, refs, live, Open(plan, refs, live, |plan|), sorted, |Window(plan, refs, live)|);
  }

  lemma PermutedIsOpen(plan: seq<ApprovedUnit>, refs: set<string>, live: string -> Result<bool>,
                       s: seq<Candidate>, permuted: seq<Candidate>, k: nat)
    requires Lists(plan, refs, live, |plan|, s) && multiset(s) == multiset(permuted) && k <= |permuted|
    ensures DistinctOpen(plan, refs, live, permuted[..k])
  {
    PrefixOfPermutation(s, permuted, k);
    var w := permuted[..k];
    forall i | 0 <= i < k ensures Describes(plan, refs, live, w[i]) {
      var j :| 0 <= j < |s| && s[j] == w[i];
    }
    forall i, j | 0 <= i < j < k ensures w[i].index != w[j].index {
      SameIndexSame(plan, refs, live, w[i], w[j]);
    }
  }

  lemma SameIndexSame(plan: seq<ApprovedUnit>, refs: set<string>, live: string -> Result<bool>, a: Candidate, b: Candidate)
    requires Describes(plan, refs, live, a) && Describes(plan, refs, live, b)
    ensures a.index == b.index ==> a == b
  {
  }

  // ---------------------------------------------------------------- the submission

  function Scheduled(plan: seq<ApprovedUnit>, window: seq<Candidate>): set<string>
    requires forall k :: 0 <= k < |window| ==> window[k].index < |plan|
  {
    set k | 0 <= k < |window| :: plan[window[k].index].id
  }

  ghost function LaneUnits(lanes: seq<Lane>): seq<string> {
    seq(|lanes|, i requires 0 <= i < |lanes| => lanes[i].unitId)
  }

  ghost function FutureIds(future: seq<FutureUnit>): seq<string> {
    seq(|future|, i requires 0 <= i < |future| => future[i].unitId)
  }

  ghost function PlanIds(plan: seq<ApprovedUnit>): seq<string> {
    seq(|plan|, i requires 0 <= i < |plan| => plan[i].id)
  }

  /** What a submission promises of the plan it was cut from. */
  ghost predicate Partitions(plan: seq<ApprovedUnit>, refs: set<string>, sub: Submission) {
    && |sub.lanes| <= WINDOW
    && multiset(LaneUnits(sub.lanes)) + multiset(FutureIds(sub.futureUnits)) == multiset(PlanIds(plan))
    && (forall k :: 0 <= k < |sub.lanes| ==> OpenLane(plan, refs, sub.lanes[k]))
    && forall k :: 0 <= k < |sub.futureUnits| ==> FutureOf(plan, refs, sub.futureUnits[k])
  }

  /** The future unit is a unit of the plan, marked closed exactly when its lane is. */
  ghost predicate FutureOf(plan: seq<ApprovedUnit>, refs: set<string>, unit: FutureUnit) {
    exists i :: 0 <= i < |plan| && unit.unitId == plan[i].id && unit.closed == LaneClosed(refs, i)
  }

  /** The lane is the open plan unit its id numbers. */
  ghost predicate OpenLane(plan: seq<ApprovedUnit>, refs: set<string>, lane: Lane) {
    lane.launchWave < |plan| && lane.laneId == LaneId(lane.launchWave) && !LaneClosed(refs, lane.launchWave)
    && lane.unitId == plan[lane.launchWave].id
    && lane.predecessorForwardCriteria == plan[lane.launchWave].predecessorForwardCriteria
    && lane.downstreamReleaseEdges == plan[lane.launchWave].downstreamReleaseEdges
  }

  method CollectOpen(plan: seq<ApprovedUnit>, refs: set<string>, live: string -> Result<bool>)
    returns (r: Result<seq<Candidate>>)
    ensures r.Err? <==> LiveFails(refs, live, |plan|)
    ensures r.Ok? ==> r.value == Open(plan, refs, live, |plan|)
  {
    var candidates: seq<Candidate> := [];
    for i := 0 to |plan|
      invariant !LiveFails(refs, live, i)
      invariant candidates == Open(plan, refs, live, i)
    {
      if !LaneClosed(refs, i) {
        var isLive := live(LaneId(i));
        if isLive.Err? {
          assert Undecided(refs, live, i);
          return Err(isLive.error);
        }
        candidates := candidates + [Candidate(i, isLive.value, Blocked(refs, plan[i]))];
      }
    }
    r := Ok(candidates);
  }

  /** `allocation_submission_from_plan` */
  method Allocate(plan: seq<ApprovedUnit>, refs: set<string>, live: string -> Result<bool>,
                  authority: seq<ApprovedUnit> -> bool)
    returns (r: Result<Submission>)
    ensures r.Ok? <==> PlanValid(plan, authority) && !LiveFails(refs, live, |plan|)
    ensures r.Ok? ==> Partitions(plan, refs, r.value)
    ensures r.Ok? ==> FollowsWindow(plan, Window(plan, refs, live), r.value.lanes)
  {
    var valid := ValidateApproved(plan, authority);
    if valid.Err? {
      return Err(valid.error);
    }
    var candidates := CollectOpen(plan, refs, live);
    if candidates.Err? {
      return Err(candidates.error);
    }
    var sorted := SortBy(candidates.value, Earlier);
    var window := if |sorted| <= WINDOW then sorted else sorted[..WINDOW];
    WindowIsOpen(plan, refs, live);
    assert window == Window(plan, refs, live);
    var sub := Submit(plan, refs, live, window);
    r := Ok(sub);
  }

  method Submit(plan: seq<ApprovedUnit>, refs: set<string>, ghost live: string -> Result<bool>, window: seq<Candidate>)
    returns (sub: Submission)
    requires DistinctOpen(plan, refs, live, window) && |window| <= WINDOW && DistinctIds(PlanNodes(plan))
    ensures Partitions(plan, refs, sub) && FollowsWindow(plan, window, sub.lanes)
  {
    assert forall k :: 0 <= k < |window| ==> Describes(plan, refs, live, window[k]);
    var lanes := seq(|window|, k requires 0 <= k < |window| => LaneOf(plan, window[k]));
    var future := Future(plan, refs, Scheduled(plan, window), |plan|);
    forall k | 0 <= k < |lanes| ensures OpenLane(plan, refs, lanes[k]) {
      assert Describes(plan, refs, live, window[k]);
    }
    SubmissionPartitions(plan, refs, window, lanes);
    FutureDescribes(plan, refs, Scheduled(plan, window), |plan|);
    sub := Submission(lanes, future);
  }

  /** One lane per candidate of the window, in its order. */
  ghost predicate FollowsWindow(plan: seq<ApprovedUnit>, window: seq<Candidate>, lanes: seq<Lane>) {
    |lanes| == |window|
    && forall k :: 0 <= k < |window| ==> window[k].index < |plan| && lanes[k] == LaneOf(plan, window[k])
  }

  /** The ids not scheduled, in order. */
  ghost function Rest(ids: seq<string>, scheduled: set<string>): seq<string> {
    if ids == [] then []
    else Rest(ids[..|ids| - 1], scheduled) + if ids[|ids| - 1] in scheduled then [] else [ids[|ids| - 1]]
  }

  lemma {:induction false} RestCounts(ids: seq<string>, scheduled: set<string>, x: string)
    ensures multiset(Rest(ids, scheduled))[x] == if x in scheduled then 0 else multiset(ids)[x]
  {
    if ids != [] {
      var n := |ids| - 1;
      assert ids == ids[..n] + [ids[n]];
      RestCounts(ids[..n], scheduled, x);
    }
  }

  lemma {:induction false} FutureIsRest(plan: seq<ApprovedUnit>, refs: set<string>, scheduled: set<string>, n: nat)
    requires n <= |plan|
    ensures FutureIds(Future(plan, refs, scheduled, n)) == Rest(PlanIds(plan)[..n], scheduled)
  {
    if n > 0 {
      FutureIsRest(plan, refs, scheduled, n - 1);
      var ids := PlanIds(plan);
      assert ids[..n][..n - 1] == ids[..n - 1];
    }
  }

  lemma {:induction false} FutureDescribes(plan: seq<ApprovedUnit>, refs: set<string>, scheduled: set<string>, n: nat)
    requires n <= |plan|
    ensures forall k :: 0 <= k < |Future(plan, refs, scheduled, n)| ==>
              FutureOf(plan, refs, Future(plan, refs, scheduled, n)[k])
  {
    if n > 0 {
      FutureDescribes(plan, refs, scheduled, n - 1);
      assert FutureOf(plan, refs, FutureUnit(plan[n - 1].id, LaneClosed(refs, n - 1)));
    }
  }

  /** Distinct picks and the rest make up the whole. */
  lemma PicksAndRest(ids: seq<string>, picks: seq<string>, scheduled: set<string>)
    requires NoRepeats(ids) && NoRepeats(picks)
    requires forall x :: x in picks <==> x in scheduled
    requires forall x :: x in picks ==> x in ids
    ensures multiset(picks) + multiset(Rest(ids, scheduled)) == multiset(ids)
  {
    forall x ensures multiset(picks)[x] + multiset(Rest(ids, scheduled))[x] == multiset(ids)[x] {
      RestCounts(ids, scheduled, x);
      CountOnce(ids, x);
      CountOnce(picks, x);
    }
  }

  lemma SubmissionPartitions(plan: seq<ApprovedUnit>, refs: set<string>, window: seq<Candidate>, lanes: seq<Lane>)
    requires DistinctIds(PlanNodes(plan))
    requires forall k :: 0 <= k < |window| ==> window[k].index < |plan|
    requires forall j, k :: 0 <= j < k < |window| ==> window[j].index != window[k].index
    requires |lanes| == |window| && forall k :: 0 <= k < |window| ==> lanes[k].unitId == plan[window[k].index].id
    ensures multiset(LaneUnits(lanes)) + multiset(FutureIds(Future(plan, refs, Scheduled(plan, window), |plan|)))
            == multiset(PlanIds(plan))
  {
    var scheduled := Scheduled(plan, window);
    var ids, picks := PlanIds(plan), LaneUnits(lanes);
    FutureIsRest(plan, refs, scheduled, |plan|);
    assert ids[..|plan|] == ids;
    assert NoRepeats(ids) by {
      assert forall k :: 0 <= k < |plan| ==> PlanNodes(plan)[k].id == ids[k];
    }
    assert forall k :: 0 <= k < |picks| ==> picks[k] == ids[window[k].index];
    forall x | x in scheduled ensures x in picks {
      var k :| 0 <= k < |window| && plan[window[k].index].id == x;
      assert picks[k] == x;
    }
    PicksAndRest(ids, picks, scheduled);
  }
}

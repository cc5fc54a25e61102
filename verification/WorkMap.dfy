/**
 * Work maps (data/seam_real_producers.rs): the units approved from one, and the
 * check that a recovery edit changes only what it declares and widens nothing.
 */
module WorkMap {
  import opened Wrappers
  import opened Json
  import opened PlanGraph

  datatype PlanUnitKind = Implementation

  /** Commands and package checks are opaque here: only compared and copied. */
  datatype PlanUnit = PlanUnit(
    id: string,
    kind: PlanUnitKind,
    objective: string,
    criteria: seq<string>,
    dependsOn: seq<string>,
    files: seq<string>,
    commands: seq<string>,
    packageChecks: seq<string>,
    links: seq<string>)

  datatype Disposition = InfrastructureBlocked | NoDefect | Repaired | RequiresNewAuthority | UnsafeBlocked

  datatype Recovery = Recovery(
    disposition: Disposition,
    diagnosisRefs: seq<string>,
    rootCause: string,
    affectedUnitIds: seq<string>,
    actions: seq<string>,
    preservedAuthority: seq<string>,
    repairEvidenceRefs: seq<string>)

  datatype WorkMap = WorkMap(units: seq<PlanUnit>, recovery: Option<Recovery>)

  /** Unicode white space, as `trim` strips it. */
  predicate White(c: char) {
    '\U{0009}' <= c <= '\U{000D}' || c == ' ' || c == '\U{0085}' || c == '\U{00A0}' || c == '\U{1680}'
    || '\U{2000}' <= c <= '\U{200A}' || c == '\U{2028}' || c == '\U{2029}' || c == '\U{202F}' || c == '\U{205F}'
    || c == '\U{3000}'
  }

  predicate Blank(s: string) {
    forall i :: 0 <= i < |s| ==> White(s[i])
  }

  function Nodes(units: seq<PlanUnit>): seq<Node> {
    seq(|units|, i requires 0 <= i < |units| => Node(units[i].id, units[i].dependsOn))
  }

  // ---------------------------------------------------------------- approval

  datatype ApprovedUnit = ApprovedUnit(
    id: string,
    kind: PlanUnitKind,
    objective: string,
    operatorOrder: nat,
    decisions: seq<string>,
    criteria: seq<string>,
    criterionText: seq<(string, string)>,
    dependencies: seq<string>,
    predecessorForwardCriteria: seq<string>,
    downstreamReleaseEdges: seq<string>,
    files: seq<string>,
    commands: seq<string>,
    packageChecks: seq<string>)

  function CriterionId(unit: string, index: nat): string {
    "AC-" + unit + "-" + Decimal(index + 1)
  }

  function Completion(unit: string): string {
    "unit-complete:" + unit
  }

  function Approve(unit: PlanUnit, index: nat): ApprovedUnit {
    var criteria := seq(|unit.criteria|, i requires i >= 0 => CriterionId(unit.id, i));
    ApprovedUnit(
      unit.id, unit.kind, unit.objective, index + 1, unit.links,
      criteria,
      seq(|unit.criteria|, i requires 0 <= i < |unit.criteria| => (criteria[i], unit.criteria[i])),
      unit.dependsOn,
      seq(|unit.dependsOn|, i requires 0 <= i < |unit.dependsOn| => Completion(unit.dependsOn[i])),
      ["unit:" + unit.id],
      unit.files, unit.commands, unit.packageChecks)
  }

  predicate UnitComplete(unit: PlanUnit) {
    !Blank(unit.id) && !Blank(unit.objective) && unit.criteria != [] && unit.commands != []
  }

  /** `authority` stands for the file, command and package-check rules over the whole plan. */
  ghost predicate Approvable(units: seq<PlanUnit>, authority: seq<PlanUnit> -> bool) {
    GraphAccepted(Nodes(units)) && authority(units) && forall i :: 0 <= i < |units| ==> UnitComplete(units[i])
  }

  /** `approved_units_from_work_map` */
  method ApprovedUnits(units: seq<PlanUnit>, authority: seq<PlanUnit> -> bool) returns (r: Result<seq<ApprovedUnit>>)
    ensures r.Ok? <==> Approvable(units, authority)
    ensures r.Ok? ==> r.value == seq(|units|, i requires 0 <= i < |units| => Approve(units[i], i))
  {
    var graph := ValidateGraph(Nodes(units));
    if graph.Err? {
      return Err(graph.error);
    }
    if !authority(units) {
      return Err("invalid authority");
    }
    var out: seq<ApprovedUnit> := [];
    for i := 0 to |units|
      invariant out == seq(i, k requires 0 <= k < |units| => Approve(units[k], k))
      invariant forall k :: 0 <= k < i ==> UnitComplete(units[k])
    {
      if !UnitComplete(units[i]) {
        return Err("unit missing criteria, objective or commands");
      }
      out := out + [Approve(units[i], i)];
    }
    r := Ok(out);
  }

  // ---------------------------------------------------------------- recovery

  datatype Admission = Continue | FailClosed(disposition: Disposition)

  datatype Carrier = Carrier(boundaryId: string, roleId: string, mode: string)

  predicate EvidenceComplete(recovery: Recovery) {
    && recovery.diagnosisRefs != []
    && !Blank(recovery.rootCause)
    && recovery.actions != []
    && (forall i :: 0 <= i < |recovery.actions| ==> !Blank(recovery.actions[i]))
    && recovery.preservedAuthority != []
    && (forall i :: 0 <= i < |recovery.preservedAuthority| ==> !Blank(recovery.preservedAuthority[i]))
    && recovery.repairEvidenceRefs != []
  }

  /** Same identity and same authority; only wording, criteria, commands and checks may differ. */
  predicate SameAuthority(before: PlanUnit, after: PlanUnit) {
    before.id == after.id && before.kind == after.kind && before.dependsOn == after.dependsOn
    && before.files == after.files && before.links == after.links
  }

  predicate KeepsAuthority(original: seq<PlanUnit>, candidate: seq<PlanUnit>) {
    |original| == |candidate| && forall i :: 0 <= i < |original| ==> SameAuthority(original[i], candidate[i])
  }

  function ChangedIds(original: seq<PlanUnit>, candidate: seq<PlanUnit>): set<string>
    requires |original| == |candidate|
  {
    set i | 0 <= i < |original| && original[i] != candidate[i] :: original[i].id
  }

  function SetOf(s: seq<string>): set<string> {
    set i | 0 <= i < |s| :: s[i]
  }

  predicate DispositionFits(disposition: Disposition, changed: set<string>, declared: set<string>) {
    if disposition == Repaired then changed != {} && changed == declared else changed == {} && declared == {}
  }

  function AdmissionFor(disposition: Disposition): Admission {
    if disposition == Repaired || disposition == NoDefect then Continue else FailClosed(disposition)
  }

  /** What an admitted recovery edit satisfies. */
  predicate SoundRepair(original: seq<PlanUnit>, candidate: seq<PlanUnit>, recovery: Recovery) {
    && EvidenceComplete(recovery)
    && KeepsAuthority(original, candidate)
    && |SetOf(recovery.affectedUnitIds)| == |recovery.affectedUnitIds|
    && DispositionFits(recovery.disposition, ChangedIds(original, candidate), SetOf(recovery.affectedUnitIds))
  }

  /**
   * `validate_recovery_work_map`, with the parsed submission and the parsed
   * original as inputs; either can have failed to read.
   */
  method ValidateRecovery(carrier: Carrier, submitted: Result<WorkMap>, subject: Result<WorkMap>)
    returns (r: Result<Admission>)
    ensures carrier.boundaryId != "planning.work-map.v1" ==> r == Ok(Continue)
    ensures carrier.boundaryId == "planning.work-map.v1" && carrier.roleId != "recovery-engineer" ==>
              (r == Ok(Continue) <==> submitted.Ok? && submitted.value.recovery.None?) && (r.Err? || r == Ok(Continue))
    ensures carrier.boundaryId == "planning.work-map.v1" && carrier.roleId == "recovery-engineer" ==>
              (r.Ok? <==> carrier.mode == "planning-repair" && submitted.Ok? && submitted.value.recovery.Some?
                          && subject.Ok?
                          && SoundRepair(subject.value.units, submitted.value.units, submitted.value.recovery.value))
              && (r.Ok? ==> r.value == AdmissionFor(submitted.value.recovery.value.disposition))
  {
    if carrier.boundaryId != "planning.work-map.v1" {
      return Ok(Continue);
    }
    if submitted.Err? {
      return Err(submitted.error);
    }
    var candidate := submitted.value;
    if carrier.roleId != "recovery-engineer" {
      return if candidate.recovery.None? then Ok(Continue) else Err("recovery evidence from another role");
    }
    if carrier.mode != "planning-repair" {
      return Err("unsupported mode");
    }
    if candidate.recovery.None? {
      return Err("missing recovery evidence");
    }
    var recovery := candidate.recovery.value;
    if !EvidenceComplete(recovery) {
      return Err("incomplete evidence");
    }
    if subject.Err? {
      return Err(subject.error);
    }
    var original := subject.value;
    if |original.units| != |candidate.units| {
      return Err("unit count changed");
    }
    var declared := SetOf(recovery.affectedUnitIds);
    if |declared| != |recovery.affectedUnitIds| {
      return Err("duplicate affected unit ids");
    }
    var changed: set<string> := {};
    for i := 0 to |original.units|
      invariant changed == set k | 0 <= k < i && original.units[k] != candidate.units[k] :: original.units[k].id
      invariant forall k :: 0 <= k < i ==> SameAuthority(original.units[k], candidate.units[k])
    {
      var before, after := original.units[i], candidate.units[i];
      if before.id != after.id {
        return Err("unit identity changed");
      }
      if before != after {
        changed := changed + {before.id};
        if before.kind != after.kind || before.dependsOn != after.dependsOn || before.files != after.files
           || before.links != after.links {
          return Err("authority expanded");
        }
      }
    }
    assert changed == ChangedIds(original.units, candidate.units);
    r := match recovery.disposition {
      case Repaired => if changed != {} && changed == declared then Ok(Continue) else Err("undeclared change")
      case NoDefect => if changed == {} && declared == {} then Ok(Continue) else Err("undeclared change")
      case _ => if changed == {} && declared == {} then Ok(FailClosed(recovery.disposition)) else Err("undeclared change")
    };
  }

  // ---------------------------------------------------------------- what an admitted edit preserves

  /** The repaired plan has the same dependency graph, so the graph check gives the same verdict. */
  lemma RepairKeepsGraph(original: seq<PlanUnit>, candidate: seq<PlanUnit>)
    requires KeepsAuthority(original, candidate)
    ensures Nodes(original) == Nodes(candidate)
    ensures GraphAccepted(Nodes(original)) <==> GraphAccepted(Nodes(candidate))
  {
    assert forall i :: 0 <= i < |original| ==> SameAuthority(original[i], candidate[i]);
    assert Nodes(original) == Nodes(candidate);
  }

  /** A sound repair changes unit `i` exactly when its id is declared. */
  lemma RepairChangesDeclared(original: seq<PlanUnit>, candidate: seq<PlanUnit>, recovery: Recovery, i: nat)
    requires SoundRepair(original, candidate, recovery) && DistinctIds(Nodes(original)) && i < |original|
    ensures original[i] != candidate[i] <==> original[i].id in recovery.affectedUnitIds
  {
    assert forall k :: 0 <= k < |original| ==> Nodes(original)[k].id == original[k].id;
    var changed := ChangedIds(original, candidate);
    assert original[i] != candidate[i] ==> original[i].id in changed;
    if original[i].id in recovery.affectedUnitIds {
      assert original[i].id in SetOf(recovery.affectedUnitIds);
      assert original[i].id in changed;
      var k :| 0 <= k < |original| && original[k] != candidate[k] && original[k].id == original[i].id;
      assert k == i by {
        assert Nodes(original)[k].id == Nodes(original)[i].id;
      }
    } else {
      assert original[i].id !in SetOf(recovery.affectedUnitIds);
    }
  }

  /** An approved unit without what a repair may change. */
  function Authority(unit: ApprovedUnit): ApprovedUnit {
    unit.(objective := "", criteria := [], criterionText := [], commands := [], packageChecks := [])
  }

  /**
   * An admitted edit of a plan with an accepted graph: the graph is still
   * accepted, exactly the declared units differ, and each approved unit keeps its
   * id, kind, order, decisions, dependencies, gates, release edges and files.
   */
  lemma AdmittedRepair(original: seq<PlanUnit>, candidate: seq<PlanUnit>, recovery: Recovery)
    requires SoundRepair(original, candidate, recovery) && GraphAccepted(Nodes(original))
    ensures GraphAccepted(Nodes(candidate))
    ensures forall i :: 0 <= i < |original| ==>
              (original[i] != candidate[i] <==> original[i].id in recovery.affectedUnitIds)
              && Authority(Approve(candidate[i], i)) == Authority(Approve(original[i], i))
  {
    RepairKeepsGraph(original, candidate);
    forall i | 0 <= i < |original|
      ensures original[i] != candidate[i] <==> original[i].id in recovery.affectedUnitIds
      ensures Authority(Approve(candidate[i], i)) == Authority(Approve(original[i], i))
    {
      RepairChangesDeclared(original, candidate, recovery, i);
      assert SameAuthority(original[i], candidate[i]);
    }
  }
}

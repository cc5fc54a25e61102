/**
 * The reporter-last cancellation protocol: the closures of
 * `acquirePendingBlockedObservation` (src/child-control-broker.ts) over the gate
 * application of `applyBlockedGate` (src/extension.ts), as a state machine. One
 * event is what runs between two awaits; the order of events is arbitrary, so
 * runs cover every interleaving of connections, observations, reconciliations,
 * kill results, append failures and restarts.
 */
module BlockedBroker {
  import opened Wrappers
  import opened Ownership
  import OwnershipRuns

  /** `cancelNonReporters`: at which non-reporter the one attempt in flight stands. */
  datatype NonReporterAttempt = NoAttempt | Next(index: nat) | Killing(index: nat)

  /** `cancelReporter`: awaiting the non-reporters, released, or killing. */
  datatype ReporterAttempt = NoReporterAttempt | AwaitNonReporters | Released | KillingReporter

  /** `forwardObservation`: its one attempt in flight. */
  datatype ObservationAttempt = NoObservation | Started | AwaitDrained | Forwarding | AwaitReporter

  /** The closure variables of one pending gate. */
  datatype Pending = Pending(
    directive: Directive,
    nonReporter: NonReporterAttempt, nonReportersCancelled: bool,
    reporter: ReporterAttempt, reporterCancelled: bool,
    observation: ObservationAttempt, arrived: Option<Observation>)

  /** A kill request, with the journal rows and what Core had recorded when it was issued. */
  datatype Kill = Kill(taskId: string, directive: Directive, rows: seq<Row>, coreObserved: bool)

  /**
   * `forwarded`: an observation has been sent to Core. `coreObserved`: Core has
   * recorded it. `kills`: every kill issued so far, across restarts.
   */
  datatype World = World(
    store: Store, pending: Option<Pending>, forwarded: bool, coreObserved: bool, kills: seq<Kill>)

  const INITIAL := World(EMPTY_STORE, None, false, false, [])

  datatype Event =
    | Admit(directive: Directive, durable: bool)      // a gate arrives: acquire or join the pending entry
    | CancelNonReporters                              // response written, or reconciliation
    | NonReporterTurn                                 // the loop looks at its next id
    | NonReporterKilled(ok: bool, durable: bool)      // killMany settles, then markCancelled
    | ReconcileObserved                               // Core says reporter_observed: cancelReporter
    | ReporterTurn(durable: bool)                     // afterBlockedResultAcknowledged up to the kill
    | ReporterKilled(ok: bool, durable: bool)
    | ReporterWaitFails
    | Observe(wire: Observation, durable: bool)       // an outer-runner observation, or a restored one
    | ObservationTurn
    | CoreRecords                                     // Core records a forwarded observation
    | CoreAcknowledges                                // and its acknowledgement reaches the Host
    | ObservationFails
    | Other(call: Call, durable: bool)                // any other coordinator call
    | Restart                                         // memory is lost, the journal is reopened

  function NonReporterIds(cancellations: seq<Cancellation>): seq<string> {
    if cancellations == [] then []
    else (if cancellations[0].reporter then [] else [cancellations[0].taskId]) + NonReporterIds(cancellations[1..])
  }

  function ReporterOf(cancellations: seq<Cancellation>): Option<Cancellation> {
    if cancellations == [] then None
    else if cancellations[0].reporter then Some(cancellations[0])
    else ReporterOf(cancellations[1..])
  }

  function BeginNonReporters(p: Pending): Pending {
    if p.nonReportersCancelled || !p.nonReporter.NoAttempt? then p else p.(nonReporter := Next(0))
  }

  function BeginReporter(p: Pending): Pending {
    if p.reporterCancelled || !p.reporter.NoReporterAttempt? then p
    else BeginNonReporters(p).(reporter := AwaitNonReporters)
  }

  function KillOf(w: World, p: Pending, taskId: string): World {
    w.(pending := Some(p), kills := w.kills + [Kill(taskId, p.directive, w.store.rows, w.coreObserved)])
  }

  function NonReporterStep(w: World, p: Pending): World {
    if !p.nonReporter.Next? then w else
    var ids := NonReporterIds(p.directive.gate.cancellations);
    var i := p.nonReporter.index;
    if i >= |ids| then w.(pending := Some(p.(nonReporter := NoAttempt, nonReportersCancelled := true)))
    else if WasCancelled(w.store.memory, p.directive, ids[i]) then w.(pending := Some(p.(nonReporter := Next(i + 1))))
    else KillOf(w, p.(nonReporter := Killing(i)), ids[i])
  }

  function NonReporterKillStep(w: World, p: Pending, ok: bool, durable: bool): World {
    if !p.nonReporter.Killing? then w else
    var ids := NonReporterIds(p.directive.gate.cancellations);
    var i := p.nonReporter.index;
    var member := if i < |ids| then FindTask(p.directive.gate.cancellations, ids[i]) else None;
    if !ok || member.None? then w.(pending := Some(p.(nonReporter := NoAttempt)))
    else
      var call := CancelCall(p.directive, member.value);
      w.(store := Perform(w.store, call, durable),
         pending := Some(p.(nonReporter := if Succeeds(w.store, call, durable) then Next(i + 1) else NoAttempt)))
  }

  function ReporterStep(w: World, p: Pending, durable: bool): World {
    if p.reporter.AwaitNonReporters? then
      if p.nonReportersCancelled then w.(pending := Some(p.(reporter := Released))) else w
    else if !p.reporter.Released? then w else
    var observe := ObserveCall(p.directive);
    var w' := w.(store := Perform(w.store, observe, durable));
    var reporter := ReporterOf(p.directive.gate.cancellations);
    if !Succeeds(w.store, observe, durable) || reporter.None? then
      w'.(pending := Some(p.(reporter := NoReporterAttempt)))
    else if WasCancelled(w'.store.memory, p.directive, reporter.value.taskId) then
      w'.(pending := Some(p.(reporter := NoReporterAttempt, reporterCancelled := true)))
    else KillOf(w', p.(reporter := KillingReporter), reporter.value.taskId)
  }

  function ReporterKillStep(w: World, p: Pending, ok: bool, durable: bool): World {
    if !p.reporter.KillingReporter? then w else
    var reporter := ReporterOf(p.directive.gate.cancellations);
    if !ok || reporter.None? then w.(pending := Some(p.(reporter := NoReporterAttempt)))
    else
      var call := CancelCall(p.directive, reporter.value);
      w.(store := Perform(w.store, call, durable),
         pending := Some(p.(reporter := NoReporterAttempt, reporterCancelled := Succeeds(w.store, call, durable))))
  }

  function ObserveStep(w: World, p: Pending, wire: Observation, durable: bool): World {
    var call := ArriveCall(wire, p.directive);
    var w' := w.(store := Perform(w.store, call, durable));
    if !Succeeds(w.store, call, durable) || (p.arrived.Some? && p.arrived.value != wire) then w'
    else
      var attempt := if p.observation.NoObservation? then Started else p.observation;
      w'.(pending := Some(p.(arrived := Some(wire), observation := attempt)))
  }

  function ObservationStep(w: World, p: Pending): World {
    match p.observation
    case Started => w.(pending := Some(BeginNonReporters(p).(observation := AwaitDrained)))
    case AwaitDrained =>
      if p.nonReportersCancelled then w.(pending := Some(p.(observation := Forwarding)), forwarded := true) else w
    case AwaitReporter => if p.reporterCancelled then w.(pending := Some(p.(observation := NoObservation))) else w
    case _ => w
  }

  /** `acquirePendingBlockedObservation`: join the same gate, refuse another, or promote this one. */
  function AdmitStep(w: World, directive: Directive, durable: bool): World {
    if w.pending.Some? then w
    else
      var call := PromoteCall(directive);
      var fresh_ := Pending(directive, NoAttempt, false, NoReporterAttempt, false, NoObservation, None);
      w.(store := Perform(w.store, call, durable),
         pending := if Succeeds(w.store, call, durable) then Some(fresh_) else None)
  }

  /** Coordinator calls made outside the gate application. */
  predicate Outside(call: Call) {
    !call.ArriveCall? && !call.ObserveCall? && !call.CancelCall?
  }

  function ControlStep(w: World, p: Pending, event: Event): World {
    match event
    case CancelNonReporters => w.(pending := Some(BeginNonReporters(p)))
    case ReconcileObserved =>
      if w.coreObserved && p.nonReportersCancelled then w.(pending := Some(BeginReporter(p))) else w
    case ReporterWaitFails =>
      if p.reporter.AwaitNonReporters? then w.(pending := Some(p.(reporter := NoReporterAttempt))) else w
    case ObservationTurn => ObservationStep(w, p)
    case CoreAcknowledges =>
      if p.observation.Forwarding? && w.coreObserved
      then w.(pending := Some(BeginReporter(p).(observation := AwaitReporter))) else w
    case ObservationFails => w.(pending := Some(p.(observation := NoObservation)))
    case _ => w
  }

  function PendingStep(w: World, p: Pending, event: Event): World {
    match event
    case NonReporterTurn => NonReporterStep(w, p)
    case NonReporterKilled(ok, durable) => NonReporterKillStep(w, p, ok, durable)
    case ReporterTurn(durable) => ReporterStep(w, p, durable)
    case ReporterKilled(ok, durable) => ReporterKillStep(w, p, ok, durable)
    case Observe(wire, durable) => ObserveStep(w, p, wire, durable)
    case _ => ControlStep(w, p, event)
  }

  /** None: the journal could not be reopened, so no Host runs. */
  function Step(w: World, event: Event): Option<World> {
    match event
    case Admit(directive, durable) => Some(AdmitStep(w, directive, durable))
    case Other(call, durable) =>
      Some(if Outside(call) then w.(store := Perform(w.store, call, durable)) else w)
    case CoreRecords => Some(w.(coreObserved := w.coreObserved || w.forwarded))
    case Restart =>
      var restored := RestoreAll(w.store.rows);
      if restored.None? then None else Some(w.(store := Store(restored.value, w.store.rows), pending := None))
    case _ => Some(if w.pending.Some? then PendingStep(w, w.pending.value, event) else w)
  }

  function Run(events: seq<Event>): Option<World> {
    if events == [] then Some(INITIAL)
    else
      var before := Run(events[..|events| - 1]);
      if before.None? then None else Step(before.value, events[|events| - 1])
  }

  // ---------------------------------------------------------------- what the journal shows

  ghost predicate CancelledRow(rows: seq<Row>, d: Directive, taskId: string) {
    exists i :: 0 <= i < |rows| && rows[i].BlockedCancelled? && rows[i].receiptId == d.receiptId
                && rows[i].latchId == d.gate.latchId && rows[i].cancellation.taskId == taskId
  }

  ghost predicate ObservedRow(rows: seq<Row>, d: Directive) {
    exists i :: 0 <= i < |rows| && rows[i].ObservationObserved? && rows[i].receiptId == d.receiptId
                && rows[i].latchId == d.gate.latchId
  }

  ghost predicate ArrivedRow(rows: seq<Row>, d: Directive) {
    exists i :: 0 <= i < |rows| && rows[i].ObservationArrived? && rows[i].receiptId == d.receiptId
                && rows[i].latchId == d.gate.latchId
  }

  predicate IsReporter(d: Directive, taskId: string) {
    var reporter := ReporterOf(d.gate.cancellations);
    reporter.Some? && reporter.value.taskId == taskId
  }

  /**
   * What every kill must respect: its task has no cancellation row yet, and the
   * reporter goes last, after every non-reporter's row, after the observation
   * was journaled and recorded by Core, and after the observed row.
   */
  ghost predicate KillSound(k: Kill) {
    && !CancelledRow(k.rows, k.directive, k.taskId)
    && (IsReporter(k.directive, k.taskId) ==>
          && (forall t :: t in NonReporterIds(k.directive.gate.cancellations) ==> CancelledRow(k.rows, k.directive, t))
          && ArrivedRow(k.rows, k.directive) && k.coreObserved && ObservedRow(k.rows, k.directive))
  }

  // ---------------------------------------------------------------- memory mirrors the rows

  function CancelKeys(rows: seq<Row>): set<string> {
    if rows == [] then {}
    else
      var row := rows[|rows| - 1];
      CancelKeys(rows[..|rows| - 1]) +
      if row.BlockedCancelled? then {CancellationKey(row.receiptId, row.latchId, row.cancellation.taskId)} else {}
  }

  function ObservedKeys(rows: seq<Row>): set<string> {
    if rows == [] then {}
    else
      var row := rows[|rows| - 1];
      ObservedKeys(rows[..|rows| - 1]) +
      if row.ObservationObserved? then {GateKey(row.receiptId, row.latchId)} else {}
  }

  function ArrivedKeys(rows: seq<Row>): set<string> {
    if rows == [] then {}
    else
      var row := rows[|rows| - 1];
      ArrivedKeys(rows[..|rows| - 1]) +
      if row.ObservationArrived? then {GateKey(row.receiptId, row.latchId)} else {}
  }

  predicate GateRow(row: Row) {
    row.ObservationArrived? || row.ObservationObserved? || row.BlockedCancelled?
  }

  /** Every observation and cancellation row belongs to the active gate. */
  ghost predicate UnderGate(rows: seq<Row>, gate: Option<Directive>) {
    forall i :: 0 <= i < |rows| && GateRow(rows[i]) ==>
      gate.Some? && rows[i].receiptId == gate.value.receiptId && rows[i].latchId == gate.value.gate.latchId
  }

  /** Every observation kept in memory carries the active gate's receipt. */
  ghost predicate Receipted(observations: map<string, Observation>, gate: Option<Directive>) {
    forall k :: k in observations ==> gate.Some? && observations[k].receiptId == gate.value.receiptId
  }

  ghost predicate Linked(s: Store) {
    && s.memory.cancellationRows == CancelKeys(s.rows)
    && s.memory.observed == ObservedKeys(s.rows)
    && s.memory.observations.Keys == ArrivedKeys(s.rows)
    && UnderGate(s.rows, s.memory.activeGate)
    && Receipted(s.memory.observations, s.memory.activeGate)
  }

  lemma KeysAppend(rows: seq<Row>, row: Row)
    ensures !row.BlockedCancelled? ==> CancelKeys(rows + [row]) == CancelKeys(rows)
    ensures row.BlockedCancelled? ==>
              CancelKeys(rows + [row]) ==
              CancelKeys(rows) + {CancellationKey(row.receiptId, row.latchId, row.cancellation.taskId)}
    ensures !row.ObservationObserved? ==> ObservedKeys(rows + [row]) == ObservedKeys(rows)
    ensures row.ObservationObserved? ==>
              ObservedKeys(rows + [row]) == ObservedKeys(rows) + {GateKey(row.receiptId, row.latchId)}
    ensures !row.ObservationArrived? ==> ArrivedKeys(rows + [row]) == ArrivedKeys(rows)
    ensures row.ObservationArrived? ==>
              ArrivedKeys(rows + [row]) == ArrivedKeys(rows) + {GateKey(row.receiptId, row.latchId)}
  {
    assert (rows + [row])[..|rows|] == rows;
  }

  /** A gate's identity never changes once it is active. */
  predicate GateKept(before: Option<Directive>, after: Option<Directive>) {
    before.Some? ==> after.Some? && SameDirective(before.value, after.value)
  }

  lemma UnderGateAppend(rows: seq<Row>, row: Row, before: Option<Directive>, after: Option<Directive>)
    requires UnderGate(rows, before) && GateKept(before, after)
    requires GateRow(row) ==> after.Some? && row.receiptId == after.value.receiptId
                              && row.latchId == after.value.gate.latchId
    ensures UnderGate(rows + [row], after)
  {
  }

  /** Only the gate's own rows touch this part of memory. */
  predicate SameGateState(before: Memory, after: Memory) {
    && after.cancellationRows == before.cancellationRows && after.observed == before.observed
    && after.observations == before.observations && after.activeGate == before.activeGate
  }

  /** A row that is not the gate's leaves the link as it was. */
  lemma PlainRowLinked(m: Memory, next: Memory, rows: seq<Row>, row: Row)
    requires Linked(Store(m, rows)) && SameGateState(m, next) && !GateRow(row)
    ensures Linked(Store(next, rows + [row]))
  {
    KeysAppend(rows, row);
    UnderGateAppend(rows, row, m.activeGate, m.activeGate);
  }

  lemma ReceiptedUpdate(observations: map<string, Observation>, key: string, o: Observation, gate: Option<Directive>)
    requires Receipted(observations, gate) && gate.Some? && o.receiptId == gate.value.receiptId
    ensures Receipted(observations[key := o], gate) && observations[key := o].Keys == observations.Keys + {key}
  {
  }

  /** The gate's observation, kept in memory and journaled. */
  lemma ArrivalLinked(m: Memory, rows: seq<Row>, d: Directive, o: Observation)
    requires Linked(Store(m, rows)) && m.activeGate.Some? && o.receiptId == d.receiptId
    requires d.receiptId == m.activeGate.value.receiptId && d.gate.latchId == m.activeGate.value.gate.latchId
    ensures var key := GateKey(d.receiptId, d.gate.latchId);
            var row := ObservationArrived(d.receiptId, d.gate.latchId, o);
            Linked(Store(m.(observations := m.observations[key := o]), rows + [row]))
  {
    var row := ObservationArrived(d.receiptId, d.gate.latchId, o);
    KeysAppend(rows, row);
    UnderGateAppend(rows, row, m.activeGate, m.activeGate);
    ReceiptedUpdate(m.observations, GateKey(d.receiptId, d.gate.latchId), o, m.activeGate);
  }

  lemma ArrivedRowLinked(m: Memory, rows: seq<Row>, row: Row)
    requires Linked(Store(m, rows)) && Restore(m, row).Some? && row.ObservationArrived?
    ensures Linked(Store(Restore(m, row).value, rows + [row]))
  {
    ArrivalLinked(m, rows, m.activeGate.value, row.observation);
  }

  lemma GateRowLinked(m: Memory, rows: seq<Row>, row: Row)
    requires Linked(Store(m, rows)) && Restore(m, row).Some?
    requires row.BlockedGate? || row.ObservationObserved? || row.BlockedCancelled?
    ensures Linked(Store(Restore(m, row).value, rows + [row]))
  {
    KeysAppend(rows, row);
    UnderGateAppend(rows, row, m.activeGate, Restore(m, row).value.activeGate);
  }

  lemma RestoreLinked(m: Memory, rows: seq<Row>, row: Row)
    requires Linked(Store(m, rows)) && Restore(m, row).Some?
    ensures Linked(Store(Restore(m, row).value, rows + [row]))
  {
    if row.ObservationArrived? {
      ArrivedRowLinked(m, rows, row);
    } else if GateRow(row) || row.BlockedGate? {
      GateRowLinked(m, rows, row);
    } else {
      PlainRowLinked(m, Restore(m, row).value, rows, row);
    }
  }

  lemma {:induction false} RestoreAllLinked(rows: seq<Row>)
    requires RestoreAll(rows).Some?
    ensures Linked(Store(RestoreAll(rows).value, rows))
  {
    if rows != [] {
      var n := |rows| - 1;
      RestoreAllLinked(rows[..n]);
      RestoreLinked(RestoreAll(rows[..n]).value, rows[..n], rows[n]);
      assert rows[..n] + [rows[n]] == rows;
    }
  }

  /** Calls of the gate application name the active gate. */
  predicate Permitted(m: Memory, call: Call) {
    Outside(call) || (m.activeGate.Some? && SameDirective(m.activeGate.value, call.directive))
  }

  ghost predicate PlanOfLinked(m: Memory, rows: seq<Row>, plan: Plan) {
    match plan
    case Refused => true
    case Settled(next) => SameGateState(m, next)
    case Write(row, next, onFailure) =>
      && Linked(Store(next, rows + [row])) && GateKept(m.activeGate, next.activeGate) && SameGateState(m, onFailure)
  }

  /** Neither the row nor memory's update concerns the gate. */
  predicate PlainPlan(m: Memory, plan: Plan) {
    match plan
    case Refused => true
    case Settled(next) => SameGateState(m, next)
    case Write(row, next, onFailure) => !GateRow(row) && SameGateState(m, next) && SameGateState(m, onFailure)
  }

  lemma PlainPlanLinked(m: Memory, rows: seq<Row>, plan: Plan)
    requires Linked(Store(m, rows)) && PlainPlan(m, plan)
    ensures PlanOfLinked(m, rows, plan)
  {
    if plan.Write? { PlainRowLinked(m, plan.next, rows, plan.row); }
  }

  lemma BindingPlanIsPlain(m: Memory, call: Call)
    requires call.RegisterCall? || call.AcknowledgeCall? || call.TerminalCall? || call.ForwardCall?
    ensures PlainPlan(m, PlanOf(m, call))
  {
  }

  /** A binding's row leaves the gate alone. */
  lemma BindingPlanLinked(m: Memory, rows: seq<Row>, call: Call)
    requires Linked(Store(m, rows))
    requires call.RegisterCall? || call.AcknowledgeCall? || call.TerminalCall? || call.ForwardCall?
    ensures PlanOfLinked(m, rows, PlanOf(m, call))
  {
    BindingPlanIsPlain(m, call);
    PlainPlanLinked(m, rows, PlanOf(m, call));
  }

  lemma PromotePlanLinked(m: Memory, rows: seq<Row>, call: Call)
    requires Linked(Store(m, rows)) && call.PromoteCall?
    ensures PlanOfLinked(m, rows, PlanOf(m, call))
  {
    var plan := Promote(m, call.directive);
    if plan.Write? {
      KeysAppend(rows, plan.row);
      UnderGateAppend(rows, plan.row, m.activeGate, plan.next.activeGate);
    }
  }

  /** A row appended for the gate mirrors exactly the key it adds to memory. */
  lemma ArrivePlanLinked(m: Memory, rows: seq<Row>, call: Call)
    requires Linked(Store(m, rows)) && call.ArriveCall? && Permitted(m, call)
    ensures PlanOfLinked(m, rows, PlanOf(m, call))
  {
    if ArriveObservation(m, call.observation, call.directive).Write? {
      ArrivalLinked(m, rows, call.directive, call.observation);
    }
  }

  lemma ObservePlanLinked(m: Memory, rows: seq<Row>, call: Call)
    requires Linked(Store(m, rows)) && call.ObserveCall? && Permitted(m, call)
    ensures PlanOfLinked(m, rows, PlanOf(m, call))
  {
    var plan := ObserveReporter(m, call.directive);
    if plan.Write? {
      KeysAppend(rows, plan.row);
      UnderGateAppend(rows, plan.row, m.activeGate, plan.next.activeGate);
    }
  }

  lemma CancelPlanLinked(m: Memory, rows: seq<Row>, call: Call)
    requires Linked(Store(m, rows)) && call.CancelCall? && Permitted(m, call)
    ensures PlanOfLinked(m, rows, PlanOf(m, call))
  {
    var plan := Cancel(m, call.directive, call.cancellation);
    if plan.Write? {
      KeysAppend(rows, plan.row);
      UnderGateAppend(rows, plan.row, m.activeGate, m.activeGate);
    }
  }

  lemma HoldPlanLinked(m: Memory, rows: seq<Row>, call: Call)
    requires call.AcquireAdmission? || call.ReleaseOnRetry? || call.RetainFailClosed? || call.FinishActivation?
    ensures PlanOfLinked(m, rows, PlanOf(m, call))
  {
  }

  lemma PlanLinked(m: Memory, rows: seq<Row>, call: Call)
    requires Linked(Store(m, rows)) && Permitted(m, call)
    ensures PlanOfLinked(m, rows, PlanOf(m, call))
  {
    match call
    case RegisterCall(_, _) => BindingPlanLinked(m, rows, call);
    case AcknowledgeCall(_, _) => BindingPlanLinked(m, rows, call);
    case TerminalCall(_, _) => BindingPlanLinked(m, rows, call);
    case ForwardCall(_) => BindingPlanLinked(m, rows, call);
    case PromoteCall(_) => PromotePlanLinked(m, rows, call);
    case ArriveCall(_, _) => ArrivePlanLinked(m, rows, call);
    case ObserveCall(_) => ObservePlanLinked(m, rows, call);
    case CancelCall(_, _) => CancelPlanLinked(m, rows, call);
    case _ => HoldPlanLinked(m, rows, call);
  }

  lemma ExecuteLinked(s: Store, plan: Plan, durable: bool)
    requires Linked(s) && PlanOfLinked(s.memory, s.rows, plan)
    ensures var after := Execute(s, plan, durable);
            Linked(after) && s.rows <= after.rows && GateKept(s.memory.activeGate, after.memory.activeGate)
  {
  }

  lemma PerformLinked(s: Store, call: Call, durable: bool)
    requires Linked(s) && Permitted(s.memory, call)
    ensures var after := Perform(s, call, durable);
            Linked(after) && s.rows <= after.rows && GateKept(s.memory.activeGate, after.memory.activeGate)
  {
    PlanLinked(s.memory, s.rows, call);
    ExecuteLinked(s, PlanOf(s.memory, call), durable);
  }

  // ---------------------------------------------------------------- what every call retains

  /** The gate's tasks stay owned, and an observation, once kept, is not replaced. */
  ghost predicate Retains(before: Memory, after: Memory, gate: Gate) {
    && (GateOwned(before.owned, gate) ==> GateOwned(after.owned, gate))
    && (forall k :: k in before.observations ==>
          k in after.observations && after.observations[k] == before.observations[k])
  }

  ghost predicate PlanRetains(m: Memory, plan: Plan, gate: Gate) {
    match plan
    case Refused => true
    case Settled(next) => Retains(m, next, gate)
    case Write(_, next, onFailure) => Retains(m, next, gate) && Retains(m, onFailure, gate)
  }

  lemma InstallRetains(m: Memory, b: Binding, gate: Gate)
    requires b.task.id in m.owned ==> m.owned[b.task.id].action == b.action
    ensures Retains(m, Install(m, b), gate)
  {
    if GateOwned(m.owned, gate) { OwnershipRuns.InstallKeepsGate(m, b, gate); }
  }

  lemma BindingPlanRetains(m: Memory, call: Call, gate: Gate)
    requires call.RegisterCall? || call.AcknowledgeCall? || call.TerminalCall? || call.ForwardCall?
    ensures PlanRetains(m, PlanOf(m, call), gate)
  {
    if PlanOf(m, call).Write? {
      match call
      case RegisterCall(action, task) => InstallRetains(m, Binding(task, action, false, false, false), gate);
      case AcknowledgeCall(_, task) => ReplaceRetains(m, m.owned[task.id], m.owned[task.id].(acknowledged := true), gate);
      case TerminalCall(task, _) =>
        ReplaceRetains(m, m.owned[task.id], m.owned[task.id].(task := task, terminal := true), gate);
      case ForwardCall(t) => ReplaceRetains(m, m.owned[t], m.owned[t].(terminalForwarded := true), gate);
    }
  }

  lemma ReplaceRetains(m: Memory, previous: Binding, next: Binding, gate: Gate)
    requires next.action == previous.action
    requires next.task.id == previous.task.id || (next.task.id in m.owned && m.owned[next.task.id] == previous)
    ensures Replaceable(m, previous) ==> Retains(m, Install(m, next), gate)
  {
    if Replaceable(m, previous) { InstallRetains(m, next, gate); }
  }

  lemma PerformRetains(s: Store, call: Call, durable: bool, gate: Gate)
    ensures Retains(s.memory, Perform(s, call, durable).memory, gate)
  {
    if call.RegisterCall? || call.AcknowledgeCall? || call.TerminalCall? || call.ForwardCall? {
      BindingPlanRetains(s.memory, call, gate);
    } else {
      OtherPlanRetains(s.memory, call, gate);
    }
    ExecuteRetains(s, PlanOf(s.memory, call), durable, gate);
  }

  lemma OtherPlanRetains(m: Memory, call: Call, gate: Gate)
    requires !call.RegisterCall? && !call.AcknowledgeCall? && !call.TerminalCall? && !call.ForwardCall?
    ensures PlanRetains(m, PlanOf(m, call), gate)
  {
  }

  lemma ExecuteRetains(s: Store, plan: Plan, durable: bool, gate: Gate)
    requires PlanRetains(s.memory, plan, gate)
    ensures Retains(s.memory, Execute(s, plan, durable).memory, gate)
  {
  }

  lemma CancellationKeyInjective(d: Directive, t: string, u: string)
    requires CancellationKey(d.receiptId, d.gate.latchId, t) == CancellationKey(d.receiptId, d.gate.latchId, u)
    ensures t == u
  {
    var prefix := d.receiptId + "\0" + d.gate.latchId + "\0";
    assert (prefix + t)[|prefix|..] == t && (prefix + u)[|prefix|..] == u;
  }

  lemma {:induction false} CancelKeyIsRow(rows: seq<Row>, d: Directive, t: string)
    requires UnderGate(rows, Some(d))
    ensures CancellationKey(d.receiptId, d.gate.latchId, t) in CancelKeys(rows) <==> CancelledRow(rows, d, t)
  {
    if rows != [] {
      var n := |rows| - 1;
      CancelKeyIsRow(rows[..n], d, t);
      assert forall i :: 0 <= i < n ==> rows[..n][i] == rows[i];
      var row := rows[n];
      if row.BlockedCancelled?
         && CancellationKey(row.receiptId, row.latchId, row.cancellation.taskId)
            == CancellationKey(d.receiptId, d.gate.latchId, t) {
        CancellationKeyInjective(d, row.cancellation.taskId, t);
        assert CancelledRow(rows, d, t);
      }
    }
  }

  lemma {:induction false} GateKeysAreRows(rows: seq<Row>, d: Directive)
    requires UnderGate(rows, Some(d))
    ensures GateKey(d.receiptId, d.gate.latchId) in ObservedKeys(rows) ==> ObservedRow(rows, d)
    ensures GateKey(d.receiptId, d.gate.latchId) in ArrivedKeys(rows) ==> ArrivedRow(rows, d)
  {
    if rows != [] {
      var n := |rows| - 1;
      GateKeysAreRows(rows[..n], d);
      assert forall i :: 0 <= i < n ==> rows[..n][i] == rows[i];
    }
  }

  lemma RowsGrow(rows: seq<Row>, more: seq<Row>, d: Directive)
    requires rows <= more
    ensures forall t :: CancelledRow(rows, d, t) ==> CancelledRow(more, d, t)
    ensures ArrivedRow(rows, d) ==> ArrivedRow(more, d)
  {
    assert forall i :: 0 <= i < |rows| ==> rows[i] == more[i];
  }

  // ---------------------------------------------------------------- the protocol invariant

  ghost predicate CancelledUpTo(rows: seq<Row>, d: Directive, count: nat) {
    var ids := NonReporterIds(d.gate.cancellations);
    forall j :: 0 <= j < count && j < |ids| ==> CancelledRow(rows, d, ids[j])
  }

  /** Every task of the gate has its cancellation row. */
  ghost predicate AllCancelled(rows: seq<Row>, d: Directive) {
    (forall t :: t in NonReporterIds(d.gate.cancellations) ==> CancelledRow(rows, d, t))
    && ReporterOf(d.gate.cancellations).Some?
    && CancelledRow(rows, d, ReporterOf(d.gate.cancellations).value.taskId)
  }

  /** `p.arrived` is the observation the coordinator keeps for the gate. */
  predicate ArrivedKept(m: Memory, p: Pending) {
    var key := GateKey(p.directive.receiptId, p.directive.gate.latchId);
    p.arrived.Some? ==> key in m.observations && m.observations[key] == p.arrived.value
  }

  ghost predicate PendingSound(w: World, p: Pending) {
    var rows, d := w.store.rows, p.directive;
    var ids := NonReporterIds(d.gate.cancellations);
    && GateOwned(w.store.memory.owned, d.gate) && ArrivedKept(w.store.memory, p)
    && (p.nonReporter.Killing? ==> p.nonReporter.index < |ids|)
    && (p.reporterCancelled ==> p.nonReportersCancelled && AllCancelled(rows, d))
    && w.store.memory.activeGate.Some? && SameDirective(w.store.memory.activeGate.value, d)
    && (!p.nonReporter.NoAttempt? ==> CancelledUpTo(rows, d, p.nonReporter.index))
    && (p.nonReportersCancelled ==> CancelledUpTo(rows, d, |ids|))
    && (p.reporter.Released? || p.reporter.KillingReporter? ==> p.nonReportersCancelled)
    && (!p.reporter.NoReporterAttempt? ==> w.coreObserved)
    && (!p.observation.NoObservation? ==> ArrivedRow(rows, d))
  }

  ghost predicate Sound(w: World) {
    && Linked(w.store)
    && (w.pending.Some? ==> PendingSound(w, w.pending.value))
    && (w.forwarded || w.coreObserved ==>
          w.store.memory.activeGate.Some? && ArrivedRow(w.store.rows, w.store.memory.activeGate.value))
    && (forall i :: 0 <= i < |w.kills| ==> KillSound(w.kills[i]))
  }

  /** A coordinator call the protocol permits keeps everything the protocol relies on. */
  lemma CallKeepsSound(w: World, call: Call, durable: bool)
    requires Sound(w) && Permitted(w.store.memory, call)
    ensures Sound(w.(store := Perform(w.store, call, durable)))
  {
    PerformLinked(w.store, call, durable);
    var after := Perform(w.store, call, durable);
    if w.pending.Some? { PerformRetains(w.store, call, durable, w.pending.value.directive.gate); }
    if w.store.memory.activeGate.Some? {
      RowsGrow(w.store.rows, after.rows, w.store.memory.activeGate.value);
    }
    if w.pending.Some? {
      RowsGrow(w.store.rows, after.rows, w.pending.value.directive);
    }
  }

  lemma {:induction false} NonReporterIsNotReporter(cs: seq<Cancellation>, d: Directive, t: string)
    requires d.gate.cancellations == cs && DistinctTasks(cs) && t in NonReporterIds(cs)
    ensures !IsReporter(d, t) && exists i :: 0 <= i < |cs| && cs[i].taskId == t
  {
    var rest := d.(gate := d.gate.(cancellations := cs[1..]));
    if !cs[0].reporter && cs[0].taskId == t {
      ReporterIsMember(cs[1..]);
      assert forall i :: 1 <= i < |cs| ==> cs[i] == cs[1..][i - 1];
    } else {
      NonReporterIsNotReporter(cs[1..], rest, t);
      var i :| 0 <= i < |cs[1..]| && cs[1..][i].taskId == t;
      assert cs[i + 1].taskId == t;
    }
  }

  lemma ReporterIsMember(cs: seq<Cancellation>)
    ensures ReporterOf(cs).Some? ==> exists i :: 0 <= i < |cs| && cs[i] == ReporterOf(cs).value
  {
    if cs != [] && !cs[0].reporter { ReporterIsMember(cs[1..]); }
  }

  lemma FindTaskNames(cs: seq<Cancellation>, t: string)
    ensures FindTask(cs, t).Some? ==> FindTask(cs, t).value.taskId == t
  {
  }

  /** `wasCancelled` and `wasObserved` read exactly what the journal shows for the pending gate. */
  lemma FlagsAreRows(w: World, p: Pending, t: string)
    requires Linked(w.store)
    requires w.store.memory.activeGate.Some? && SameDirective(w.store.memory.activeGate.value, p.directive)
    ensures WasCancelled(w.store.memory, p.directive, t) <==> CancelledRow(w.store.rows, p.directive, t)
    ensures WasObserved(w.store.memory, p.directive) ==> ObservedRow(w.store.rows, p.directive)
    ensures GateKey(p.directive.receiptId, p.directive.gate.latchId) in w.store.memory.observations ==>
              ArrivedRow(w.store.rows, p.directive)
  {
    assert UnderGate(w.store.rows, Some(p.directive));
    CancelKeyIsRow(w.store.rows, p.directive, t);
    GateKeysAreRows(w.store.rows, p.directive);
  }

  lemma PendingUpdateSound(w: World, p: Pending)
    requires Sound(w) && PendingSound(w, p)
    ensures Sound(w.(pending := Some(p)))
  {
  }

  lemma KillOfSound(w: World, p: Pending, t: string)
    requires Sound(w) && PendingSound(w, p) && KillSound(Kill(t, p.directive, w.store.rows, w.coreObserved))
    ensures Sound(KillOf(w, p, t))
  {
  }

  lemma CancelMarks(s: Store, d: Directive, c: Cancellation, durable: bool)
    requires Succeeds(s, CancelCall(d, c), durable)
    ensures WasCancelled(Perform(s, CancelCall(d, c), durable).memory, d, c.taskId)
  {
    assert PlanOf(s.memory, CancelCall(d, c)) == Cancel(s.memory, d, c);
  }

  lemma ObserveMarks(s: Store, d: Directive, durable: bool)
    requires Succeeds(s, ObserveCall(d), durable)
    ensures WasObserved(Perform(s, ObserveCall(d), durable).memory, d)
  {
    assert PlanOf(s.memory, ObserveCall(d)) == ObserveReporter(s.memory, d);
  }

  /** The rows show a cancellation as soon as `markCancelled` returns. */
  lemma CancelCallSound(w: World, p: Pending, c: Cancellation, durable: bool)
    requires Sound(w) && w.pending == Some(p)
    ensures var after := w.(store := Perform(w.store, CancelCall(p.directive, c), durable));
            && Sound(after) && PendingSound(after, p)
            && (Succeeds(w.store, CancelCall(p.directive, c), durable) ==>
                  CancelledRow(after.store.rows, p.directive, c.taskId))
  {
    var call := CancelCall(p.directive, c);
    CallKeepsSound(w, call, durable);
    if Succeeds(w.store, call, durable) {
      CancelMarks(w.store, p.directive, c, durable);
      FlagsAreRows(w.(store := Perform(w.store, call, durable)), p, c.taskId);
    }
  }

  /** The rows show the observation as soon as `markObservationObserved` returns. */
  lemma ObserveCallSound(w: World, p: Pending, durable: bool)
    requires Sound(w) && w.pending == Some(p)
    ensures var after := w.(store := Perform(w.store, ObserveCall(p.directive), durable));
            && Sound(after) && PendingSound(after, p)
            && (Succeeds(w.store, ObserveCall(p.directive), durable) ==> ObservedRow(after.store.rows, p.directive))
  {
    var call := ObserveCall(p.directive);
    CallKeepsSound(w, call, durable);
    if Succeeds(w.store, call, durable) {
      ObserveMarks(w.store, p.directive, durable);
      FlagsAreRows(w.(store := Perform(w.store, call, durable)), p, "");
    }
  }

  lemma NonReporterStepSound(w: World, p: Pending)
    requires Sound(w) && w.pending == Some(p)
    ensures Sound(NonReporterStep(w, p))
  {
    var d := p.directive;
    var ids := NonReporterIds(d.gate.cancellations);
    if p.nonReporter.Next? && p.nonReporter.index < |ids| {
      var t := ids[p.nonReporter.index];
      FlagsAreRows(w, p, t);
      NonReporterIsNotReporter(d.gate.cancellations, d, t);
    }
  }

  lemma NonReporterAdvances(w: World, p: Pending, i: nat)
    requires Sound(w) && PendingSound(w, p) && p.nonReporter == Killing(i)
    requires i < |NonReporterIds(p.directive.gate.cancellations)|
    requires CancelledRow(w.store.rows, p.directive, NonReporterIds(p.directive.gate.cancellations)[i])
    ensures Sound(w.(pending := Some(p.(nonReporter := Next(i + 1)))))
  {
  }

  lemma NonReporterCancelSound(w: World, p: Pending, i: nat, c: Cancellation, durable: bool)
    requires Sound(w) && w.pending == Some(p) && p.nonReporter == Killing(i)
    requires i < |NonReporterIds(p.directive.gate.cancellations)|
    requires c.taskId == NonReporterIds(p.directive.gate.cancellations)[i]
    ensures var call := CancelCall(p.directive, c);
            var next := if Succeeds(w.store, call, durable) then Next(i + 1) else NoAttempt;
            Sound(w.(store := Perform(w.store, call, durable), pending := Some(p.(nonReporter := next))))
  {
    CancelCallSound(w, p, c, durable);
    var after := w.(store := Perform(w.store, CancelCall(p.directive, c), durable));
    if Succeeds(w.store, CancelCall(p.directive, c), durable) {
      NonReporterAdvances(after, p, i);
    } else {
      PendingUpdateSound(after, p.(nonReporter := NoAttempt));
    }
  }

  lemma NonReporterKillStepSound(w: World, p: Pending, ok: bool, durable: bool)
    requires Sound(w) && w.pending == Some(p)
    ensures Sound(NonReporterKillStep(w, p, ok, durable))
  {
    var ids := NonReporterIds(p.directive.gate.cancellations);
    if p.nonReporter.Killing? {
      PendingUpdateSound(w, p.(nonReporter := NoAttempt));
      var i := p.nonReporter.index;
      if ok && i < |ids| {
        var member := FindTask(p.directive.gate.cancellations, ids[i]);
        FindTaskNames(p.directive.gate.cancellations, ids[i]);
        if member.Some? {
          NonReporterCancelSound(w, p, i, member.value, durable);
        }
      }
    }
  }

  /** The reporter's kill is issued only here, and everything it must follow is in the journal. */
  lemma ReporterKillIsLast(w: World, p: Pending, t: string)
    requires Sound(w) && PendingSound(w, p) && p.reporter.Released? && ObservedRow(w.store.rows, p.directive)
    requires IsReporter(p.directive, t) && !WasCancelled(w.store.memory, p.directive, t)
    ensures KillSound(Kill(t, p.directive, w.store.rows, w.coreObserved))
  {
    FlagsAreRows(w, p, t);
  }

  lemma ReporterStepSound(w: World, p: Pending, durable: bool)
    requires Sound(w) && w.pending == Some(p)
    ensures Sound(ReporterStep(w, p, durable))
  {
    if p.reporter.Released? {
      var call := ObserveCall(p.directive);
      var after := w.(store := Perform(w.store, call, durable));
      ObserveCallSound(w, p, durable);
      var reporter := ReporterOf(p.directive.gate.cancellations);
      if !Succeeds(w.store, call, durable) || reporter.None? {
        PendingUpdateSound(after, p.(reporter := NoReporterAttempt));
      } else if WasCancelled(after.store.memory, p.directive, reporter.value.taskId) {
        FlagsAreRows(after, p, reporter.value.taskId);
        PendingUpdateSound(after, p.(reporter := NoReporterAttempt, reporterCancelled := true));
      } else {
        ReporterKillIsLast(after, p, reporter.value.taskId);
        KillOfSound(after, p.(reporter := KillingReporter), reporter.value.taskId);
      }
    } else if p.reporter.AwaitNonReporters? && p.nonReportersCancelled {
      PendingUpdateSound(w, p.(reporter := Released));
    }
  }

  lemma ReporterKillStepSound(w: World, p: Pending, ok: bool, durable: bool)
    requires Sound(w) && w.pending == Some(p)
    ensures Sound(ReporterKillStep(w, p, ok, durable))
  {
    var reporter := ReporterOf(p.directive.gate.cancellations);
    if p.reporter.KillingReporter? && ok && reporter.Some? {
      var call := CancelCall(p.directive, reporter.value);
      CancelCallSound(w, p, reporter.value, durable);
      PendingUpdateSound(w.(store := Perform(w.store, call, durable)),
                         p.(reporter := NoReporterAttempt, reporterCancelled := Succeeds(w.store, call, durable)));
    }
  }

  /** An accepted arrival is remembered under the key of its gate. */
  lemma ArrivalRemembered(s: Store, wire: Observation, directive: Directive, durable: bool)
    requires Succeeds(s, ArriveCall(wire, directive), durable)
    ensures var key, kept := GateKey(directive.receiptId, directive.gate.latchId),
                             Perform(s, ArriveCall(wire, directive), durable).memory.observations;
            key in kept && kept[key] == wire
  {
    assert PlanOf(s.memory, ArriveCall(wire, directive)) == ArriveObservation(s.memory, wire, directive);
  }

  lemma ArrivalSound(w: World, p: Pending, wire: Observation, attempt: ObservationAttempt)
    requires Sound(w) && PendingSound(w, p)
    requires ArrivedKept(w.store.memory, p.(arrived := Some(wire)))
    ensures PendingSound(w, p.(arrived := Some(wire), observation := attempt))
  {
    FlagsAreRows(w, p, "");
  }

  lemma ObserveStepSound(w: World, p: Pending, wire: Observation, durable: bool)
    requires Sound(w) && w.pending == Some(p)
    ensures Sound(ObserveStep(w, p, wire, durable))
  {
    var call := ArriveCall(wire, p.directive);
    var after := w.(store := Perform(w.store, call, durable));
    CallKeepsSound(w, call, durable);
    if Succeeds(w.store, call, durable) {
      ArrivalRemembered(w.store, wire, p.directive, durable);
      var attempt := if p.observation.NoObservation? then Started else p.observation;
      ArrivalSound(after, p, wire, attempt);
      PendingUpdateSound(after, p.(arrived := Some(wire), observation := attempt));
    }
  }

  lemma BeginSound(w: World, p: Pending)
    requires Sound(w) && PendingSound(w, p)
    ensures PendingSound(w, BeginNonReporters(p))
    ensures w.coreObserved ==> PendingSound(w, BeginReporter(p))
  {
  }

  lemma ObservationStepSound(w: World, p: Pending)
    requires Sound(w) && w.pending == Some(p)
    ensures Sound(ObservationStep(w, p))
  {
    BeginSound(w, p);
    match p.observation
    case Started => PendingUpdateSound(w, BeginNonReporters(p).(observation := AwaitDrained));
    case AwaitDrained => PendingUpdateSound(w, p.(observation := Forwarding));
    case AwaitReporter => PendingUpdateSound(w, p.(observation := NoObservation));
    case _ =>
  }

  lemma ControlStepSound(w: World, p: Pending, event: Event)
    requires Sound(w) && w.pending == Some(p)
    ensures Sound(ControlStep(w, p, event))
  {
    BeginSound(w, p);
    match event
    case CancelNonReporters => PendingUpdateSound(w, BeginNonReporters(p));
    case ReconcileObserved => if w.coreObserved { PendingUpdateSound(w, BeginReporter(p)); }
    case ReporterWaitFails => PendingUpdateSound(w, p.(reporter := NoReporterAttempt));
    case ObservationTurn => ObservationStepSound(w, p);
    case CoreAcknowledges =>
      if p.observation.Forwarding? && w.coreObserved {
        PendingUpdateSound(w, BeginReporter(p).(observation := AwaitReporter));
      }
    case ObservationFails => PendingUpdateSound(w, p.(observation := NoObservation));
    case _ =>
  }

  lemma PendingStepSound(w: World, event: Event)
    requires Sound(w) && w.pending.Some?
    ensures Sound(PendingStep(w, w.pending.value, event))
  {
    var p := w.pending.value;
    match event
    case NonReporterTurn => NonReporterStepSound(w, p);
    case NonReporterKilled(ok, durable) => NonReporterKillStepSound(w, p, ok, durable);
    case ReporterTurn(durable) => ReporterStepSound(w, p, durable);
    case ReporterKilled(ok, durable) => ReporterKillStepSound(w, p, ok, durable);
    case Observe(wire, durable) => ObserveStepSound(w, p, wire, durable);
    case _ => ControlStepSound(w, p, event);
  }

  /** A promoted gate is the active one, and its tasks are owned. */
  lemma PromoteMarks(s: Store, d: Directive, durable: bool)
    requires Succeeds(s, PromoteCall(d), durable)
    ensures var m := Perform(s, PromoteCall(d), durable).memory;
            m.activeGate.Some? && SameDirective(m.activeGate.value, d) && GateOwned(m.owned, d.gate)
  {
    assert PlanOf(s.memory, PromoteCall(d)) == Promote(s.memory, d);
  }

  lemma FreshSound(w: World, d: Directive)
    requires Sound(w) && GateOwned(w.store.memory.owned, d.gate)
    requires w.store.memory.activeGate.Some? && SameDirective(w.store.memory.activeGate.value, d)
    ensures Sound(w.(pending := Some(Pending(d, NoAttempt, false, NoReporterAttempt, false, NoObservation, None))))
  {
  }

  lemma AdmitStepSound(w: World, directive: Directive, durable: bool)
    requires Sound(w)
    ensures Sound(AdmitStep(w, directive, durable))
  {
    if w.pending.None? {
      var call := PromoteCall(directive);
      CallKeepsSound(w, call, durable);
      if Succeeds(w.store, call, durable) {
        PromoteMarks(w.store, directive, durable);
        FreshSound(w.(store := Perform(w.store, call, durable)), directive);
      }
    }
  }

  lemma RestartSound(w: World)
    requires Sound(w) && Step(w, Restart).Some?
    ensures Sound(Step(w, Restart).value)
  {
    var rows := w.store.rows;
    RestoreAllLinked(rows);
    if w.forwarded || w.coreObserved {
      var d := w.store.memory.activeGate.value;
      var i :| 0 <= i < |rows| && rows[i].ObservationArrived? && rows[i].receiptId == d.receiptId
               && rows[i].latchId == d.gate.latchId;
      assert GateRow(rows[i]);
    }
  }

  lemma StepSound(w: World, event: Event)
    requires Sound(w) && Step(w, event).Some?
    ensures Sound(Step(w, event).value)
  {
    match event
    case Admit(directive, durable) => AdmitStepSound(w, directive, durable);
    case Other(call, durable) => if Outside(call) { CallKeepsSound(w, call, durable); }
    case Restart => RestartSound(w);
    case CoreRecords =>
    case _ => if w.pending.Some? { PendingStepSound(w, event); }
  }

  /**
   * Reporter-last, over every interleaving and every restart: no kill follows
   * its task's cancellation row, and the reporter's kill follows every
   * non-reporter's row, Core's record of the observation, and the observed row.
   */
  lemma {:induction false} ReporterLast(events: seq<Event>)
    ensures Run(events).Some? ==>
              Sound(Run(events).value) &&
              forall i :: 0 <= i < |Run(events).value.kills| ==> KillSound(Run(events).value.kills[i])
  {
    if events != [] {
      ReporterLast(events[..|events| - 1]);
      if Run(events).Some? {
        StepSound(Run(events[..|events| - 1]).value, events[|events| - 1]);
      }
    }
  }

  /**
   * When `forwardObservation` completes, in any run, the journal shows a
   * cancellation of every task of the gate, the reporter's included.
   */
  lemma ObservationCompletes(events: seq<Event>)
    requires Run(events).Some? && Run(events).value.pending.Some?
    requires var w := Run(events).value;
             w.pending.value.observation.AwaitReporter? && ObservationStep(w, w.pending.value) != w
    ensures AllCancelled(Run(events).value.store.rows, Run(events).value.pending.value.directive)
  {
    ReporterLast(events);
  }
}

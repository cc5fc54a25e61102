/**
 * The Host ownership coordinator (src/ownership-journal.ts) on values: the rows
 * it appends, the memory it keeps, what each mutator plans to do, and how a row
 * is restored into memory when the journal is reopened.
 */
module Ownership {
  import opened Wrappers
  import opened Utf8

  datatype BgRun = BgRun(
    name: string, command: string, isAgent: bool, notifyOnCompletion: bool,
    triggerOnCompletion: bool, timeoutSeconds: Option<nat>)

  /** `descriptor` is the exact JSON text of the whole action. */
  datatype Action = Action(
    actionId: string, assignmentId: string, runRevision: nat, bgRun: BgRun, descriptor: string)

  /** `extra` stands for every snapshot member the journal does not keep. */
  datatype Task = Task(
    id: string, name: Option<string>, command: string, status: string, outputPath: string,
    isAgent: Option<bool>, notifyOnCompletion: Option<bool>, triggerOnCompletion: Option<bool>,
    timeoutSeconds: Option<nat>, extra: string)

  datatype Binding = Binding(
    task: Task, action: Action, acknowledged: bool, terminal: bool, terminalForwarded: bool)

  datatype Cancellation = Cancellation(
    taskId: string, actionId: string, assignmentId: string, reporter: bool)

  datatype Gate = Gate(latchId: string, runId: string, cancellations: seq<Cancellation>)

  datatype Directive = Directive(receiptId: string, gate: Gate, reporterObserved: bool)

  datatype Observation = Observation(
    token: string, runId: string, assignmentId: string, attempt: nat, receiptId: string,
    toolCallId: string)

  datatype Correlation = Correlation(
    taskId: string, actionId: string, assignmentId: string, runRevision: nat)

  /** The payload of one journal row, by row kind. */
  datatype Row =
    | Launch(task: Task, action: Action, actionId: string, assignmentId: string,
             runRevision: nat, acknowledged: bool)
    | LaunchAck(correlation: Correlation)
    | TerminalTombstone(correlation: Correlation, finalTask: Task, status: string)
    | TerminalForwarded(correlation: Correlation)
    | BlockedGate(receiptId: string, gate: Gate)
    | ObservationArrived(receiptId: string, latchId: string, observation: Observation)
    | ObservationObserved(receiptId: string, latchId: string)
    | BlockedCancelled(receiptId: string, latchId: string, cancellation: Cancellation)

  datatype Hold = Open | Provisional | Permanent

  datatype Memory = Memory(
    owned: map<string, Binding>, actionTasks: map<string, Binding>,
    cancellationRows: set<string>, observations: map<string, Observation>,
    observed: set<string>, activeGate: Option<Directive>, hold: Hold, activationHold: bool)

  const EMPTY_MEMORY := Memory(map[], map[], {}, map[], {}, None, Open, true)

  // ---------------------------------------------------------------- pure checks

  const MAX_RECORD_BYTES := 64 * 1024

  predicate ValidAction(action: Action) {
    && action.actionId != "" && action.assignmentId != "" && action.descriptor != ""
    && action.bgRun.name != "" && action.bgRun.command != ""
    && (action.bgRun.timeoutSeconds.Some? ==> action.bgRun.timeoutSeconds.value > 0)
  }

  predicate DescriptorAccepted(action: Action) {
    ValidAction(action) && |Encode(action.descriptor)| <= MAX_RECORD_BYTES
  }

  predicate TaskMatchesAction(task: Task, action: Action) {
    var run := action.bgRun;
    && task.command == run.command
    && (task.name.Some? ==> task.name.value == run.name)
    && (task.isAgent.Some? ==> task.isAgent.value == run.isAgent)
    && (task.notifyOnCompletion.Some? ==> task.notifyOnCompletion.value == run.notifyOnCompletion)
    && (task.triggerOnCompletion.Some? ==> task.triggerOnCompletion.value == run.triggerOnCompletion)
    && (task.timeoutSeconds.Some? ==> task.timeoutSeconds == run.timeoutSeconds)
  }

  /** The part of a task snapshot that a row keeps. */
  function Journaled(task: Task): Task {
    task.(extra := "")
  }

  predicate SameAction(left: Action, right: Action) {
    && left.actionId == right.actionId && left.assignmentId == right.assignmentId
    && left.runRevision == right.runRevision && left.descriptor == right.descriptor
  }

  predicate SameBinding(left: Binding, action: Action, task: Task) {
    SameAction(left.action, action) && Journaled(left.task) == Journaled(task)
  }

  predicate SameDirective(left: Directive, right: Directive) {
    left.receiptId == right.receiptId && left.gate == right.gate
  }

  predicate IsTerminalStatus(status: string) {
    status == "completed" || status == "failed" || status == "killed"
  }

  function GateKey(receiptId: string, latchId: string): string {
    receiptId + "\0" + latchId
  }

  function CancellationKey(receiptId: string, latchId: string, taskId: string): string {
    receiptId + "\0" + latchId + "\0" + taskId
  }

  function CorrelationOf(binding: Binding): Correlation {
    Correlation(binding.task.id, binding.action.actionId, binding.action.assignmentId,
                binding.action.runRevision)
  }

  predicate ValidDirective(directive: Directive) {
    directive.receiptId != "" && directive.gate.cancellations != []
  }

  predicate DistinctTasks(cancellations: seq<Cancellation>) {
    forall i, j :: 0 <= i < j < |cancellations| ==> cancellations[i].taskId != cancellations[j].taskId
  }

  function Reporters(cancellations: seq<Cancellation>): nat {
    if cancellations == [] then 0
    else (if cancellations[0].reporter then 1 else 0) + Reporters(cancellations[1..])
  }

  /** The gate names owned tasks, each once, and exactly one reporter. */
  predicate GateOwned(owned: map<string, Binding>, gate: Gate) {
    && DistinctTasks(gate.cancellations)
    && (forall i :: 0 <= i < |gate.cancellations| ==>
          var c := gate.cancellations[i];
          && c.taskId in owned
          && owned[c.taskId].action.actionId == c.actionId
          && owned[c.taskId].action.assignmentId == c.assignmentId)
    && Reporters(gate.cancellations) == 1
  }

  predicate HasActiveGate(m: Memory, receiptId: string, latchId: string) {
    m.activeGate.Some? && m.activeGate.value.receiptId == receiptId
    && m.activeGate.value.gate.latchId == latchId
  }

  function Install(m: Memory, binding: Binding): Memory {
    m.(owned := m.owned[binding.task.id := binding],
       actionTasks := m.actionTasks[binding.action.actionId := binding])
  }

  /** `replace` refuses when either map no longer holds `previous`. */
  predicate Replaceable(m: Memory, previous: Binding) {
    && previous.task.id in m.owned && m.owned[previous.task.id] == previous
    && previous.action.actionId in m.actionTasks && m.actionTasks[previous.action.actionId] == previous
  }

  predicate WasCancelled(m: Memory, directive: Directive, taskId: string) {
    CancellationKey(directive.receiptId, directive.gate.latchId, taskId) in m.cancellationRows
  }

  predicate WasObserved(m: Memory, directive: Directive) {
    GateKey(directive.receiptId, directive.gate.latchId) in m.observed
  }

  /** `assertOpen` passes, so `enterLaunch` hands out a flight. */
  predicate MayLaunch(m: Memory) {
    !m.activationHold && m.hold == Open
  }

  // ---------------------------------------------------------------- mutators

  /**
   * What a mutator does: it refuses, it settles without a row, or it appends
   * `row` and moves to `next` (to `onFailure` when the append throws).
   */
  datatype Plan =
    | Refused
    | Settled(next: Memory)
    | Write(row: Row, next: Memory, onFailure: Memory)

  function RegisterRun(m: Memory, action: Action, task: Task): Plan {
    if !TaskMatchesAction(task, action) || !DescriptorAccepted(action) then Refused
    else if task.id in m.owned then
      if SameBinding(m.owned[task.id], action, task) then Settled(m) else Refused
    else if action.actionId in m.actionTasks then
      var other := m.actionTasks[action.actionId];
      if other.action.descriptor == action.descriptor && other.task.id == task.id then Settled(m) else Refused
    else
      var next := Install(m, Binding(task, action, false, false, false));
      Write(Launch(Journaled(task), action, action.actionId, action.assignmentId, action.runRevision, false),
            next, next.(hold := Permanent))
  }

  /** Appends a correlation row for `binding`, then replaces it (`replace` can only throw after the append). */
  function WriteReplacing(m: Memory, binding: Binding, row: Row, next: Binding): Plan {
    Write(row, if Replaceable(m, binding) then Install(m, next) else m, m)
  }

  predicate ExactBinding(m: Memory, taskId: string, action: Action) {
    taskId in m.owned && SameAction(m.owned[taskId].action, action)
  }

  function Acknowledge(m: Memory, action: Action, task: Task): Plan {
    if !ExactBinding(m, task.id, action) then Refused
    else
      var binding := m.owned[task.id];
      if binding.acknowledged then Settled(m)
      else WriteReplacing(m, binding, LaunchAck(CorrelationOf(binding)), binding.(acknowledged := true))
  }

  function RecordTerminal(m: Memory, task: Task, action: Action): Plan {
    if !ExactBinding(m, task.id, action) then Refused
    else
      var binding := m.owned[task.id];
      if binding.terminal then Settled(m)
      else if !IsTerminalStatus(task.status) then Refused
      else WriteReplacing(m, binding,
                          TerminalTombstone(CorrelationOf(binding), Journaled(task), task.status),
                          binding.(task := task, terminal := true))
  }

  function ForwardTerminal(m: Memory, taskId: string): Plan {
    if taskId !in m.owned || !m.owned[taskId].terminal then Refused
    else
      var binding := m.owned[taskId];
      if binding.terminalForwarded then Settled(m)
      else WriteReplacing(m, binding, TerminalForwarded(CorrelationOf(binding)),
                          binding.(terminalForwarded := true))
  }

  function Promote(m: Memory, directive: Directive): Plan {
    if !ValidDirective(directive) || !GateOwned(m.owned, directive.gate) then Refused
    else if m.activeGate.Some? then
      if SameDirective(m.activeGate.value, directive) then Settled(m.(hold := Permanent)) else Refused
    else
      Write(BlockedGate(directive.receiptId, directive.gate),
            m.(activeGate := Some(directive.(reporterObserved := WasObserved(m, directive))),
               hold := Permanent),
            m)
  }

  function ArriveObservation(m: Memory, observation: Observation, directive: Directive): Plan {
    var key := GateKey(directive.receiptId, directive.gate.latchId);
    if observation.receiptId != directive.receiptId then Refused
    else if key in m.observations then
      if m.observations[key] == observation then Settled(m) else Refused
    else
      Write(ObservationArrived(directive.receiptId, directive.gate.latchId, observation),
            m.(observations := m.observations[key := observation]), m)
  }

  function ObserveReporter(m: Memory, directive: Directive): Plan {
    if WasObserved(m, directive) then Settled(m)
    else
      var gate := if m.activeGate.Some? && SameDirective(m.activeGate.value, directive)
                  then Some(m.activeGate.value.(reporterObserved := true)) else m.activeGate;
      Write(ObservationObserved(directive.receiptId, directive.gate.latchId),
            m.(observed := m.observed + {GateKey(directive.receiptId, directive.gate.latchId)},
               activeGate := gate),
            m)
  }

  /** `cancellations.find(item => item.task_id === taskId)` */
  function FindTask(cancellations: seq<Cancellation>, taskId: string): Option<Cancellation> {
    if cancellations == [] then None
    else if cancellations[0].taskId == taskId then Some(cancellations[0])
    else FindTask(cancellations[1..], taskId)
  }

  function Cancel(m: Memory, directive: Directive, cancellation: Cancellation): Plan {
    var key := CancellationKey(directive.receiptId, directive.gate.latchId, cancellation.taskId);
    if !GateOwned(m.owned, directive.gate) then Refused
    else if FindTask(directive.gate.cancellations, cancellation.taskId) != Some(cancellation) then Refused
    else if key in m.cancellationRows then Settled(m)
    else
      Write(BlockedCancelled(directive.receiptId, directive.gate.latchId, cancellation),
            m.(cancellationRows := m.cancellationRows + {key}), m)
  }

  /** `assertReconciled`: Core's records name exactly the durable gate. */
  predicate Reconciled(m: Memory, records: seq<Directive>) {
    && |records| <= 1
    && (m.activeGate.None? ==> records == [])
    && (m.activeGate.Some? ==>
          && |records| == 1 && SameDirective(m.activeGate.value, records[0])
          && (WasObserved(m, m.activeGate.value) ==> records[0].reporterObserved))
  }

  datatype Call =
    | RegisterCall(action: Action, task: Task)
    | AcknowledgeCall(action: Action, task: Task)
    | TerminalCall(task: Task, action: Action)
    | ForwardCall(taskId: string)
    | AcquireAdmission
    | ReleaseOnRetry
    | RetainFailClosed
    | PromoteCall(directive: Directive)
    | ArriveCall(observation: Observation, directive: Directive)
    | ObserveCall(directive: Directive)
    | CancelCall(directive: Directive, cancellation: Cancellation)
    | FinishActivation(records: seq<Directive>)

  function PlanOf(m: Memory, call: Call): Plan {
    match call
    case RegisterCall(action, task) => RegisterRun(m, action, task)
    case AcknowledgeCall(action, task) => Acknowledge(m, action, task)
    case TerminalCall(task, action) => RecordTerminal(m, task, action)
    case ForwardCall(taskId) => ForwardTerminal(m, taskId)
    case AcquireAdmission => Settled(if m.hold == Open then m.(hold := Provisional) else m)
    case ReleaseOnRetry => Settled(if m.hold == Provisional then m.(hold := Open) else m)
    case RetainFailClosed => Settled(if m.hold == Open then m.(hold := Provisional) else m)
    case PromoteCall(directive) => Promote(m, directive)
    case ArriveCall(observation, directive) => ArriveObservation(m, observation, directive)
    case ObserveCall(directive) => ObserveReporter(m, directive)
    case CancelCall(directive, cancellation) => Cancel(m, directive, cancellation)
    case FinishActivation(records) =>
      if Reconciled(m, records) then Settled(m.(activationHold := false)) else Refused
  }

  /** Memory and the rows made durable so far. */
  datatype Store = Store(memory: Memory, rows: seq<Row>)

  const EMPTY_STORE := Store(EMPTY_MEMORY, [])

  /** `durable` says whether the append, if there is one, succeeds. */
  function Perform(s: Store, call: Call, durable: bool): Store {
    Execute(s, PlanOf(s.memory, call), durable)
  }

  function Execute(s: Store, plan: Plan, durable: bool): Store {
    match plan
    case Refused => s
    case Settled(next) => s.(memory := next)
    case Write(row, next, onFailure) =>
      if durable then Store(next, s.rows + [row]) else s.(memory := onFailure)
  }

  /** The call returns instead of throwing. */
  predicate Succeeds(s: Store, call: Call, durable: bool) {
    var plan := PlanOf(s.memory, call);
    plan.Settled? || (plan.Write? && durable)
  }

  // ---------------------------------------------------------------- reopening

  /** `textField` throws on an empty string; these are the row texts it reads. */
  predicate TextPresent(row: Row) {
    match row
    case Launch(_, action, actionId, assignmentId, _, _) =>
      action.descriptor != "" && actionId != "" && assignmentId != ""
    case LaunchAck(c) => CorrelationPresent(c)
    case TerminalTombstone(c, _, status) => CorrelationPresent(c) && status != ""
    case TerminalForwarded(c) => CorrelationPresent(c)
    case BlockedGate(receiptId, _) => receiptId != ""
    case ObservationArrived(receiptId, latchId, _) => receiptId != "" && latchId != ""
    case ObservationObserved(receiptId, latchId) => receiptId != "" && latchId != ""
    case BlockedCancelled(receiptId, latchId, c) =>
      receiptId != "" && latchId != "" && c.taskId != "" && c.actionId != "" && c.assignmentId != ""
  }

  predicate CorrelationPresent(c: Correlation) {
    c.taskId != "" && c.actionId != "" && c.assignmentId != ""
  }

  predicate Correlated(m: Memory, c: Correlation) {
    c.taskId in m.owned && CorrelationOf(m.owned[c.taskId]).(taskId := c.taskId) == c
  }

  function Replaced(m: Memory, previous: Binding, next: Binding): Option<Memory> {
    if Replaceable(m, previous) then Some(Install(m, next)) else None
  }

  /** `restore`: one journaled row applied to memory, or None where it throws. */
  function Restore(m: Memory, row: Row): Option<Memory> {
    if !TextPresent(row) then None else
    match row
    case Launch(task, action, actionId, assignmentId, runRevision, acknowledged) =>
      if !ValidAction(action) || actionId != action.actionId || assignmentId != action.assignmentId
         || runRevision != action.runRevision || acknowledged
         || task.id in m.owned || action.actionId in m.actionTasks then None
      else Some(Install(m, Binding(task, action, false, false, false)))
    case LaunchAck(c) =>
      if !Correlated(m, c) || m.owned[c.taskId].acknowledged then None
      else Replaced(m, m.owned[c.taskId], m.owned[c.taskId].(acknowledged := true))
    case TerminalTombstone(c, task, status) =>
      if !Correlated(m, c) || m.owned[c.taskId].terminal || task.id != m.owned[c.taskId].task.id
         || task.status != status || !IsTerminalStatus(task.status) then None
      else Replaced(m, m.owned[c.taskId], m.owned[c.taskId].(task := task, terminal := true))
    case TerminalForwarded(c) =>
      if !Correlated(m, c) || !m.owned[c.taskId].terminal || m.owned[c.taskId].terminalForwarded then None
      else Replaced(m, m.owned[c.taskId], m.owned[c.taskId].(terminalForwarded := true))
    case BlockedGate(receiptId, gate) =>
      var directive := Directive(receiptId, gate, false);
      if !ValidDirective(directive) || !GateOwned(m.owned, gate) || m.activeGate.Some? then None
      else Some(m.(activeGate := Some(directive), hold := Permanent))
    case ObservationArrived(receiptId, latchId, observation) =>
      var key := GateKey(receiptId, latchId);
      if !HasActiveGate(m, receiptId, latchId) || observation.receiptId != receiptId
         || key in m.observations then None
      else Some(m.(observations := m.observations[key := observation]))
    case ObservationObserved(receiptId, latchId) =>
      var key := GateKey(receiptId, latchId);
      if !HasActiveGate(m, receiptId, latchId) || key in m.observed then None
      else Some(m.(observed := m.observed + {key},
                   activeGate := Some(m.activeGate.value.(reporterObserved := true))))
    case BlockedCancelled(receiptId, latchId, cancellation) =>
      var key := CancellationKey(receiptId, latchId, cancellation.taskId);
      if !HasActiveGate(m, receiptId, latchId)
         || FindTask(m.activeGate.value.gate.cancellations, cancellation.taskId) != Some(cancellation)
         || key in m.cancellationRows then None
      else Some(m.(cancellationRows := m.cancellationRows + {key}))
  }

  /** The coordinator's constructor: every row of the journal, in order. */
  function RestoreAll(rows: seq<Row>): Option<Memory> {
    if rows == [] then Some(EMPTY_MEMORY)
    else
      var before := RestoreAll(rows[..|rows| - 1]);
      if before.None? then None else Restore(before.value, rows[|rows| - 1])
  }
}

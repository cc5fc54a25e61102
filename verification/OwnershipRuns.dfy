/**
 * Whole runs of the ownership coordinator: exactly when the journal rebuilds the
 * memory that wrote it, and that a durable blocked gate never lets a launch in
 * again.
 */
module OwnershipRuns {
  import opened Wrappers
  import opened Ownership

  // ---------------------------------------------------------------- what rows keep

  /** The tasks whose launch row is durable. An owned task can lack one: its append failed. */
  function Launched(rows: seq<Row>): set<string> {
    set i | 0 <= i < |rows| && rows[i].Launch? :: rows[i].task.id
  }

  function LaunchedBy(row: Row): set<string> {
    if row.Launch? then {row.task.id} else {}
  }

  lemma LaunchedAppend(rows: seq<Row>, row: Row)
    ensures Launched(rows + [row]) == Launched(rows) + LaunchedBy(row)
  {
    var all := rows + [row];
    assert forall i :: 0 <= i < |rows| ==> all[i] == rows[i];
    assert all[|rows|] == row;
    forall t | t in Launched(rows) ensures t in Launched(all) {
      var i :| 0 <= i < |rows| && rows[i].Launch? && rows[i].task.id == t;
      assert all[i].Launch?;
    }
  }

  function JournaledBinding(b: Binding): Binding {
    b.(task := Journaled(b.task))
  }

  function JournaledMap(bindings: map<string, Binding>, launched: set<string>): map<string, Binding> {
    map k | k in bindings && bindings[k].task.id in launched :: JournaledBinding(bindings[k])
  }

  /** Memory without what rows do not keep: lost launches, extra snapshot members, scheduling holds. */
  function Durable(m: Memory, launched: set<string>): Memory {
    m.(owned := JournaledMap(m.owned, launched), actionTasks := JournaledMap(m.actionTasks, launched),
       hold := if m.activeGate.Some? then Permanent else Open, activationHold := true)
  }

  // ---------------------------------------------------------------- invariants

  /** `owned` and `actionTasks` hold the same bindings, keyed both ways. */
  ghost predicate MutualInverse(owned: map<string, Binding>, actionTasks: map<string, Binding>) {
    && (forall t :: t in owned ==>
          var b := owned[t];
          b.task.id == t && b.action.actionId in actionTasks && actionTasks[b.action.actionId] == b)
    && (forall a :: a in actionTasks ==>
          var b := actionTasks[a];
          b.action.actionId == a && b.task.id in owned && owned[b.task.id] == b)
  }

  ghost predicate ActionsValid(owned: map<string, Binding>) {
    forall t :: t in owned ==> ValidAction(owned[t].action)
  }

  /** Every task of the gate has its launch row. */
  predicate GateLaunched(gate: Gate, launched: set<string>) {
    forall i :: 0 <= i < |gate.cancellations| ==> gate.cancellations[i].taskId in launched
  }

  ghost predicate GateSound(m: Memory, launched: set<string>) {
    match m.activeGate
    case None => m.observations == map[] && m.observed == {} && m.cancellationRows == {}
    case Some(d) =>
      && m.hold == Permanent && ValidDirective(d) && GateOwned(m.owned, d.gate) && GateLaunched(d.gate, launched)
      && d.reporterObserved == WasObserved(m, d)
  }

  ghost predicate Inv(m: Memory, launched: set<string>) {
    && MutualInverse(m.owned, m.actionTasks) && ActionsValid(m.owned) && launched <= m.owned.Keys
    && GateSound(m, launched)
  }

  // ---------------------------------------------------------------- the durable part of an update

  lemma JournaledUpdate(bindings: map<string, Binding>, key: string, b: Binding, launched: set<string>)
    requires b.task.id in launched
    ensures JournaledMap(bindings[key := b], launched) == JournaledMap(bindings, launched)[key := JournaledBinding(b)]
  {
  }

  lemma JournaledSkip(bindings: map<string, Binding>, key: string, b: Binding, launched: set<string>)
    requires key !in bindings && b.task.id !in launched
    ensures JournaledMap(bindings[key := b], launched) == JournaledMap(bindings, launched)
  {
  }

  lemma JournaledMore(bindings: map<string, Binding>, launched: set<string>, t: string)
    requires forall k :: k in bindings ==> bindings[k].task.id != t
    ensures JournaledMap(bindings, launched + {t}) == JournaledMap(bindings, launched)
  {
  }

  lemma JournaledTwice(bindings: map<string, Binding>, launched: set<string>)
    ensures JournaledMap(JournaledMap(bindings, launched), launched) == JournaledMap(bindings, launched)
  {
  }

  lemma DurableInstall(m: Memory, b: Binding, launched: set<string>)
    requires b.task.id in launched
    ensures Durable(Install(m, b), launched) == Install(Durable(m, launched), JournaledBinding(b))
  {
    JournaledUpdate(m.owned, b.task.id, b, launched);
    JournaledUpdate(m.actionTasks, b.action.actionId, b, launched);
  }

  /** Naming a task nobody owns changes nothing durable. */
  lemma DurableMore(m: Memory, launched: set<string>, t: string)
    requires MutualInverse(m.owned, m.actionTasks) && t !in m.owned
    ensures Durable(m, launched + {t}) == Durable(m, launched)
  {
    JournaledMore(m.owned, launched, t);
    JournaledMore(m.actionTasks, launched, t);
  }

  /** A launch whose append failed is not part of what is durable. */
  lemma DurableLost(m: Memory, b: Binding, launched: set<string>)
    requires b.task.id !in m.owned && b.action.actionId !in m.actionTasks && b.task.id !in launched
    ensures Durable(Install(m, b).(hold := Permanent), launched) == Durable(m, launched)
  {
    JournaledSkip(m.owned, b.task.id, b, launched);
    JournaledSkip(m.actionTasks, b.action.actionId, b, launched);
  }

  /** A gate of owned tasks is owned by what is durable exactly when every task of it has its launch row. */
  lemma JournaledGate(owned: map<string, Binding>, gate: Gate, launched: set<string>)
    requires GateOwned(owned, gate) && forall t :: t in owned ==> owned[t].task.id == t
    ensures GateOwned(JournaledMap(owned, launched), gate) <==> GateLaunched(gate, launched)
  {
    var kept := JournaledMap(owned, launched);
    forall i | 0 <= i < |gate.cancellations|
      ensures gate.cancellations[i].taskId in kept <==> gate.cancellations[i].taskId in launched
    {
      assert gate.cancellations[i].taskId in owned;
    }
  }

  lemma InstallKeepsInverse(m: Memory, b: Binding)
    requires MutualInverse(m.owned, m.actionTasks)
    requires (b.task.id !in m.owned && b.action.actionId !in m.actionTasks)
             || (b.task.id in m.owned && m.owned[b.task.id].action.actionId == b.action.actionId)
    ensures var next := Install(m, b); MutualInverse(next.owned, next.actionTasks)
  {
  }

  /** A gate stays owned when a task is added, or rebound to the same action. */
  lemma InstallKeepsGate(m: Memory, b: Binding, gate: Gate)
    requires GateOwned(m.owned, gate)
    requires b.task.id in m.owned ==> m.owned[b.task.id].action == b.action
    ensures GateOwned(Install(m, b).owned, gate)
  {
  }

  lemma InstallKeepsInv(m: Memory, b: Binding, launched: set<string>, after: set<string>)
    requires Inv(m, launched) && ValidAction(b.action) && launched <= after <= launched + {b.task.id}
    requires (b.task.id !in m.owned && b.action.actionId !in m.actionTasks)
             || (b.task.id in m.owned && m.owned[b.task.id].action == b.action)
    ensures Inv(Install(m, b), after)
  {
    InstallKeepsInverse(m, b);
    if m.activeGate.Some? {
      InstallKeepsGate(m, b, m.activeGate.value.gate);
    }
  }

  /** An update that leaves the bindings alone keeps the invariant if it keeps the gate sound. */
  lemma BesideBindings(m: Memory, next: Memory, launched: set<string>)
    requires Inv(m, launched) && next.owned == m.owned && next.actionTasks == m.actionTasks && GateSound(next, launched)
    ensures Inv(next, launched)
  {
  }

  lemma DurableBinding(m: Memory, launched: set<string>, t: string)
    requires Inv(m, launched)
    ensures t in Durable(m, launched).owned <==> t in launched
    ensures t in launched ==>
              && Durable(m, launched).owned[t] == JournaledBinding(m.owned[t])
              && Replaceable(Durable(m, launched), JournaledBinding(m.owned[t]))
  {
  }

  // ---------------------------------------------------------------- which rows restore

  /**
   * The call's row restores to the durable state after the call: the ids it
   * writes are not empty, every task it names has its launch row, and a call for
   * a gate names the active one (all of it where the live memory compares all of
   * it). All of it is known before the call.
   */
  predicate Clean(m: Memory, launched: set<string>, call: Call) {
    match call
    case AcknowledgeCall(_, task) => task.id != "" && task.id in launched
    case TerminalCall(task, _) => task.id != "" && task.id in launched
    case ForwardCall(taskId) => taskId != "" && taskId in launched
    case PromoteCall(directive) => GateLaunched(directive.gate, launched)
    case ArriveCall(_, d) => d.gate.latchId != "" && HasActiveGate(m, d.receiptId, d.gate.latchId)
    case ObserveCall(d) => d.gate.latchId != "" && m.activeGate.Some? && SameDirective(m.activeGate.value, d)
    case CancelCall(d, c) =>
      && d.gate.latchId != "" && c.taskId != "" && HasActiveGate(m, d.receiptId, d.gate.latchId)
      && FindTask(m.activeGate.value.gate.cancellations, c.taskId) == Some(c)
    case _ => true
  }

  /** The call's row can be restored at all. */
  predicate Readable(m: Memory, launched: set<string>, call: Call) {
    if call.ObserveCall? then
      call.directive.gate.latchId != "" && HasActiveGate(m, call.directive.receiptId, call.directive.gate.latchId)
    else Clean(m, launched, call)
  }

  /**
   * A plan keeps the invariant whenever its append fails, and when its row is
   * clean; the row restores at all iff readable, and to what is durable after
   * the call iff clean.
   */
  ghost predicate PlanExact(m: Memory, launched: set<string>, plan: Plan, readable: bool, clean: bool) {
    match plan
    case Refused => true
    case Settled(next) => Inv(next, launched) && Durable(next, launched) == Durable(m, launched)
    case Write(row, next, onFailure) =>
      var after := launched + LaunchedBy(row);
      && Inv(onFailure, launched) && Durable(onFailure, launched) == Durable(m, launched)
      && (clean ==> Inv(next, after))
      && (Restore(Durable(m, launched), row).Some? <==> readable)
      && (Restore(Durable(m, launched), row) == Some(Durable(next, after)) <==> clean)
  }

  function LaunchRow(b: Binding): Row {
    Launch(Journaled(b.task), b.action, b.action.actionId, b.action.assignmentId, b.action.runRevision, false)
  }

  lemma LaunchRestores(m: Memory, launched: set<string>, b: Binding)
    requires MutualInverse(m.owned, m.actionTasks) && launched <= m.owned.Keys && ValidAction(b.action)
    requires b.task.id !in m.owned && b.action.actionId !in m.actionTasks
    requires !b.acknowledged && !b.terminal && !b.terminalForwarded
    ensures Restore(Durable(m, launched), LaunchRow(b)) == Some(Durable(Install(m, b), launched + {b.task.id}))
    ensures Durable(Install(m, b).(hold := Permanent), launched) == Durable(m, launched)
  {
    DurableLost(m, b, launched);
    DurableMore(m, launched, b.task.id);
    DurableInstall(m, b, launched + {b.task.id});
  }

  lemma LaunchExact(m: Memory, launched: set<string>, b: Binding)
    requires Inv(m, launched) && ValidAction(b.action)
    requires b.task.id !in m.owned && b.action.actionId !in m.actionTasks
    requires !b.acknowledged && !b.terminal && !b.terminalForwarded
    ensures PlanExact(m, launched, Write(LaunchRow(b), Install(m, b), Install(m, b).(hold := Permanent)), true, true)
  {
    InstallKeepsInv(m, b, launched, launched);
    InstallKeepsInv(m, b, launched, launched + {b.task.id});
    BesideBindings(Install(m, b), Install(m, b).(hold := Permanent), launched);
    LaunchRestores(m, launched, b);
  }

  lemma RegisterExact(m: Memory, launched: set<string>, action: Action, task: Task)
    requires Inv(m, launched)
    ensures PlanExact(m, launched, RegisterRun(m, action, task), true, true)
  {
    if RegisterRun(m, action, task).Write? {
      LaunchExact(m, launched, Binding(task, action, false, false, false));
    }
  }

  lemma ReplacedRestores(m: Memory, launched: set<string>, t: string, b: Binding)
    requires Inv(m, launched) && t in launched && b.task.id == t && b.action == m.owned[t].action
    ensures Replaced(Durable(m, launched), JournaledBinding(m.owned[t]), JournaledBinding(b))
            == Some(Durable(Install(m, b), launched))
  {
    DurableBinding(m, launched, t);
    DurableInstall(m, b, launched);
  }

  /** The common part of acknowledgement, tombstone and forwarded rows. */
  lemma ReplacingExact(m: Memory, launched: set<string>, t: string, row: Row, b: Binding)
    requires Inv(m, launched) && t in m.owned && b.task.id == t && b.action == m.owned[t].action && !row.Launch?
    requires t !in launched || t == "" ==> Restore(Durable(m, launched), row) == None
    requires t in launched && t != "" ==>
               Restore(Durable(m, launched), row)
               == Replaced(Durable(m, launched), JournaledBinding(m.owned[t]), JournaledBinding(b))
    ensures PlanExact(m, launched, WriteReplacing(m, m.owned[t], row, b), t != "" && t in launched,
                      t != "" && t in launched)
  {
    var plan := WriteReplacing(m, m.owned[t], row, b);
    assert plan == Write(row, Install(m, b), m) by {
      assert Replaceable(m, m.owned[t]);
    }
    assert launched + LaunchedBy(row) == launched;
    InstallKeepsInv(m, b, launched, launched);
    if t in launched {
      ReplacedRestores(m, launched, t, b);
    }
  }

  lemma AcknowledgeExact(m: Memory, launched: set<string>, action: Action, task: Task)
    requires Inv(m, launched)
    ensures var clean := Clean(m, launched, AcknowledgeCall(action, task));
            PlanExact(m, launched, Acknowledge(m, action, task), clean, clean)
  {
    if Acknowledge(m, action, task).Write? {
      var old_ := m.owned[task.id];
      DurableBinding(m, launched, task.id);
      ReplacingExact(m, launched, task.id, LaunchAck(CorrelationOf(old_)), old_.(acknowledged := true));
    }
  }

  lemma TerminalExact(m: Memory, launched: set<string>, task: Task, action: Action)
    requires Inv(m, launched)
    ensures var clean := Clean(m, launched, TerminalCall(task, action));
            PlanExact(m, launched, RecordTerminal(m, task, action), clean, clean)
  {
    if RecordTerminal(m, task, action).Write? {
      var old_ := m.owned[task.id];
      DurableBinding(m, launched, task.id);
      ReplacingExact(m, launched, task.id, TerminalTombstone(CorrelationOf(old_), Journaled(task), task.status),
                     old_.(task := task, terminal := true));
    }
  }

  lemma ForwardExact(m: Memory, launched: set<string>, taskId: string)
    requires Inv(m, launched)
    ensures var clean := Clean(m, launched, ForwardCall(taskId));
            PlanExact(m, launched, ForwardTerminal(m, taskId), clean, clean)
  {
    if ForwardTerminal(m, taskId).Write? {
      var old_ := m.owned[taskId];
      DurableBinding(m, launched, taskId);
      ReplacingExact(m, launched, taskId, TerminalForwarded(CorrelationOf(old_)), old_.(terminalForwarded := true));
    }
  }

  lemma PromoteRestores(m: Memory, launched: set<string>, directive: Directive)
    requires Promote(m, directive).Write? && m.observed == {} && forall t :: t in m.owned ==> m.owned[t].task.id == t
    ensures var plan, clean := Promote(m, directive), GateLaunched(directive.gate, launched);
            && (Restore(Durable(m, launched), plan.row).Some? <==> clean)
            && (Restore(Durable(m, launched), plan.row) == Some(Durable(plan.next, launched)) <==> clean)
  {
    JournaledGate(m.owned, directive.gate, launched);
  }

  lemma PromoteExact(m: Memory, launched: set<string>, directive: Directive)
    requires Inv(m, launched)
    ensures var clean := Clean(m, launched, PromoteCall(directive));
            PlanExact(m, launched, Promote(m, directive), clean, clean)
  {
    var plan := Promote(m, directive);
    if plan.Write? {
      PromoteRestores(m, launched, directive);
      assert launched + {} == launched;
      if GateLaunched(directive.gate, launched) {
        BesideBindings(m, plan.next, launched);
      }
    }
  }

  lemma ArriveExact(m: Memory, launched: set<string>, observation: Observation, directive: Directive)
    requires Inv(m, launched)
    ensures var clean := Clean(m, launched, ArriveCall(observation, directive));
            PlanExact(m, launched, ArriveObservation(m, observation, directive), clean, clean)
  {
    assert launched + {} == launched;
  }

  lemma ObserveRestores(m: Memory, launched: set<string>, d: Directive)
    requires ObserveReporter(m, d).Write?
    requires m.activeGate.Some? ==>
               ValidDirective(m.activeGate.value) && m.activeGate.value.reporterObserved == WasObserved(m, m.activeGate.value)
    ensures var plan, call := ObserveReporter(m, d), ObserveCall(d);
            && (Restore(Durable(m, launched), plan.row).Some? <==> Readable(m, launched, call))
            && (Restore(Durable(m, launched), plan.row) == Some(Durable(plan.next, launched)) <==> Clean(m, launched, call))
  {
  }

  lemma ObserveExact(m: Memory, launched: set<string>, directive: Directive)
    requires Inv(m, launched)
    ensures var call := ObserveCall(directive);
            PlanExact(m, launched, ObserveReporter(m, directive), Readable(m, launched, call), Clean(m, launched, call))
  {
    var plan := ObserveReporter(m, directive);
    if plan.Write? {
      ObserveRestores(m, launched, directive);
      assert launched + {} == launched;
      if Clean(m, launched, ObserveCall(directive)) {
        BesideBindings(m, plan.next, launched);
      }
    }
  }

  lemma FindTaskMember(cancellations: seq<Cancellation>, taskId: string)
    ensures FindTask(cancellations, taskId).Some? ==>
              exists i :: 0 <= i < |cancellations| && cancellations[i] == FindTask(cancellations, taskId).value
                          && cancellations[i].taskId == taskId
  {
    if cancellations != [] && cancellations[0].taskId != taskId {
      FindTaskMember(cancellations[1..], taskId);
    }
  }

  lemma CancelRestores(m: Memory, launched: set<string>, d: Directive, c: Cancellation)
    requires Cancel(m, d, c).Write? && c.actionId != "" && c.assignmentId != ""
    requires m.activeGate.Some? ==> ValidDirective(m.activeGate.value)
    ensures var plan, clean := Cancel(m, d, c), Clean(m, launched, CancelCall(d, c));
            && (Restore(Durable(m, launched), plan.row).Some? <==> clean)
            && (Restore(Durable(m, launched), plan.row) == Some(Durable(plan.next, launched)) <==> clean)
  {
  }

  lemma CancelExact(m: Memory, launched: set<string>, directive: Directive, c: Cancellation)
    requires Inv(m, launched)
    ensures var clean := Clean(m, launched, CancelCall(directive, c));
            PlanExact(m, launched, Cancel(m, directive, c), clean, clean)
  {
    var plan := Cancel(m, directive, c);
    if plan.Write? {
      FindTaskMember(directive.gate.cancellations, c.taskId);
      assert c.taskId in m.owned && ValidAction(m.owned[c.taskId].action);
      CancelRestores(m, launched, directive, c);
      assert launched + {} == launched;
      if Clean(m, launched, CancelCall(directive, c)) {
        BesideBindings(m, plan.next, launched);
      }
    }
  }

  lemma HoldExact(m: Memory, launched: set<string>, hold: Hold, activationHold: bool)
    requires Inv(m, launched) && (m.hold == Permanent ==> hold == Permanent)
    ensures PlanExact(m, launched, Settled(m.(hold := hold, activationHold := activationHold)), true, true)
  {
  }

  /**
   * One call, whatever it names and whether or not launches were lost: its row
   * restores at all iff readable, and to the durable state after it iff clean.
   */
  lemma CallExact(m: Memory, launched: set<string>, call: Call)
    requires Inv(m, launched)
    ensures PlanExact(m, launched, PlanOf(m, call), Readable(m, launched, call), Clean(m, launched, call))
  {
    match call
    case RegisterCall(action, task) => RegisterExact(m, launched, action, task);
    case AcknowledgeCall(action, task) => AcknowledgeExact(m, launched, action, task);
    case TerminalCall(task, action) => TerminalExact(m, launched, task, action);
    case ForwardCall(taskId) => ForwardExact(m, launched, taskId);
    case PromoteCall(directive) => PromoteExact(m, launched, directive);
    case ArriveCall(observation, directive) => ArriveExact(m, launched, observation, directive);
    case ObserveCall(directive) => ObserveExact(m, launched, directive);
    case CancelCall(directive, cancellation) => CancelExact(m, launched, directive, cancellation);
    case AcquireAdmission => HoldExact(m, launched, if m.hold == Open then Provisional else m.hold, m.activationHold);
    case ReleaseOnRetry => HoldExact(m, launched, if m.hold == Provisional then Open else m.hold, m.activationHold);
    case RetainFailClosed => HoldExact(m, launched, if m.hold == Open then Provisional else m.hold, m.activationHold);
    case FinishActivation(_) => HoldExact(m, launched, m.hold, false);
  }

  // ---------------------------------------------------------------- runs with restarts

  /** A coordinator call whose append does or does not reach the disk, or a process restart. */
  datatype Event = Do(call: Call, durable: bool) | Restart

  /** A restart keeps only the rows; None means `open` threw and no coordinator exists. */
  function Step(s: Store, event: Event): Option<Store> {
    match event
    case Do(call, durable) => Some(Perform(s, call, durable))
    case Restart =>
      var restored := RestoreAll(s.rows);
      if restored.Some? then Some(Store(restored.value, s.rows)) else None
  }

  function Run(events: seq<Event>): Option<Store> {
    if events == [] then Some(EMPTY_STORE)
    else
      var before := Run(events[..|events| - 1]);
      if before.None? then None else Step(before.value, events[|events| - 1])
  }

  lemma RestoreAppend(rows: seq<Row>, row: Row)
    ensures RestoreAll(rows + [row]) ==
            if RestoreAll(rows).None? then None else Restore(RestoreAll(rows).value, row)
  {
    assert (rows + [row])[..|rows|] == rows;
  }

  /** Reopening the journal now gives back everything durable. */
  predicate Restores(s: Store) {
    RestoreAll(s.rows) == Some(Durable(s.memory, Launched(s.rows)))
  }

  /** The event appends no row, or a clean one. */
  predicate CleanEvent(s: Store, event: Event) {
    event.Do? && event.durable && PlanOf(s.memory, event.call).Write? ==>
      Clean(s.memory, Launched(s.rows), event.call)
  }

  /** Every row of the run was clean when it was appended. */
  predicate CleanRun(events: seq<Event>) {
    events == [] ||
    (var before := events[..|events| - 1];
     CleanRun(before) && Run(before).Some? && CleanEvent(Run(before).value, events[|events| - 1]))
  }

  ghost predicate SoundStore(s: Store) {
    Inv(s.memory, Launched(s.rows)) && Restores(s)
  }

  lemma PerformExact(s: Store, call: Call, durable: bool)
    requires SoundStore(s)
    ensures Restores(Perform(s, call, durable)) <==> CleanEvent(s, Do(call, durable))
    ensures CleanEvent(s, Do(call, durable)) ==> SoundStore(Perform(s, call, durable))
  {
    var launched := Launched(s.rows);
    CallExact(s.memory, launched, call);
    var plan := PlanOf(s.memory, call);
    if plan.Write? && durable {
      RestoreAppend(s.rows, plan.row);
      LaunchedAppend(s.rows, plan.row);
    }
  }

  lemma JournaledInverse(owned: map<string, Binding>, actionTasks: map<string, Binding>, launched: set<string>)
    requires MutualInverse(owned, actionTasks) && ActionsValid(owned) && launched <= owned.Keys
    ensures var kept := JournaledMap(owned, launched);
            MutualInverse(kept, JournaledMap(actionTasks, launched)) && ActionsValid(kept) && kept.Keys == launched
  {
  }

  lemma DurableInv(m: Memory, launched: set<string>)
    requires Inv(m, launched)
    ensures Inv(Durable(m, launched), launched) && Durable(Durable(m, launched), launched) == Durable(m, launched)
  {
    JournaledInverse(m.owned, m.actionTasks, launched);
    JournaledTwice(m.owned, launched);
    JournaledTwice(m.actionTasks, launched);
    if m.activeGate.Some? {
      JournaledGate(m.owned, m.activeGate.value.gate, launched);
    }
  }

  ghost predicate RestoresAt(events: seq<Event>) {
    Run(events).Some? && Restores(Run(events).value)
  }

  /** At every point of the run, reopening the journal succeeds and rebuilds the live durable state. */
  ghost predicate RestoresThroughout(events: seq<Event>) {
    forall k :: 0 <= k <= |events| ==> RestoresAt(events[..k])
  }

  lemma {:induction false} CleanRunSound(events: seq<Event>)
    requires CleanRun(events)
    ensures Run(events).Some? && SoundStore(Run(events).value)
  {
    if events == [] {
      assert Durable(EMPTY_MEMORY, {}) == EMPTY_MEMORY;
    } else {
      var n := |events| - 1;
      CleanRunSound(events[..n]);
      var s := Run(events[..n]).value;
      match events[n]
      case Do(call, durable) => PerformExact(s, call, durable);
      case Restart => DurableInv(s.memory, Launched(s.rows));
    }
  }

  lemma StepRestoresIffClean(events: seq<Event>)
    requires events != [] && CleanRun(events[..|events| - 1])
    ensures CleanRun(events) <==> RestoresAt(events)
  {
    var n := |events| - 1;
    CleanRunSound(events[..n]);
    var s := Run(events[..n]).value;
    match events[n]
    case Do(call, durable) => PerformExact(s, call, durable);
    case Restart => CleanRunSound(events);
  }

  /**
   * Journal refinement, exactly. For every run, with failed appends, lost
   * launches, restarts and calls for any gate: reopening the journal succeeds
   * and rebuilds the ownership, acknowledgement, terminal, gate, observation and
   * cancellation state of the live coordinator at every point of the run, iff
   * every row was clean when it was appended.
   */
  lemma {:induction false} JournalRestoresIffClean(events: seq<Event>)
    ensures CleanRun(events) <==> RestoresThroughout(events)
  {
    if events == [] {
      CleanRunSound(events);
      assert events[..0] == events;
    } else {
      var n := |events| - 1;
      JournalRestoresIffClean(events[..n]);
      PrefixesSplit(events);
      if CleanRun(events[..n]) {
        StepRestoresIffClean(events);
      }
    }
  }

  lemma PrefixesSplit(events: seq<Event>)
    requires events != []
    ensures RestoresThroughout(events) <==> RestoresAt(events) && RestoresThroughout(events[..|events| - 1])
  {
    var n := |events| - 1;
    var before := events[..n];
    assert events[..n + 1] == events;
    assert forall k :: 0 <= k <= n ==> before[..k] == events[..k];
  }

  // ---------------------------------------------------------------- disciplined runs

  /** The append of a launch row fails at this call. */
  predicate LaunchLost(m: Memory, event: Event) {
    event.Do? && !event.durable && PlanOf(m, event.call).Write? && PlanOf(m, event.call).row.Launch?
  }

  /** Observation and cancellation calls name the promoted gate. */
  predicate ForPromotedGate(m: Memory, call: Call) {
    (call.ArriveCall? || call.ObserveCall? || call.CancelCall?) ==>
      m.activeGate.Some? && SameDirective(m.activeGate.value, call.directive)
  }

  /** No launch append fails; observations and cancellations name the promoted gate. */
  predicate Disciplined(events: seq<Event>) {
    events == [] ||
    (var n := |events| - 1;
     Disciplined(events[..n]) &&
     var before := Run(events[..n]);
     before.Some? && events[n].Do? ==>
       && ForPromotedGate(before.value.memory, events[n].call)
       && !LaunchLost(before.value.memory, events[n]))
  }

  /** The ids a call hands to the row it appends are not empty. */
  predicate NamesPresent(call: Call) {
    match call
    case AcknowledgeCall(_, task) => task.id != ""
    case TerminalCall(task, _) => task.id != ""
    case ForwardCall(taskId) => taskId != ""
    case ArriveCall(_, directive) => directive.gate.latchId != ""
    case ObserveCall(directive) => directive.gate.latchId != ""
    case CancelCall(directive, c) => directive.gate.latchId != "" && c.taskId != ""
    case _ => true
  }

  predicate AllNamed(events: seq<Event>) {
    forall i :: 0 <= i < |events| && events[i].Do? ==> NamesPresent(events[i].call)
  }

  /** With every owned task launched, a named call for the promoted gate is clean. */
  lemma NamedIsClean(m: Memory, call: Call)
    requires PlanOf(m, call).Write? && ForPromotedGate(m, call) && NamesPresent(call)
    ensures Clean(m, m.owned.Keys, call)
  {
  }

  lemma OwnedKeysAfter(m: Memory, call: Call)
    requires PlanOf(m, call).Write?
    ensures var plan := PlanOf(m, call);
            && plan.next.owned.Keys == m.owned.Keys + LaunchedBy(plan.row)
            && (!plan.row.Launch? ==> plan.onFailure.owned == m.owned)
  {
  }

  lemma SettledKeepsOwned(m: Memory, call: Call)
    requires PlanOf(m, call).Settled?
    ensures PlanOf(m, call).next.owned == m.owned
  {
  }

  lemma DisciplinedStep(s: Store, call: Call, durable: bool)
    requires Launched(s.rows) == s.memory.owned.Keys && ForPromotedGate(s.memory, call) && NamesPresent(call)
    requires !LaunchLost(s.memory, Do(call, durable))
    ensures CleanEvent(s, Do(call, durable))
    ensures var after := Perform(s, call, durable); Launched(after.rows) == after.memory.owned.Keys
  {
    var plan := PlanOf(s.memory, call);
    if plan.Write? {
      NamedIsClean(s.memory, call);
      OwnedKeysAfter(s.memory, call);
      LaunchedAppend(s.rows, plan.row);
    } else if plan.Settled? {
      SettledKeepsOwned(s.memory, call);
    }
  }

  lemma {:induction false} DisciplinedIsClean(events: seq<Event>)
    requires Disciplined(events) && AllNamed(events)
    ensures CleanRun(events) && Run(events).Some?
    ensures Launched(Run(events).value.rows) == Run(events).value.memory.owned.Keys
  {
    if events != [] {
      var n := |events| - 1;
      DisciplinedIsClean(events[..n]);
      CleanRunSound(events[..n]);
      var s := Run(events[..n]).value;
      match events[n]
      case Do(call, durable) => DisciplinedStep(s, call, durable);
      case Restart => JournaledInverse(s.memory.owned, s.memory.actionTasks, Launched(s.rows));
    }
  }

  /**
   * Every run in which no launch append fails, observations and cancellations
   * name the promoted gate, and ids are not empty survives all its restarts, and
   * reopening its journal rebuilds all of the live state that rows keep.
   */
  lemma DisciplinedRunRestores(events: seq<Event>)
    requires Disciplined(events) && AllNamed(events)
    ensures Run(events).Some?
    ensures var s := Run(events).value;
            && MutualInverse(s.memory.owned, s.memory.actionTasks)
            && RestoreAll(s.rows) == Some(Durable(s.memory, s.memory.owned.Keys))
  {
    DisciplinedIsClean(events);
    CleanRunSound(events);
  }

  // ---------------------------------------------------------------- what a row that is not clean does

  /** Rows that cannot be restored stay so, whatever is appended to them. */
  lemma {:induction false} UnreadableForever(rows: seq<Row>, more: seq<Row>)
    requires RestoreAll(rows).None?
    ensures RestoreAll(rows + more).None?
    decreases |more|
  {
    if more == [] {
      assert rows + more == rows;
    } else {
      var n := |more| - 1;
      UnreadableForever(rows, more[..n]);
      RestoreAppend(rows + more[..n], more[n]);
      assert rows + more[..n] + [more[n]] == rows + more;
    }
  }

  /**
   * A durable row that is not clean: if it cannot be read the journal can never
   * be reopened; if it can, reopening gives another state than the live one.
   */
  lemma UncleanRowBreaksJournal(s: Store, call: Call)
    requires SoundStore(s) && PlanOf(s.memory, call).Write? && !Clean(s.memory, Launched(s.rows), call)
    ensures var after := Perform(s, call, true);
            && Succeeds(s, call, true) && !Restores(after)
            && (RestoreAll(after.rows).None? <==> !Readable(s.memory, Launched(s.rows), call))
            && (RestoreAll(after.rows).None? ==> forall more :: RestoreAll(after.rows + more).None?)
  {
    var plan := PlanOf(s.memory, call);
    CallExact(s.memory, Launched(s.rows), call);
    RestoreAppend(s.rows, plan.row);
    LaunchedAppend(s.rows, plan.row);
    var rows := s.rows + [plan.row];
    if RestoreAll(rows).None? {
      forall more ensures RestoreAll(rows + more).None? {
        UnreadableForever(rows, more);
      }
    }
  }

  const PLAIN_ACTION := Action("a", "s", 0, BgRun("n", "c", false, false, false, None), "{}")
  const NAMELESS_TASK := Task("", None, "c", "running", "o", None, None, None, None, "")

  /** A task whose id is empty is registered and acknowledged, and the journal cannot be reopened. */
  lemma NamelessTaskLosesJournal() returns (register: Event, ack: Event)
    ensures register == Do(RegisterCall(PLAIN_ACTION, NAMELESS_TASK), true)
    ensures ack == Do(AcknowledgeCall(PLAIN_ACTION, NAMELESS_TASK), true)
    ensures Disciplined([register, ack]) && Run([register, ack, Restart]) == None
  {
    register, ack := Do(RegisterCall(PLAIN_ACTION, NAMELESS_TASK), true),
                     Do(AcknowledgeCall(PLAIN_ACTION, NAMELESS_TASK), true);
    RunOfTwo(register, ack);
    NamelessIsRegistered();
    var s1 := Perform(EMPTY_STORE, register.call, true);
    NamelessIsAcknowledged(s1.memory);
    EmptyIdLosesJournal(s1, PLAIN_ACTION, NAMELESS_TASK);
  }

  lemma EmptyIdLosesJournal(s: Store, action: Action, task: Task)
    requires SoundStore(s) && task.id == "" && Acknowledge(s.memory, action, task).Write?
    ensures RestoreAll(Perform(s, AcknowledgeCall(action, task), true).rows) == None
  {
    UncleanRowBreaksJournal(s, AcknowledgeCall(action, task));
  }

  lemma RunOfTwo(a: Event, b: Event)
    requires a.Do? && b.Do? && a.durable && b.durable
    ensures var s1 := Perform(EMPTY_STORE, a.call, true);
            var s2 := Perform(s1, b.call, true);
            && (ForPromotedGate(EMPTY_MEMORY, a.call) && ForPromotedGate(s1.memory, b.call) ==> Disciplined([a, b]))
            && Run([a, b, Restart]) == if RestoreAll(s2.rows).None? then None else Some(Store(RestoreAll(s2.rows).value, s2.rows))
  {
    var one, two, three := [a], [a, b], [a, b, Restart];
    assert one[..|one| - 1] == [] && two[..|two| - 1] == one && three[..|three| - 1] == two;
    var s1 := Perform(EMPTY_STORE, a.call, true);
    assert Run(one) == Some(s1);
    assert Run(two) == Some(Perform(s1, b.call, true));
  }

  lemma NamelessIsRegistered()
    ensures var s1 := Perform(EMPTY_STORE, RegisterCall(PLAIN_ACTION, NAMELESS_TASK), true);
            && SoundStore(s1) && "" in s1.memory.owned
            && s1.memory.owned[""] == Binding(NAMELESS_TASK, PLAIN_ACTION, false, false, false)
  {
    CleanRunSound([]);
    PerformExact(EMPTY_STORE, RegisterCall(PLAIN_ACTION, NAMELESS_TASK), true);
    var plan := RegisterRun(EMPTY_MEMORY, PLAIN_ACTION, NAMELESS_TASK);
    assert DescriptorAccepted(PLAIN_ACTION);
    assert plan.Write?;
  }

  lemma NamelessIsAcknowledged(m: Memory)
    requires "" in m.owned && m.owned[""] == Binding(NAMELESS_TASK, PLAIN_ACTION, false, false, false)
    ensures Acknowledge(m, PLAIN_ACTION, NAMELESS_TASK).Write?
  {
  }

  /** A launch whose append failed stays owned in memory, has no row, and the launch gate closes for good. */
  lemma LostLaunchHolds(s: Store, action: Action, task: Task)
    requires SoundStore(s) && LaunchLost(s.memory, Do(RegisterCall(action, task), false))
    ensures var after := Perform(s, RegisterCall(action, task), false);
            && after.memory.hold == Permanent && after.rows == s.rows
            && task.id in after.memory.owned && after.memory.owned[task.id].action == action
            && task.id !in Launched(after.rows) && SoundStore(after)
  {
    PerformExact(s, RegisterCall(action, task), false);
  }

  /** The acknowledgement of a lost launch is written, and no reopened journal accepts its row. */
  lemma AcknowledgingLostLaunchLosesJournal(s: Store, action: Action, task: Task)
    requires SoundStore(s) && LaunchLost(s.memory, Do(RegisterCall(action, task), false))
    ensures var lost := Perform(s, RegisterCall(action, task), false);
            var acked := Perform(lost, AcknowledgeCall(action, task), true);
            Succeeds(lost, AcknowledgeCall(action, task), true) && RestoreAll(acked.rows) == None
  {
    LostLaunchHolds(s, action, task);
    var lost := Perform(s, RegisterCall(action, task), false);
    LostLaunchIsAcknowledged(s.memory, action, task);
    UncleanRowBreaksJournal(lost, AcknowledgeCall(action, task));
  }

  lemma LostLaunchIsAcknowledged(m: Memory, action: Action, task: Task)
    requires RegisterRun(m, action, task).Write?
    ensures Acknowledge(RegisterRun(m, action, task).onFailure, action, task).Write?
  {
  }

  /** Promoting a gate that names a task without its launch row is accepted, and loses the journal. */
  lemma PromotingLostTaskLosesJournal(s: Store, directive: Directive, i: nat)
    requires SoundStore(s) && Promote(s.memory, directive).Write?
    requires i < |directive.gate.cancellations| && directive.gate.cancellations[i].taskId !in Launched(s.rows)
    ensures var after := Perform(s, PromoteCall(directive), true);
            after.memory.activeGate.Some? && RestoreAll(after.rows) == None
  {
    assert !GateLaunched(directive.gate, Launched(s.rows));
    UncleanRowBreaksJournal(s, PromoteCall(directive));
  }

  /** The call is for the promoted receipt and latch and, if a cancellation, for a member of the promoted gate. */
  predicate NamesPromotedGate(m: Memory, call: Call)
    requires call.ArriveCall? || call.ObserveCall? || call.CancelCall?
  {
    && HasActiveGate(m, call.directive.receiptId, call.directive.gate.latchId)
    && (call.CancelCall? ==>
          FindTask(m.activeGate.value.gate.cancellations, call.cancellation.taskId) == Some(call.cancellation))
  }

  /** Any other observation or cancellation row loses the journal. */
  lemma UnpromotedRowLosesJournal(s: Store, call: Call)
    requires SoundStore(s) && PlanOf(s.memory, call).Write?
    requires call.ArriveCall? || call.ObserveCall? || call.CancelCall?
    requires !NamesPromotedGate(s.memory, call)
    ensures RestoreAll(Perform(s, call, true).rows) == None
  {
    UncleanRowBreaksJournal(s, call);
  }

  /**
   * Observing the active receipt and latch under another gate body writes a row
   * that can be read: reopening then says the reporter was observed, the live
   * coordinator says it was not.
   */
  lemma AlteredGateDiverges(s: Store, d: Directive)
    requires SoundStore(s) && ObserveReporter(s.memory, d).Write? && d.gate.latchId != ""
    requires HasActiveGate(s.memory, d.receiptId, d.gate.latchId) && !SameDirective(s.memory.activeGate.value, d)
    ensures var after := Perform(s, ObserveCall(d), true);
            && RestoreAll(after.rows).Some? && RestoreAll(after.rows).value.activeGate.Some?
            && RestoreAll(after.rows).value.activeGate.value.reporterObserved
            && after.memory.activeGate.Some? && !after.memory.activeGate.value.reporterObserved
  {
    RestoreAppend(s.rows, ObserveReporter(s.memory, d).row);
    AlteredObservation(s.memory, Launched(s.rows), d);
    assert PlanOf(s.memory, ObserveCall(d)) == ObserveReporter(s.memory, d);
  }

  lemma AlteredObservation(m: Memory, launched: set<string>, d: Directive)
    requires ObserveReporter(m, d).Write? && d.gate.latchId != "" && d.receiptId != ""
    requires HasActiveGate(m, d.receiptId, d.gate.latchId) && !SameDirective(m.activeGate.value, d)
    requires m.activeGate.value.reporterObserved == WasObserved(m, m.activeGate.value)
    ensures var plan := ObserveReporter(m, d);
            var restored := Restore(Durable(m, launched), plan.row);
            && restored.Some? && restored.value.activeGate.Some? && restored.value.activeGate.value.reporterObserved
            && plan.next.activeGate == m.activeGate && !m.activeGate.value.reporterObserved
  {
  }

  // ---------------------------------------------------------------- the permanent hold

  predicate HasGateRow(rows: seq<Row>) {
    exists i :: 0 <= i < |rows| && rows[i].BlockedGate?
  }

  lemma RestoredGateHolds(rows: seq<Row>)
    requires RestoreAll(rows).Some? && HasGateRow(rows)
    ensures RestoreAll(rows).value.hold == Permanent
  {
    var n := |rows| - 1;
    if !rows[n].BlockedGate? {
      assert HasGateRow(rows[..n]) by {
        var i :| 0 <= i < |rows| && rows[i].BlockedGate?;
        assert rows[..n][i].BlockedGate?;
      }
      RestoredGateHolds(rows[..n]);
    }
  }

  lemma PerformKeepsPermanent(s: Store, call: Call, durable: bool)
    requires s.memory.hold == Permanent
    ensures Perform(s, call, durable).memory.hold == Permanent
  {
  }

  lemma StepKeepsGate(s: Store, event: Event)
    requires HasGateRow(s.rows) ==> s.memory.hold == Permanent
    requires Step(s, event).Some?
    ensures var after := Step(s, event).value;
            && s.rows <= after.rows
            && (HasGateRow(after.rows) ==> after.memory.hold == Permanent)
  {
    if event.Restart? {
      if HasGateRow(s.rows) { RestoredGateHolds(s.rows); }
    } else {
      var plan := PlanOf(s.memory, event.call);
      if HasGateRow(s.rows) {
        PerformKeepsPermanent(s, event.call, event.durable);
      } else if plan.Write? && plan.row.BlockedGate? {
        assert event.call.PromoteCall?;
      }
    }
  }

  lemma {:induction false} GateRowClosesRun(events: seq<Event>)
    ensures Run(events).Some? && HasGateRow(Run(events).value.rows) ==>
              Run(events).value.memory.hold == Permanent
  {
    if events != [] {
      var before := events[..|events| - 1];
      GateRowClosesRun(before);
      if Run(events).Some? {
        StepKeepsGate(Run(before).value, events[|events| - 1]);
      }
    }
  }

  /**
   * Once a blocked-gate row is durable, no launch enters again: not in this
   * coordinator, nor in any coordinator restored later, whatever calls follow.
   */
  lemma {:induction false} BlockedNeverLaunches(events: seq<Event>, k: nat)
    requires k <= |events| && Run(events[..k]).Some? && HasGateRow(Run(events[..k]).value.rows)
    ensures Run(events).Some? ==>
              HasGateRow(Run(events).value.rows) && !MayLaunch(Run(events).value.memory)
    decreases |events| - k
  {
    if k == |events| {
      assert events[..k] == events;
      GateRowClosesRun(events);
    } else {
      var s := Run(events[..k]).value;
      GateRowClosesRun(events[..k]);
      assert events[..k + 1][..k] == events[..k];
      if Run(events[..k + 1]).Some? {
        StepKeepsGate(s, events[k]);
        var after := Run(events[..k + 1]).value;
        var i :| 0 <= i < |s.rows| && s.rows[i].BlockedGate?;
        assert after.rows[i].BlockedGate?;
        BlockedNeverLaunches(events, k + 1);
      } else {
        DeadStaysDead(events, k + 1);
      }
    }
  }

  lemma {:induction false} DeadStaysDead(events: seq<Event>, k: nat)
    requires k <= |events| && Run(events[..k]).None?
    ensures Run(events).None?
  {
    if k == |events| {
      assert events[..k] == events;
    } else {
      var n := |events| - 1;
      assert events[..n][..k] == events[..k];
      DeadStaysDead(events[..n], k);
    }
  }
}

/**
 * `HostOwnershipCoordinator` (src/ownership-journal.ts) as the source has it: an
 * object whose methods update maps, sets and the hold in place. Every method is
 * proved to be the corresponding step of module Ownership. The `durable`
 * argument is the outcome of the journal append.
 */
module Coordinator {
  import opened Wrappers
  import opened Ownership

  class HostOwnershipCoordinator {
    var owned: map<string, Binding>
    var actionTasks: map<string, Binding>
    var cancellationRows: set<string>
    var observations: map<string, Observation>
    var observed: set<string>
    var activeGate: Option<Directive>
    var hold: Hold
    var activationHold: bool
    var flights: set<nat>
    var nextFlight: nat
    var rows: seq<Row>

    ghost function Memory(): Memory
      reads this
    {
      Ownership.Memory(owned, actionTasks, cancellationRows, observations, observed, activeGate, hold, activationHold)
    }

    ghost function State(): Store
      reads this
    {
      Store(Memory(), rows)
    }

    ghost predicate FlightsNumbered()
      reads this
    {
      forall f :: f in flights ==> f < nextFlight
    }

    constructor ()
      ensures State() == EMPTY_STORE && flights == {} && FlightsNumbered()
    {
      owned, actionTasks, cancellationRows, observations, observed := map[], map[], {}, map[], {};
      activeGate, hold, activationHold, flights, nextFlight, rows := None, Open, true, {}, 0, [];
    }

    /** The coordinator of an existing journal, or None where restoring a row throws. */
    static method OpenJournal(chain: seq<Row>) returns (c: HostOwnershipCoordinator?)
      ensures (c == null) <==> RestoreAll(chain).None?
      ensures c != null ==> c.State() == Store(RestoreAll(chain).value, chain) && c.flights == {}
    {
      var restored := new HostOwnershipCoordinator();
      var i := 0;
      while i < |chain|
        invariant 0 <= i <= |chain|
        invariant fresh(restored)
        invariant restored.flights == {}
        invariant RestoreAll(chain[..i]) == Some(restored.Memory())
      {
        assert chain[..i + 1][..i] == chain[..i];
        var ok := restored.RestoreRow(chain[i]);
        if !ok {
          RestorePrefixFails(chain, i + 1);
          return null;
        }
        i := i + 1;
      }
      assert chain[..i] == chain;
      restored.rows := chain;
      c := restored;
    }

    /** Entering a launch hands out a new flight exactly while the gate is open. */
    method EnterLaunch() returns (flight: Option<nat>)
      requires FlightsNumbered()
      modifies `flights, `nextFlight
      ensures flight.Some? <==> MayLaunch(Memory())
      ensures flight.None? ==> flights == old(flights)
      ensures flight.Some? ==> flight.value !in old(flights) && flights == old(flights) + {flight.value}
      ensures FlightsNumbered()
    {
      if activationHold || hold != Open {
        return None;
      }
      flight := Some(nextFlight);
      flights := flights + {nextFlight};
      nextFlight := nextFlight + 1;
    }

    method CompleteLaunch(flight: nat)
      requires FlightsNumbered()
      modifies `flights
      ensures flights == old(flights) - {flight} && FlightsNumbered()
    {
      flights := flights - {flight};
    }

    method Append(row: Row, durable: bool) returns (ok: bool)
      modifies `rows
      ensures ok == durable
      ensures rows == if durable then old(rows) + [row] else old(rows)
    {
      if durable { rows := rows + [row]; }
      ok := durable;
    }

    method InstallBinding(binding: Binding)
      modifies `owned, `actionTasks
      ensures Memory() == Install(old(Memory()), binding)
    {
      owned := owned[binding.task.id := binding];
      actionTasks := actionTasks[binding.action.actionId := binding];
    }

    method Replace(previous: Binding, next: Binding) returns (ok: bool)
      modifies `owned, `actionTasks
      ensures ok == Replaceable(old(Memory()), previous)
      ensures Memory() == if ok then Install(old(Memory()), next) else old(Memory())
    {
      if previous.task.id !in owned || owned[previous.task.id] != previous
         || previous.action.actionId !in actionTasks || actionTasks[previous.action.actionId] != previous {
        return false;
      }
      InstallBinding(next);
      ok := true;
    }

    method RegisterSuccessfulRun(action: Action, task: Task, durable: bool) returns (ok: bool)
      modifies this
      ensures State() == Perform(old(State()), RegisterCall(action, task), durable)
      ensures ok == Succeeds(old(State()), RegisterCall(action, task), durable)
      ensures flights == old(flights) && nextFlight == old(nextFlight)
    {
      if !TaskMatchesAction(task, action) || !DescriptorAccepted(action) {
        return false;
      }
      if task.id in owned {
        return SameBinding(owned[task.id], action, task);
      }
      if action.actionId in actionTasks {
        var other := actionTasks[action.actionId];
        return other.action.descriptor == action.descriptor && other.task.id == task.id;
      }
      InstallBinding(Binding(task, action, false, false, false));
      ok := Append(Launch(Journaled(task), action, action.actionId, action.assignmentId, action.runRevision, false), durable);
      if !ok {
        hold := Permanent;
      }
    }

    method MarkLaunchAcknowledged(action: Action, task: Task, durable: bool) returns (ok: bool)
      modifies this
      ensures State() == Perform(old(State()), AcknowledgeCall(action, task), durable)
      ensures ok <==> Succeeds(old(State()), AcknowledgeCall(action, task), durable) && task.id in old(owned)
                      && (old(owned)[task.id].acknowledged || Replaceable(old(Memory()), old(owned)[task.id]))
      ensures flights == old(flights) && nextFlight == old(nextFlight)
    {
      if task.id !in owned || !SameAction(owned[task.id].action, action) {
        return false;
      }
      var binding := owned[task.id];
      if binding.acknowledged {
        return true;
      }
      ok := Append(LaunchAck(CorrelationOf(binding)), durable);
      if ok {
        ok := Replace(binding, binding.(acknowledged := true));
      }
    }

    method RecordTerminalTask(task: Task, action: Action, durable: bool) returns (ok: bool)
      modifies this
      ensures State() == Perform(old(State()), TerminalCall(task, action), durable)
      ensures ok <==> Succeeds(old(State()), TerminalCall(task, action), durable) && task.id in old(owned)
                      && (old(owned)[task.id].terminal || Replaceable(old(Memory()), old(owned)[task.id]))
      ensures flights == old(flights) && nextFlight == old(nextFlight)
    {
      if task.id !in owned || !SameAction(owned[task.id].action, action) {
        return false;
      }
      var binding := owned[task.id];
      if binding.terminal {
        return true;
      }
      if !IsTerminalStatus(task.status) {
        return false;
      }
      ok := Append(TerminalTombstone(CorrelationOf(binding), Journaled(task), task.status), durable);
      if ok {
        ok := Replace(binding, binding.(task := task, terminal := true));
      }
    }

    method MarkTerminalForwarded(taskId: string, durable: bool) returns (ok: bool)
      modifies this
      ensures State() == Perform(old(State()), ForwardCall(taskId), durable)
      ensures ok <==> Succeeds(old(State()), ForwardCall(taskId), durable) && taskId in old(owned)
                      && (old(owned)[taskId].terminalForwarded || Replaceable(old(Memory()), old(owned)[taskId]))
      ensures flights == old(flights) && nextFlight == old(nextFlight)
    {
      if taskId !in owned || !owned[taskId].terminal {
        return false;
      }
      var binding := owned[taskId];
      if binding.terminalForwarded {
        return true;
      }
      ok := Append(TerminalForwarded(CorrelationOf(binding)), durable);
      if ok {
        ok := Replace(binding, binding.(terminalForwarded := true));
      }
    }

    /** Closes the provisional hold and names the flights to wait for. */
    method AcquireBlockedAdmission() returns (awaited: set<nat>)
      modifies `hold
      ensures State() == Perform(old(State()), AcquireAdmission, true)
      ensures awaited == flights && !MayLaunch(Memory())
    {
      if hold == Open { hold := Provisional; }
      awaited := flights;
    }

    method ReleaseBlockedAdmissionOnRetry()
      modifies `hold
      ensures State() == Perform(old(State()), ReleaseOnRetry, true)
    {
      if hold == Provisional { hold := Open; }
    }

    method RetainFailClosedHold()
      modifies `hold
      ensures State() == Perform(old(State()), RetainFailClosed, true)
      ensures !MayLaunch(Memory())
    {
      if hold == Open { hold := Provisional; }
    }

    /** `assertGateMembership`, one cancellation at a time. */
    method GateMembership(gate: Gate) returns (ok: bool)
      ensures ok == GateOwned(owned, gate)
    {
      var seen: set<string> := {};
      var reporters, i := 0, 0;
      var cs := gate.cancellations;
      while i < |cs|
        invariant 0 <= i <= |cs|
        invariant seen == set k | 0 <= k < i :: cs[k].taskId
        invariant DistinctTasks(cs[..i])
        invariant forall k :: 0 <= k < i ==>
                    && cs[k].taskId in owned
                    && owned[cs[k].taskId].action.actionId == cs[k].actionId
                    && owned[cs[k].taskId].action.assignmentId == cs[k].assignmentId
        invariant reporters + Reporters(cs[i..]) == Reporters(cs)
      {
        var c := cs[i];
        if c.taskId in seen {
          return false;
        }
        seen := seen + {c.taskId};
        if c.taskId !in owned || owned[c.taskId].action.actionId != c.actionId
           || owned[c.taskId].action.assignmentId != c.assignmentId {
          return false;
        }
        if c.reporter { reporters := reporters + 1; }
        i := i + 1;
      }
      assert cs[..i] == cs;
      ok := reporters == 1;
    }

    method PromoteBlockedGate(directive: Directive, durable: bool) returns (ok: bool)
      modifies this
      ensures State() == Perform(old(State()), PromoteCall(directive), durable)
      ensures ok == Succeeds(old(State()), PromoteCall(directive), durable)
      ensures flights == old(flights) && nextFlight == old(nextFlight)
    {
      if directive.receiptId == "" || directive.gate.cancellations == [] {
        return false;
      }
      var member := GateMembership(directive.gate);
      if !member {
        return false;
      }
      if activeGate.Some? {
        if !SameDirective(activeGate.value, directive) {
          return false;
        }
        hold := Permanent;
        return true;
      }
      ok := Append(BlockedGate(directive.receiptId, directive.gate), durable);
      if ok {
        activeGate := Some(directive.(reporterObserved :=
          GateKey(directive.receiptId, directive.gate.latchId) in observed));
        hold := Permanent;
      }
    }

    method RecordObservationArrived(observation: Observation, directive: Directive, durable: bool) returns (ok: bool)
      modifies this
      ensures State() == Perform(old(State()), ArriveCall(observation, directive), durable)
      ensures ok == Succeeds(old(State()), ArriveCall(observation, directive), durable)
      ensures flights == old(flights) && nextFlight == old(nextFlight)
    {
      var key := GateKey(directive.receiptId, directive.gate.latchId);
      if observation.receiptId != directive.receiptId {
        return false;
      }
      if key in observations {
        return observations[key] == observation;
      }
      ok := Append(ObservationArrived(directive.receiptId, directive.gate.latchId, observation), durable);
      if ok { observations := observations[key := observation]; }
    }

    method MarkObservationObserved(directive: Directive, durable: bool) returns (ok: bool)
      modifies this
      ensures State() == Perform(old(State()), ObserveCall(directive), durable)
      ensures ok == Succeeds(old(State()), ObserveCall(directive), durable)
      ensures flights == old(flights) && nextFlight == old(nextFlight)
    {
      var key := GateKey(directive.receiptId, directive.gate.latchId);
      if key in observed {
        return true;
      }
      ok := Append(ObservationObserved(directive.receiptId, directive.gate.latchId), durable);
      if ok {
        observed := observed + {key};
        if activeGate.Some? && SameDirective(activeGate.value, directive) {
          activeGate := Some(activeGate.value.(reporterObserved := true));
        }
      }
    }

    method MarkCancelled(directive: Directive, cancellation: Cancellation, durable: bool) returns (ok: bool)
      modifies this
      ensures State() == Perform(old(State()), CancelCall(directive, cancellation), durable)
      ensures ok == Succeeds(old(State()), CancelCall(directive, cancellation), durable)
      ensures flights == old(flights) && nextFlight == old(nextFlight)
    {
      var member := GateMembership(directive.gate);
      if !member {
        return false;
      }
      if FindTask(directive.gate.cancellations, cancellation.taskId) != Some(cancellation) {
        return false;
      }
      var key := CancellationKey(directive.receiptId, directive.gate.latchId, cancellation.taskId);
      if key in cancellationRows {
        return true;
      }
      ok := Append(BlockedCancelled(directive.receiptId, directive.gate.latchId, cancellation), durable);
      if ok { cancellationRows := cancellationRows + {key}; }
    }

    method FinishActivationWith(records: seq<Directive>) returns (ok: bool)
      modifies `activationHold
      ensures State() == Perform(old(State()), FinishActivation(records), true)
      ensures ok == Succeeds(old(State()), FinishActivation(records), true)
    {
      if |records| > 1 {
        return false;
      }
      if activeGate.None? {
        if records != [] {
          return false;
        }
      } else {
        var gate := activeGate.value;
        if records == [] || !SameDirective(gate, records[0]) {
          return false;
        }
        if GateKey(gate.receiptId, gate.gate.latchId) in observed && !records[0].reporterObserved {
          return false;
        }
      }
      activationHold := false;
      ok := true;
    }

    /** One journaled row put back into memory. */
    method RestoreRow(row: Row) returns (ok: bool)
      modifies this
      ensures ok <==> Ownership.Restore(old(Memory()), row).Some?
      ensures ok ==> Some(Memory()) == Ownership.Restore(old(Memory()), row)
      ensures flights == old(flights) && rows == old(rows)
    {
      var before := Ownership.Memory(owned, actionTasks, cancellationRows, observations, observed,
                                     activeGate, hold, activationHold);
      if !TextPresent(row) {
        return false;
      }
      match row
      case Launch(task, action, actionId, assignmentId, runRevision, acknowledged) =>
        if !ValidAction(action) || actionId != action.actionId || assignmentId != action.assignmentId
           || runRevision != action.runRevision || acknowledged
           || task.id in owned || action.actionId in actionTasks {
          return false;
        }
        InstallBinding(Binding(task, action, false, false, false));
        return true;
      case LaunchAck(c) =>
        if !Correlated(before, c) || owned[c.taskId].acknowledged {
          return false;
        }
        ok := Replace(owned[c.taskId], owned[c.taskId].(acknowledged := true));
      case TerminalTombstone(c, task, status) =>
        if !Correlated(before, c) || owned[c.taskId].terminal || task.id != owned[c.taskId].task.id
           || task.status != status || !IsTerminalStatus(task.status) {
          return false;
        }
        ok := Replace(owned[c.taskId], owned[c.taskId].(task := task, terminal := true));
      case TerminalForwarded(c) =>
        if !Correlated(before, c) || !owned[c.taskId].terminal || owned[c.taskId].terminalForwarded {
          return false;
        }
        ok := Replace(owned[c.taskId], owned[c.taskId].(terminalForwarded := true));
      case _ =>
        ok := RestoreGateRow(row);
    }

    method RestoreGateRow(row: Row) returns (ok: bool)
      requires TextPresent(row)
      requires row.BlockedGate? || row.ObservationArrived? || row.ObservationObserved? || row.BlockedCancelled?
      modifies `activeGate, `hold, `observations, `observed, `cancellationRows
      ensures ok <==> Ownership.Restore(old(Memory()), row).Some?
      ensures ok ==> Some(Memory()) == Ownership.Restore(old(Memory()), row)
    {
      match row
      case BlockedGate(receiptId, gate) =>
        if gate.cancellations == [] {
          return false;
        }
        var member := GateMembership(gate);
        if !member || activeGate.Some? {
          return false;
        }
        activeGate, hold := Some(Directive(receiptId, gate, false)), Permanent;
        return true;
      case ObservationArrived(receiptId, latchId, observation) =>
        var key := GateKey(receiptId, latchId);
        if activeGate.None? || activeGate.value.receiptId != receiptId || activeGate.value.gate.latchId != latchId
           || observation.receiptId != receiptId || key in observations {
          return false;
        }
        observations := observations[key := observation];
        return true;
      case ObservationObserved(receiptId, latchId) =>
        var key := GateKey(receiptId, latchId);
        if activeGate.None? || activeGate.value.receiptId != receiptId || activeGate.value.gate.latchId != latchId
           || key in observed {
          return false;
        }
        observed := observed + {key};
        activeGate := Some(activeGate.value.(reporterObserved := true));
        return true;
      case BlockedCancelled(receiptId, latchId, cancellation) =>
        var key := CancellationKey(receiptId, latchId, cancellation.taskId);
        if activeGate.None? || activeGate.value.receiptId != receiptId || activeGate.value.gate.latchId != latchId
           || FindTask(activeGate.value.gate.cancellations, cancellation.taskId) != Some(cancellation)
           || key in cancellationRows {
          return false;
        }
        cancellationRows := cancellationRows + {key};
        return true;
    }
  }

  lemma {:induction false} RestorePrefixFails(chain: seq<Row>, k: nat)
    requires k <= |chain| && RestoreAll(chain[..k]).None?
    ensures RestoreAll(chain).None?
    decreases |chain|
  {
    if k == |chain| {
      assert chain[..k] == chain;
    } else {
      var n := |chain| - 1;
      assert chain[..n][..k] == chain[..k];
      RestorePrefixFails(chain[..n], k);
    }
  }
}

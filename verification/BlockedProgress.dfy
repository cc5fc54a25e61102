/**
 * The reporter-last protocol does not get stuck: wherever a pending gate stands,
 * some sequence of events (kills that succeed, appends that hold, Core recording
 * the observation) cancels every task of the gate, the reporter last.
 */
module BlockedProgress {
  import opened Wrappers
  import opened Ownership
  import opened BlockedBroker

  function After(w: World, events: seq<Event>): Option<World> {
    if events == [] then Some(w)
    else
      var before := After(w, events[..|events| - 1]);
      if before.None? then None else Step(before.value, events[|events| - 1])
  }

  lemma {:induction false} AfterConcat(w: World, a: seq<Event>, b: seq<Event>)
    requires After(w, a).Some?
    ensures After(w, a + b) == After(After(w, a).value, b)
    decreases |b|
  {
    if b == [] {
      assert a + b == a;
    } else {
      var n := |b| - 1;
      assert (a + b)[..|a + b| - 1] == a + b[..n];
      AfterConcat(w, a, b[..n]);
    }
  }

  lemma AfterOne(w: World, e: Event)
    ensures After(w, [e]) == Step(w, e)
  {
    assert [e][..0] == [];
  }

  /** Appends one event to a path. */
  lemma Extend(w: World, path: seq<Event>, mid: World, e: Event) returns (longer: seq<Event>)
    requires After(w, path) == Some(mid)
    ensures longer == path + [e] && After(w, longer) == Step(mid, e)
  {
    longer := path + [e];
    AfterConcat(w, path, [e]);
    AfterOne(mid, e);
  }

  /** A sound world with a pending gate. */
  ghost predicate Ready(w: World, p: Pending) {
    Sound(w) && w.pending == Some(p)
  }

  predicate Internal(e: Event) {
    !e.Admit? && !e.Other? && !e.CoreRecords? && !e.Restart?
  }

  lemma InternalStep(w: World, p: Pending, e: Event)
    requires Sound(w) && w.pending == Some(p) && Internal(e)
    ensures Step(w, e) == Some(PendingStep(w, p, e)) && Sound(PendingStep(w, p, e))
  {
    StepSound(w, e);
  }

  // ---------------------------------------------------------------- one cancellation

  lemma {:induction false} FindMember(cs: seq<Cancellation>, i: nat)
    requires DistinctTasks(cs) && i < |cs|
    ensures FindTask(cs, cs[i].taskId) == Some(cs[i])
  {
    if i > 0 {
      assert cs[0].taskId != cs[i].taskId;
      assert forall j :: 0 <= j < |cs[1..]| ==> cs[1..][j] == cs[j + 1];
      FindMember(cs[1..], i - 1);
    }
  }

  /** Cancelling a member of an owned gate succeeds and leaves only its key and row. */
  lemma CancelSucceeds(s: Store, d: Directive, c: Cancellation)
    requires GateOwned(s.memory.owned, d.gate) && FindTask(d.gate.cancellations, c.taskId) == Some(c)
    ensures Succeeds(s, CancelCall(d, c), true)
    ensures var after := Perform(s, CancelCall(d, c), true).memory;
            after.owned == s.memory.owned && after.observations == s.memory.observations && WasCancelled(after, d, c.taskId)
  {
    assert PlanOf(s.memory, CancelCall(d, c)) == Cancel(s.memory, d, c);
  }

  lemma NonReporterMember(d: Directive, i: nat) returns (c: Cancellation)
    requires DistinctTasks(d.gate.cancellations) && i < |NonReporterIds(d.gate.cancellations)|
    ensures FindTask(d.gate.cancellations, NonReporterIds(d.gate.cancellations)[i]) == Some(c)
    ensures c.taskId == NonReporterIds(d.gate.cancellations)[i]
  {
    var cs := d.gate.cancellations;
    var t := NonReporterIds(cs)[i];
    NonReporterIsNotReporter(cs, d, t);
    var k :| 0 <= k < |cs| && cs[k].taskId == t;
    FindMember(cs, k);
    c := cs[k];
  }

  /** What draining leaves alone. */
  predicate SameBeside(w: World, after: World) {
    after.store.memory.observations == w.store.memory.observations
    && after.forwarded == w.forwarded && after.coreObserved == w.coreObserved
  }

  /** The second half of one non-reporter: its kill succeeded, its row is appended. */
  lemma NonReporterJournaled(w: World, p: Pending, i: nat)
    requires Ready(w, p) && p.nonReporter == Killing(i) && i < |NonReporterIds(p.directive.gate.cancellations)|
    ensures var after := NonReporterKillStep(w, p, true, true);
            Step(w, NonReporterKilled(true, true)) == Some(after) && SameBeside(w, after)
            && Ready(after, p.(nonReporter := Next(i + 1)))
  {
    var c := NonReporterMember(p.directive, i);
    CancelSucceeds(w.store, p.directive, c);
    InternalStep(w, p, NonReporterKilled(true, true));
  }

  /** One non-reporter: killed and journaled, or already cancelled. */
  lemma NonReporterAdvance(w: World, p: Pending, i: nat) returns (path: seq<Event>, after: World)
    requires Ready(w, p) && p.nonReporter == Next(i) && i < |NonReporterIds(p.directive.gate.cancellations)|
    ensures After(w, path) == Some(after) && Ready(after, p.(nonReporter := Next(i + 1))) && SameBeside(w, after)
  {
    var t := NonReporterIds(p.directive.gate.cancellations)[i];
    InternalStep(w, p, NonReporterTurn);
    AfterOne(w, NonReporterTurn);
    var mid := NonReporterStep(w, p);
    if WasCancelled(w.store.memory, p.directive, t) {
      path, after := [NonReporterTurn], mid;
    } else {
      var killing := p.(nonReporter := Killing(i));
      NonReporterJournaled(mid, killing, i);
      path := Extend(w, [NonReporterTurn], mid, NonReporterKilled(true, true));
      after := NonReporterKillStep(mid, killing, true, true);
    }
  }

  lemma {:induction false} NonReportersDrain(w: World, p: Pending, i: nat) returns (path: seq<Event>, after: World)
    requires Ready(w, p) && p.nonReporter == Next(i)
    ensures After(w, path) == Some(after) && SameBeside(w, after)
    ensures Ready(after, p.(nonReporter := NoAttempt, nonReportersCancelled := true))
    decreases |NonReporterIds(p.directive.gate.cancellations)| - i
  {
    if i >= |NonReporterIds(p.directive.gate.cancellations)| {
      InternalStep(w, p, NonReporterTurn);
      AfterOne(w, NonReporterTurn);
      path, after := [NonReporterTurn], NonReporterStep(w, p);
    } else {
      var first, mid := NonReporterAdvance(w, p, i);
      var rest, last := NonReportersDrain(mid, p.(nonReporter := Next(i + 1)), i + 1);
      AfterConcat(w, first, rest);
      path, after := first + rest, last;
    }
  }

  /** The non-reporters drain from wherever their attempt stands. */
  lemma DrainFromAnywhere(w: World, p: Pending) returns (path: seq<Event>, after: World, drained: Pending)
    requires Ready(w, p)
    ensures After(w, path) == Some(after) && SameBeside(w, after) && Ready(after, drained)
    ensures drained == p.(nonReporter := drained.nonReporter, nonReportersCancelled := true)
  {
    if p.nonReportersCancelled {
      path, after, drained := [], w, p;
    } else {
      var first, mid, i := BeginDrain(w, p);
      var rest;
      rest, after := NonReportersDrain(mid, p.(nonReporter := Next(i)), i);
      AfterConcat(w, first, rest);
      path, drained := first + rest, p.(nonReporter := NoAttempt, nonReportersCancelled := true);
      assert drained == p.(nonReporter := Next(i)).(nonReporter := NoAttempt, nonReportersCancelled := true);
    }
  }

  lemma BeginDrain(w: World, p: Pending) returns (path: seq<Event>, after: World, i: nat)
    requires Ready(w, p) && !p.nonReportersCancelled
    ensures After(w, path) == Some(after) && SameBeside(w, after) && Ready(after, p.(nonReporter := Next(i)))
  {
    match p.nonReporter
    case NoAttempt =>
      InternalStep(w, p, CancelNonReporters);
      AfterOne(w, CancelNonReporters);
      path, after, i := [CancelNonReporters], w.(pending := Some(p.(nonReporter := Next(0)))), 0;
      assert PendingStep(w, p, CancelNonReporters) == after;
    case Next(j) =>
      path, after, i := [], w, j;
    case Killing(j) =>
      NonReporterJournaled(w, p, j);
      AfterOne(w, NonReporterKilled(true, true));
      path, after, i := [NonReporterKilled(true, true)], NonReporterKillStep(w, p, true, true), j + 1;
  }

  // ---------------------------------------------------------------- the observation reaches Core

  lemma ArriveSucceeds(s: Store, wire: Observation, d: Directive)
    requires wire.receiptId == d.receiptId
    requires var key := GateKey(d.receiptId, d.gate.latchId);
             key in s.memory.observations ==> s.memory.observations[key] == wire
    ensures Succeeds(s, ArriveCall(wire, d), true)
  {
    assert PlanOf(s.memory, ArriveCall(wire, d)) == ArriveObservation(s.memory, wire, d);
  }

  /** The observation the coordinator keeps for the gate, or `wire` if it keeps none. */
  function KeptOr(m: Memory, d: Directive, wire: Observation): Observation {
    var key := GateKey(d.receiptId, d.gate.latchId);
    if key in m.observations then m.observations[key] else wire
  }

  lemma ObservationArrives(w: World, p: Pending, wire: Observation)
    requires Ready(w, p) && p.observation.NoObservation? && wire.receiptId == p.directive.receiptId
    ensures var o := KeptOr(w.store.memory, p.directive, wire);
            var after := ObserveStep(w, p, o, true);
            Step(w, Observe(o, true)) == Some(after)
            && Ready(after, p.(arrived := Some(o), observation := Started))
  {
    var o := KeptOr(w.store.memory, p.directive, wire);
    assert Receipted(w.store.memory.observations, w.store.memory.activeGate);
    ArriveSucceeds(w.store, o, p.directive);
    InternalStep(w, p, Observe(o, true));
  }

  /** Two turns of the observation attempt: past the drained non-reporters, then forwarded to Core. */
  lemma ObservationForwarded(w: World, p: Pending) returns (path: seq<Event>, after: World)
    requires Ready(w, p) && p.observation.Started? && p.nonReportersCancelled
    ensures After(w, path) == Some(after) && Ready(after, p.(observation := Forwarding)) && after.forwarded
  {
    InternalStep(w, p, ObservationTurn);
    AfterOne(w, ObservationTurn);
    var drained := p.(observation := AwaitDrained);
    var mid := w.(pending := Some(drained));
    assert PendingStep(w, p, ObservationTurn) == mid;
    InternalStep(mid, drained, ObservationTurn);
    path := Extend(w, [ObservationTurn], mid, ObservationTurn);
    after := mid.(pending := Some(p.(observation := Forwarding)), forwarded := true);
    assert PendingStep(mid, drained, ObservationTurn) == after;
  }

  /** An attempt that failed is begun again, with the observation that was kept, and reaches Core. */
  lemma ReachCore(w: World, p: Pending, wire: Observation) returns (path: seq<Event>, after: World, sent: Pending)
    requires Ready(w, p) && p.nonReportersCancelled && wire.receiptId == p.directive.receiptId
    ensures After(w, path) == Some(after) && Ready(after, sent) && after.forwarded
    ensures sent == p.(observation := Forwarding, arrived := sent.arrived)
  {
    InternalStep(w, p, ObservationFails);
    AfterOne(w, ObservationFails);
    var idle := p.(observation := NoObservation);
    var w1 := w.(pending := Some(idle));
    assert PendingStep(w, p, ObservationFails) == w1;
    var o := KeptOr(w1.store.memory, p.directive, wire);
    ObservationArrives(w1, idle, wire);
    path := Extend(w, [ObservationFails], w1, Observe(o, true));
    var w2 := ObserveStep(w1, idle, o, true);
    var started := idle.(arrived := Some(o), observation := Started);
    var rest;
    rest, after := ObservationForwarded(w2, started);
    AfterConcat(w, path, rest);
    path, sent := path + rest, started.(observation := Forwarding);
  }

  /** Core records what was forwarded and acknowledges it, which starts the reporter's attempt. */
  lemma CoreCanAnswer(w: World, p: Pending, wire: Observation) returns (path: seq<Event>, after: World, waiting: Pending)
    requires Ready(w, p) && p.nonReportersCancelled && wire.receiptId == p.directive.receiptId
    requires p.reporter.NoReporterAttempt? && !p.reporterCancelled
    ensures After(w, path) == Some(after) && Ready(after, waiting)
    ensures waiting == p.(observation := AwaitReporter, arrived := waiting.arrived, reporter := AwaitNonReporters)
  {
    var mid, sent;
    path, mid, sent := ReachCore(w, p, wire);
    StepSound(mid, CoreRecords);
    var recorded := mid.(coreObserved := true);
    path := Extend(w, path, mid, CoreRecords);
    InternalStep(recorded, sent, CoreAcknowledges);
    waiting := sent.(observation := AwaitReporter, reporter := AwaitNonReporters);
    after := recorded.(pending := Some(waiting));
    assert PendingStep(recorded, sent, CoreAcknowledges) == after;
    path := Extend(w, path, recorded, CoreAcknowledges);
  }

  // ---------------------------------------------------------------- the reporter, last

  lemma ObserveSucceeds(s: Store, d: Directive)
    ensures Succeeds(s, ObserveCall(d), true)
    ensures var after := Perform(s, ObserveCall(d), true).memory;
            after.owned == s.memory.owned && after.cancellationRows == s.memory.cancellationRows
  {
    assert PlanOf(s.memory, ObserveCall(d)) == ObserveReporter(s.memory, d);
  }

  lemma {:induction false} OneReporter(cs: seq<Cancellation>)
    requires Reporters(cs) > 0
    ensures ReporterOf(cs).Some?
  {
    if !cs[0].reporter {
      OneReporter(cs[1..]);
    }
  }

  lemma ReporterMember(d: Directive) returns (c: Cancellation)
    requires DistinctTasks(d.gate.cancellations) && Reporters(d.gate.cancellations) == 1
    ensures ReporterOf(d.gate.cancellations) == Some(c) && FindTask(d.gate.cancellations, c.taskId) == Some(c)
  {
    var cs := d.gate.cancellations;
    OneReporter(cs);
    ReporterIsMember(cs);
    c := ReporterOf(cs).value;
    var i :| 0 <= i < |cs| && cs[i] == c;
    FindMember(cs, i);
  }

  /** The released reporter is killed unless its row is there already. */
  lemma ReporterKilledNow(w: World, p: Pending, c: Cancellation)
    requires Ready(w, p) && p.reporter.Released? && ReporterOf(p.directive.gate.cancellations) == Some(c)
    requires !WasCancelled(w.store.memory, p.directive, c.taskId)
    ensures var after := ReporterStep(w, p, true);
            Step(w, ReporterTurn(true)) == Some(after) && Ready(after, p.(reporter := KillingReporter))
            && |after.kills| == |w.kills| + 1 && after.kills[|w.kills|].taskId == c.taskId
  {
    ObserveSucceeds(w.store, p.directive);
    InternalStep(w, p, ReporterTurn(true));
  }

  lemma ReporterJournaled(w: World, p: Pending, c: Cancellation)
    requires Ready(w, p) && p.reporter.KillingReporter? && ReporterOf(p.directive.gate.cancellations) == Some(c)
    requires FindTask(p.directive.gate.cancellations, c.taskId) == Some(c)
    ensures var after := ReporterKillStep(w, p, true, true);
            Step(w, ReporterKilled(true, true)) == Some(after) && Sound(after)
            && after.pending == Some(p.(reporter := NoReporterAttempt, reporterCancelled := true))
            && WasCancelled(after.store.memory, p.directive, c.taskId)
  {
    CancelSucceeds(w.store, p.directive, c);
    InternalStep(w, p, ReporterKilled(true, true));
  }

  lemma FlagsMeanAllCancelled(w: World, p: Pending, c: Cancellation)
    requires Sound(w) && w.pending == Some(p) && p.nonReportersCancelled
    requires ReporterOf(p.directive.gate.cancellations) == Some(c) && WasCancelled(w.store.memory, p.directive, c.taskId)
    ensures AllCancelled(w.store.rows, p.directive)
  {
    FlagsAreRows(w, p, c.taskId);
  }

  lemma ReporterFinishes(w: World, p: Pending) returns (path: seq<Event>, after: World)
    requires Ready(w, p) && p.reporter.Released? && p.nonReportersCancelled
    ensures After(w, path) == Some(after) && Sound(after) && AllCancelled(after.store.rows, p.directive)
  {
    var c := ReporterMember(p.directive);
    if WasCancelled(w.store.memory, p.directive, c.taskId) {
      FlagsMeanAllCancelled(w, p, c);
      path, after := [], w;
    } else {
      ReporterKilledNow(w, p, c);
      AfterOne(w, ReporterTurn(true));
      var mid := ReporterStep(w, p, true);
      var rest;
      rest, after := ReporterKillLands(mid, p.(reporter := KillingReporter));
      AfterConcat(w, [ReporterTurn(true)], rest);
      path := [ReporterTurn(true)] + rest;
    }
  }

  lemma ReporterKillLands(w: World, p: Pending) returns (path: seq<Event>, after: World)
    requires Ready(w, p) && p.reporter.KillingReporter?
    ensures After(w, path) == Some(after) && Sound(after) && AllCancelled(after.store.rows, p.directive)
  {
    var c := ReporterMember(p.directive);
    ReporterJournaled(w, p, c);
    path, after := [ReporterKilled(true, true)], ReporterKillStep(w, p, true, true);
    AfterOne(w, ReporterKilled(true, true));
    FlagsMeanAllCancelled(after, p.(reporter := NoReporterAttempt, reporterCancelled := true), c);
  }

  lemma WaitingReporterFinishes(w: World, p: Pending) returns (path: seq<Event>, after: World)
    requires Ready(w, p) && p.reporter.AwaitNonReporters? && p.nonReportersCancelled
    ensures After(w, path) == Some(after) && Sound(after) && AllCancelled(after.store.rows, p.directive)
  {
    InternalStep(w, p, ReporterTurn(true));
    AfterOne(w, ReporterTurn(true));
    var released := p.(reporter := Released);
    var mid := w.(pending := Some(released));
    assert PendingStep(w, p, ReporterTurn(true)) == mid;
    var rest;
    rest, after := ReporterFinishes(mid, released);
    AfterConcat(w, [ReporterTurn(true)], rest);
    path := [ReporterTurn(true)] + rest;
  }

  // ---------------------------------------------------------------- a gate can always be finished

  lemma DrainedGateCanFinish(w: World, p: Pending, wire: Observation) returns (path: seq<Event>, after: World)
    requires Ready(w, p) && p.nonReportersCancelled && wire.receiptId == p.directive.receiptId
    ensures After(w, path) == Some(after) && Sound(after) && AllCancelled(after.store.rows, p.directive)
  {
    if p.reporterCancelled {
      path, after := [], w;
    } else {
      match p.reporter
      case AwaitNonReporters => path, after := WaitingReporterFinishes(w, p);
      case Released => path, after := ReporterFinishes(w, p);
      case KillingReporter => path, after := ReporterKillLands(w, p);
      case NoReporterAttempt =>
        var first, mid, waiting := CoreCanAnswer(w, p, wire);
        var rest;
        rest, after := WaitingReporterFinishes(mid, waiting);
        AfterConcat(w, first, rest);
        path := first + rest;
    }
  }

  /**
   * Wherever the attempts of a pending gate stand, and whether or not its
   * observation was journaled before, some run cancels every task of it without
   * a restart. `wire` is an observation the outer runner may send if none was kept.
   */
  lemma GateCanFinish(w: World, p: Pending, wire: Observation) returns (path: seq<Event>, after: World)
    requires Ready(w, p) && wire.receiptId == p.directive.receiptId
    ensures After(w, path) == Some(after) && Sound(after) && AllCancelled(after.store.rows, p.directive)
  {
    var drain, mid, drained := DrainFromAnywhere(w, p);
    var rest;
    rest, after := DrainedGateCanFinish(mid, drained, wire);
    AfterConcat(w, drain, rest);
    path := drain + rest;
  }
}

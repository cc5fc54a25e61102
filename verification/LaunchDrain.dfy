/**
 * The drain before a BLOCKED snapshot: launches (`launchBackground` in
 * src/effects.ts, `rememberSpawn` in src/extension.ts) running beside blocked
 * admissions (`beforeBlockedForward` in src/extension.ts and `handleConnection`
 * in src/child-control-broker.ts). One event is what runs between two awaits.
 */
module LaunchDrain {
  import opened Ownership
  import opened OwnershipRuns

  /** A flight spans the background run and the durable registration of its task. */
  datatype Flight = Running(action: Action) | Returned(action: Action, task: Task) | Registered

  /** A blocked admission waits for flights, then for acknowledgements, then is forwarded to Core. */
  datatype Admission = Draining(awaited: set<nat>) | Acknowledging(remaining: set<string>) | Forwarded

  datatype Launched = Launched(action: Action, task: Task)

  /**
   * `returned`: launches of this process whose run returned a task. `accepted`
   * and `refused`: those whose registration passed or failed its guards. `base`:
   * the bindings restored when the process started.
   */
  datatype World = World(
    store: Store, flights: map<nat, Flight>, nextFlight: nat, admissions: map<nat, Admission>,
    returned: seq<Launched>, accepted: set<Launched>, refused: set<Launched>, base: map<string, Binding>)

  const INITIAL := World(EMPTY_STORE, map[], 0, map[], [], {}, {}, map[])

  datatype Event =
    | StartLaunch(action: Action)
    | RunReturns(flight: nat, task: Task)
    | RunFails(flight: nat)
    | Spawned(flight: nat, durable: bool)             // rememberSpawn
    | Complete(flight: nat)
    | OpenAdmission(connection: nat)
    | Drained(connection: nat)
    | Acked(connection: nat, taskId: string, durable: bool)
    | Forward(connection: nat)
    | CoreRetries(connection: nat)
    | CoreAccepts(connection: nat, directive: Directive, durable: bool)
    | AdmissionFails(connection: nat)
    | Other(call: Call, durable: bool)
    | Restart

  function Unacknowledged(m: Memory): set<string> {
    set t | t in m.owned && !m.owned[t].acknowledged
  }

  /**
   * The guards of registration: the task is the one the action describes, the
   * descriptor is within its bound, and neither the task id nor the action id
   * belongs to another launch.
   */
  predicate Registrable(m: Memory, launch: Launched) {
    && TaskMatchesAction(launch.task, launch.action) && DescriptorAccepted(launch.action)
    && (if launch.task.id in m.owned then SameBinding(m.owned[launch.task.id], launch.action, launch.task)
        else launch.action.actionId !in m.actionTasks)
  }

  /** The world once the guards have judged the launch. */
  function Judged(w: World, launch: Launched): World {
    if Registrable(w.store.memory, launch) then w.(accepted := w.accepted + {launch})
    else w.(refused := w.refused + {launch})
  }

  function SpawnedStep(w: World, f: nat, durable: bool): World {
    if f !in w.flights || !w.flights[f].Returned? then w else
    var launch := Launched(w.flights[f].action, w.flights[f].task);
    var call := RegisterCall(launch.action, launch.task);
    var registered := Perform(w.store, call, durable);
    var judged := Judged(w, launch);
    if Succeeds(w.store, call, durable) then judged.(store := registered, flights := w.flights[f := Registered])
    else judged.(store := Perform(registered, RetainFailClosed, true), flights := w.flights - {f})
  }

  function FlightStep(w: World, event: Event): World {
    match event
    case StartLaunch(action) =>
      if !MayLaunch(w.store.memory) then w
      else w.(flights := w.flights[w.nextFlight := Running(action)], nextFlight := w.nextFlight + 1)
    case RunReturns(f, task) =>
      if f !in w.flights || !w.flights[f].Running? then w
      else w.(flights := w.flights[f := Returned(w.flights[f].action, task)],
              returned := w.returned + [Launched(w.flights[f].action, task)])
    case RunFails(f) => if f in w.flights && w.flights[f].Running? then w.(flights := w.flights - {f}) else w
    case Spawned(f, durable) => SpawnedStep(w, f, durable)
    case Complete(f) => if f in w.flights && w.flights[f].Registered? then w.(flights := w.flights - {f}) else w
    case _ => w
  }

  function AckedStep(w: World, c: nat, taskId: string, durable: bool): World {
    if c !in w.admissions || !w.admissions[c].Acknowledging? || taskId !in w.admissions[c].remaining
       || taskId !in w.store.memory.owned then w else
    var binding := w.store.memory.owned[taskId];
    var call := AcknowledgeCall(binding.action, binding.task);
    var next := w.(store := Perform(w.store, call, durable));
    if Succeeds(w.store, call, durable)
    then next.(admissions := w.admissions[c := Acknowledging(w.admissions[c].remaining - {taskId})])
    else next.(admissions := w.admissions - {c})
  }

  function AdmissionStep(w: World, event: Event): World {
    match event
    case OpenAdmission(c) =>
      if c in w.admissions then w
      else w.(store := Perform(w.store, AcquireAdmission, true),
              admissions := w.admissions[c := Draining(w.flights.Keys)])
    case Drained(c) =>
      if c !in w.admissions || !w.admissions[c].Draining? || w.admissions[c].awaited * w.flights.Keys != {} then w
      else w.(admissions := w.admissions[c := Acknowledging(Unacknowledged(w.store.memory))])
    case Acked(c, taskId, durable) => AckedStep(w, c, taskId, durable)
    case Forward(c) =>
      if c in w.admissions && w.admissions[c] == Acknowledging({}) then w.(admissions := w.admissions[c := Forwarded])
      else w
    case CoreRetries(c) =>
      if c in w.admissions && w.admissions[c].Forwarded?
      then w.(store := Perform(w.store, ReleaseOnRetry, true), admissions := w.admissions - {c}) else w
    case CoreAccepts(c, directive, durable) =>
      if c in w.admissions && w.admissions[c].Forwarded?
      then w.(store := Perform(w.store, PromoteCall(directive), durable), admissions := w.admissions - {c}) else w
    case AdmissionFails(c) => w.(admissions := w.admissions - {c})
    case _ => w
  }

  /** Launch registration and the RETRY release happen only in their own events. */
  predicate Elsewhere(call: Call) {
    !call.RegisterCall? && !call.ReleaseOnRetry?
  }

  /** A new process: memory is rebuilt from the rows, flights and connections are gone. */
  function Restarted(w: World, m: Memory): World {
    w.(store := Store(m, w.store.rows), flights := map[], admissions := map[], returned := [], accepted := {},
       refused := {}, base := m.owned)
  }

  /** Where the journal cannot be reopened no Host runs on, so such a restart is not a step. */
  function Step(w: World, event: Event): World {
    match event
    case Other(call, durable) => if Elsewhere(call) then w.(store := Perform(w.store, call, durable)) else w
    case StartLaunch(_) => FlightStep(w, event)
    case RunReturns(_, _) => FlightStep(w, event)
    case RunFails(_) => FlightStep(w, event)
    case Spawned(_, _) => FlightStep(w, event)
    case Complete(_) => FlightStep(w, event)
    case Restart =>
      var restored := RestoreAll(w.store.rows);
      if restored.None? then w else Restarted(w, restored.value)
    case _ => AdmissionStep(w, event)
  }

  function Run(events: seq<Event>): World {
    if events == [] then INITIAL else Step(Run(events[..|events| - 1]), events[|events| - 1])
  }

  /** The event is a RETRY that opens the hold. */
  predicate Releases(w: World, event: Event) {
    event.CoreRetries? && event.connection in w.admissions && w.admissions[event.connection].Forwarded?
    && w.store.memory.hold == Provisional
  }

  /** A RETRY that opens the hold answers the only outstanding admission. */
  predicate Lone(w: World, event: Event) {
    Releases(w, event) ==> w.admissions.Keys == {event.connection}
  }

  /** Admissions may overlap in any other way. */
  predicate LoneRetries(events: seq<Event>) {
    events == [] ||
    (var n := |events| - 1; LoneRetries(events[..n]) && Lone(Run(events[..n]), events[n]))
  }

  // ---------------------------------------------------------------- what is promised at the forward

  /** The launch's task is owned under its action. */
  predicate OwnedUnder(owned: map<string, Binding>, launch: Launched) {
    launch.task.id in owned && SameAction(owned[launch.task.id].action, launch.action)
  }

  /** The two launches name the same task and action. */
  predicate SameLaunch(a: Launched, b: Launched) {
    a.task.id == b.task.id && SameAction(a.action, b.action)
  }

  /** The launch is still in flight, or its registration has passed or failed its guards. */
  ghost predicate AccountedFor(w: World, launch: Launched) {
    || (exists f :: f in w.flights && w.flights[f] == Returned(launch.action, launch.task))
    || launch in w.accepted || launch in w.refused
  }

  /** A launch is owned exactly when it was restored or some registration of it passed the guards. */
  ghost predicate OwnedExactly(w: World) {
    forall launch :: OwnedUnder(w.store.memory.owned, launch) <==>
                     OwnedUnder(w.base, launch) || exists a :: a in w.accepted && SameLaunch(a, launch)
  }

  /**
   * No flight is open; every launch that returned has been judged by the
   * registration guards, and a launch is owned exactly when some judgement let
   * it pass or it was restored; every binding is acknowledged.
   */
  ghost predicate Snapshot(w: World) {
    && w.flights == map[]
    && (forall i :: 0 <= i < |w.returned| ==> w.returned[i] in w.accepted || w.returned[i] in w.refused)
    && OwnedExactly(w)
    && Unacknowledged(w.store.memory) == {}
  }

  /** A gate, once promoted, holds for good. */
  predicate GateHeld(m: Memory) {
    m.activeGate.Some? ==> m.hold == Permanent
  }

  ghost predicate AdmissionSound(w: World, admission: Admission) {
    match admission
    case Draining(awaited) => w.flights.Keys <= awaited && forall f :: f in awaited ==> f < w.nextFlight
    case Acknowledging(remaining) =>
      w.flights == map[] && Unacknowledged(w.store.memory) <= remaining <= w.store.memory.owned.Keys
    case Forwarded => w.flights == map[] && Unacknowledged(w.store.memory) == {}
  }

  ghost predicate Sound(w: World) {
    && MutualInverse(w.store.memory.owned, w.store.memory.actionTasks)
    && GateHeld(w.store.memory)
    && (forall f :: f in w.flights ==> f < w.nextFlight)
    && (forall i :: 0 <= i < |w.returned| ==> AccountedFor(w, w.returned[i]))
    && OwnedExactly(w)
    && (forall c :: c in w.admissions ==> w.store.memory.hold != Open && AdmissionSound(w, w.admissions[c]))
  }

  // ---------------------------------------------------------------- one coordinator call

  /** Bindings are never dropped, rebound or un-acknowledged; only registration adds one. */
  ghost predicate OwnedKept(before: Memory, after: Memory) {
    forall t :: t in before.owned ==>
      && t in after.owned && after.owned[t].action == before.owned[t].action
      && (before.owned[t].acknowledged ==> after.owned[t].acknowledged)
  }

  lemma InstallKeeps(m: Memory, b: Binding)
    requires MutualInverse(m.owned, m.actionTasks)
    requires (b.task.id !in m.owned && b.action.actionId !in m.actionTasks)
             || (b.task.id in m.owned && m.owned[b.task.id].action == b.action
                 && (m.owned[b.task.id].acknowledged ==> b.acknowledged))
    ensures var next := Install(m, b);
            MutualInverse(next.owned, next.actionTasks) && OwnedKept(m, next)
            && (b.task.id in m.owned ==> next.owned.Keys == m.owned.Keys)
  {
    InstallKeepsInverse(m, b);
  }

  /** One outcome of a call, seen from the flights and admissions beside it. */
  ghost predicate Keeps(before: Memory, after: Memory, call: Call) {
    && MutualInverse(after.owned, after.actionTasks) && OwnedKept(before, after)
    && (GateHeld(before) ==> GateHeld(after))
    && (!call.RegisterCall? ==> after.owned.Keys == before.owned.Keys)
    && (!call.ReleaseOnRetry? && before.hold != Open ==> after.hold != Open)
  }

  ghost predicate PlanKeeps(m: Memory, plan: Plan, call: Call) {
    match plan
    case Refused => true
    case Settled(next) => Keeps(m, next, call)
    case Write(_, next, onFailure) => Keeps(m, next, call) && Keeps(m, onFailure, call)
  }

  lemma AcknowledgeKeeps(m: Memory, action: Action, task: Task)
    requires MutualInverse(m.owned, m.actionTasks)
    ensures PlanKeeps(m, Acknowledge(m, action, task), AcknowledgeCall(action, task))
  {
    if Acknowledge(m, action, task).Write? { InstallKeeps(m, m.owned[task.id].(acknowledged := true)); }
  }

  lemma TerminalKeeps(m: Memory, task: Task, action: Action)
    requires MutualInverse(m.owned, m.actionTasks)
    ensures PlanKeeps(m, RecordTerminal(m, task, action), TerminalCall(task, action))
  {
    if RecordTerminal(m, task, action).Write? { InstallKeeps(m, m.owned[task.id].(task := task, terminal := true)); }
  }

  lemma ForwardKeeps(m: Memory, taskId: string)
    requires MutualInverse(m.owned, m.actionTasks)
    ensures PlanKeeps(m, ForwardTerminal(m, taskId), ForwardCall(taskId))
  {
    if ForwardTerminal(m, taskId).Write? { InstallKeeps(m, m.owned[taskId].(terminalForwarded := true)); }
  }

  lemma RegisterCallKeeps(m: Memory, action: Action, task: Task)
    requires MutualInverse(m.owned, m.actionTasks)
    ensures PlanKeeps(m, RegisterRun(m, action, task), RegisterCall(action, task))
  {
    if RegisterRun(m, action, task).Write? { InstallKeeps(m, Binding(task, action, false, false, false)); }
  }

  lemma SameMapsKeep(m: Memory, after: Memory, call: Call)
    requires MutualInverse(m.owned, m.actionTasks)
    requires after.owned == m.owned && after.actionTasks == m.actionTasks && (GateHeld(m) ==> GateHeld(after))
    requires call.ReleaseOnRetry? || after.hold == m.hold || after.hold != Open
    ensures Keeps(m, after, call)
  {
  }

  lemma GateCallKeeps(m: Memory, call: Call)
    requires MutualInverse(m.owned, m.actionTasks)
    requires call.PromoteCall? || call.ArriveCall? || call.ObserveCall? || call.CancelCall?
    ensures PlanKeeps(m, PlanOf(m, call), call)
  {
    SameMapsKeep(m, m, call);
    match PlanOf(m, call)
    case Refused =>
    case Settled(next) => SameMapsKeep(m, next, call);
    case Write(_, next, _) => SameMapsKeep(m, next, call);
  }

  lemma HoldCallKeeps(m: Memory, call: Call)
    requires MutualInverse(m.owned, m.actionTasks)
    requires call.AcquireAdmission? || call.ReleaseOnRetry? || call.RetainFailClosed? || call.FinishActivation?
    ensures PlanKeeps(m, PlanOf(m, call), call)
  {
    if PlanOf(m, call).Settled? { SameMapsKeep(m, PlanOf(m, call).next, call); }
  }

  lemma EveryPlanKeeps(m: Memory, call: Call)
    requires MutualInverse(m.owned, m.actionTasks)
    ensures PlanKeeps(m, PlanOf(m, call), call)
  {
    match call
    case RegisterCall(action, task) => RegisterCallKeeps(m, action, task);
    case AcknowledgeCall(action, task) => AcknowledgeKeeps(m, action, task);
    case TerminalCall(task, action) => TerminalKeeps(m, task, action);
    case ForwardCall(taskId) => ForwardKeeps(m, taskId);
    case PromoteCall(_) => GateCallKeeps(m, call);
    case ArriveCall(_, _) => GateCallKeeps(m, call);
    case ObserveCall(_) => GateCallKeeps(m, call);
    case CancelCall(_, _) => GateCallKeeps(m, call);
    case _ => HoldCallKeeps(m, call);
  }

  lemma ExecuteKeeps(s: Store, plan: Plan, call: Call, durable: bool)
    requires MutualInverse(s.memory.owned, s.memory.actionTasks) && PlanKeeps(s.memory, plan, call)
    ensures Keeps(s.memory, Execute(s, plan, durable).memory, call)
  {
  }

  lemma CallKeeps(s: Store, call: Call, durable: bool)
    requires MutualInverse(s.memory.owned, s.memory.actionTasks)
    ensures Keeps(s.memory, Perform(s, call, durable).memory, call)
  {
    EveryPlanKeeps(s.memory, call);
    ExecuteKeeps(s, PlanOf(s.memory, call), call, durable);
  }

  // ---------------------------------------------------------------- reopening

  lemma RestoreSound(m: Memory, row: Row)
    requires MutualInverse(m.owned, m.actionTasks) && GateHeld(m) && Restore(m, row).Some?
    ensures var next := Restore(m, row).value; MutualInverse(next.owned, next.actionTasks) && GateHeld(next)
  {
    match row
    case Launch(task, action, _, _, _, _) => InstallKeepsInverse(m, Binding(task, action, false, false, false));
    case LaunchAck(c) => InstallKeepsInverse(m, m.owned[c.taskId].(acknowledged := true));
    case TerminalTombstone(c, task, _) => InstallKeepsInverse(m, m.owned[c.taskId].(task := task, terminal := true));
    case TerminalForwarded(c) => InstallKeepsInverse(m, m.owned[c.taskId].(terminalForwarded := true));
    case _ =>
  }

  /** Whatever the journal holds, a memory rebuilt from it is keyed both ways alike. */
  lemma {:induction false} RestoreAllSound(rows: seq<Row>)
    requires RestoreAll(rows).Some?
    ensures var m := RestoreAll(rows).value; MutualInverse(m.owned, m.actionTasks) && GateHeld(m)
  {
    if rows != [] {
      RestoreAllSound(rows[..|rows| - 1]);
      RestoreSound(RestoreAll(rows[..|rows| - 1]).value, rows[|rows| - 1]);
    }
  }

  // ---------------------------------------------------------------- who is owned

  /** Exactly the guards decide what registration refuses. */
  lemma RefusedIffGuards(m: Memory, launch: Launched)
    requires MutualInverse(m.owned, m.actionTasks)
    ensures RegisterRun(m, launch.action, launch.task).Refused? <==> !Registrable(m, launch)
  {
  }

  /** After registration exactly the launches owned before are owned, and this one if it passed the guards. */
  lemma RegistrationOwns(s: Store, launch: Launched, durable: bool, other: Launched)
    requires MutualInverse(s.memory.owned, s.memory.actionTasks)
    ensures OwnedUnder(Perform(s, RegisterCall(launch.action, launch.task), durable).memory.owned, other) <==>
            OwnedUnder(s.memory.owned, other) || (Registrable(s.memory, launch) && SameLaunch(launch, other))
  {
    RefusedIffGuards(s.memory, launch);
  }

  lemma KeptOwnedUnder(before: Memory, after: Memory, launch: Launched)
    requires OwnedKept(before, after) && after.owned.Keys == before.owned.Keys
    ensures OwnedUnder(after.owned, launch) <==> OwnedUnder(before.owned, launch)
  {
  }

  lemma OwnedExactlyKept(w: World, store: Store)
    requires OwnedExactly(w) && OwnedKept(w.store.memory, store.memory)
    requires store.memory.owned.Keys == w.store.memory.owned.Keys
    ensures OwnedExactly(w.(store := store))
  {
    forall launch ensures OwnedUnder(store.memory.owned, launch) <==> OwnedUnder(w.store.memory.owned, launch) {
      KeptOwnedUnder(w.store.memory, store.memory, launch);
    }
  }

  lemma OwnedExactlyRegistered(w: World, launch: Launched, durable: bool)
    requires OwnedExactly(w) && MutualInverse(w.store.memory.owned, w.store.memory.actionTasks)
    ensures var accepted := if Registrable(w.store.memory, launch) then w.accepted + {launch} else w.accepted;
            OwnedExactly(w.(store := Perform(w.store, RegisterCall(launch.action, launch.task), durable),
                            accepted := accepted))
  {
    var store := Perform(w.store, RegisterCall(launch.action, launch.task), durable);
    var accepted := if Registrable(w.store.memory, launch) then w.accepted + {launch} else w.accepted;
    forall other ensures OwnedUnder(store.memory.owned, other) <==>
                         OwnedUnder(w.base, other) || exists a :: a in accepted && SameLaunch(a, other) {
      RegistrationOwns(w.store, launch, durable, other);
      if OwnedUnder(w.store.memory.owned, other) && !OwnedUnder(w.base, other) {
        var a :| a in w.accepted && SameLaunch(a, other);
        assert a in accepted;
      }
      if Registrable(w.store.memory, launch) && SameLaunch(launch, other) { assert launch in accepted; }
    }
  }

  // ---------------------------------------------------------------- every event

  /** A call keeps the world sound as long as it can neither add a binding nor open the hold. */
  lemma OtherCallSound(w: World, call: Call, durable: bool)
    requires Sound(w) && Elsewhere(call)
    ensures Sound(w.(store := Perform(w.store, call, durable)))
  {
    CallKeeps(w.store, call, durable);
    KeptStoreSound(w, Perform(w.store, call, durable), call);
  }

  lemma KeptStoreSound(w: World, store: Store, call: Call)
    requires Sound(w) && Elsewhere(call) && Keeps(w.store.memory, store.memory, call)
    ensures Sound(w.(store := store))
  {
    var after := w.(store := store);
    OwnedExactlyKept(w, store);
    assert Unacknowledged(after.store.memory) <= Unacknowledged(w.store.memory);
    forall i | 0 <= i < |w.returned| ensures AccountedFor(after, w.returned[i]) {
      assert AccountedFor(w, w.returned[i]);
    }
  }

  /** The flights may change as long as no returned task is forgotten. */
  lemma FlightsSound(w: World, after: World)
    requires Sound(w)
    requires after == w.(flights := after.flights, nextFlight := after.nextFlight)
    requires w.nextFlight <= after.nextFlight && forall g :: g in after.flights ==> g < after.nextFlight
    requires forall g :: g in w.flights && w.flights[g].Returned? ==> g in after.flights && after.flights[g] == w.flights[g]
    requires after.flights.Keys <= w.flights.Keys || (w.store.memory.hold == Open)
    ensures Sound(after)
  {
    forall i | 0 <= i < |w.returned| ensures AccountedFor(after, w.returned[i]) {
      assert AccountedFor(w, w.returned[i]);
      if g :| g in w.flights && w.flights[g] == Returned(w.returned[i].action, w.returned[i].task) {
        assert after.flights[g] == w.flights[g];
      }
    }
    assert OwnedExactly(after);
    if after.flights.Keys <= w.flights.Keys {
      assert w.flights == map[] ==> after.flights == map[] by {
        if w.flights == map[] { assert after.flights.Keys == {}; }
      }
    }
  }

  lemma ReturnSound(w: World, f: nat, task: Task)
    requires Sound(w)
    ensures Sound(FlightStep(w, RunReturns(f, task)))
  {
    var after := FlightStep(w, RunReturns(f, task));
    if f in w.flights && w.flights[f].Running? {
      assert after.flights.Keys == w.flights.Keys;
      forall i | 0 <= i < |after.returned| ensures AccountedFor(after, after.returned[i]) {
        if i < |w.returned| {
          assert AccountedFor(w, w.returned[i]);
          if g :| g in w.flights && w.flights[g] == Returned(w.returned[i].action, w.returned[i].task) {
            assert after.flights[g] == w.flights[g];
          }
        } else {
          assert after.flights[f] == Returned(w.flights[f].action, task);
        }
      }
      assert OwnedExactly(after);
    }
  }

  /** After registration the flight may close: its launch has been judged. */
  lemma SettleSound(w: World, f: nat, after: World)
    requires Sound(w) && f in w.flights && w.flights[f].Returned?
    requires after == w.(store := after.store, flights := w.flights[f := Registered], accepted := after.accepted,
                         refused := after.refused)
    requires Keeps(w.store.memory, after.store.memory, RegisterCall(w.flights[f].action, w.flights[f].task))
    requires OwnedExactly(after) && w.accepted <= after.accepted && w.refused <= after.refused
    requires Launched(w.flights[f].action, w.flights[f].task) in after.accepted + after.refused
    ensures Sound(after)
  {
    assert after.flights.Keys == w.flights.Keys;
    forall i | 0 <= i < |w.returned| ensures AccountedFor(after, w.returned[i]) {
      assert AccountedFor(w, w.returned[i]);
      if g :| g in w.flights && w.flights[g] == Returned(w.returned[i].action, w.returned[i].task) {
        if g != f { assert after.flights[g] == w.flights[g]; }
      }
    }
    forall c | c in w.admissions ensures AdmissionSound(after, w.admissions[c]) {
      assert AdmissionSound(w, w.admissions[c]) && f in w.flights;
    }
  }

  lemma JudgedSound(w: World, f: nat, launch: Launched, durable: bool)
    requires Sound(w) && f in w.flights && w.flights[f] == Returned(launch.action, launch.task)
    ensures var registered := Perform(w.store, RegisterCall(launch.action, launch.task), durable);
            Sound(Judged(w, launch).(store := registered, flights := w.flights[f := Registered]))
  {
    var call := RegisterCall(launch.action, launch.task);
    var registered := Perform(w.store, call, durable);
    CallKeeps(w.store, call, durable);
    OwnedExactlyRegistered(w, launch, durable);
    var settled := Judged(w, launch).(store := registered, flights := w.flights[f := Registered]);
    assert OwnedExactly(settled);
    SettleSound(w, f, settled);
  }

  /** A launch that could not be registered leaves its flight and closes the hold. */
  lemma RetainSound(w: World, f: nat)
    requires Sound(w) && f in w.flights && w.flights[f].Registered?
    ensures Sound(w.(store := Perform(w.store, RetainFailClosed, true), flights := w.flights - {f}))
  {
    OtherCallSound(w, RetainFailClosed, true);
    var held := w.(store := Perform(w.store, RetainFailClosed, true));
    FlightsSound(held, held.(flights := w.flights - {f}));
  }

  lemma SpawnedSound(w: World, f: nat, durable: bool)
    requires Sound(w)
    ensures Sound(SpawnedStep(w, f, durable))
  {
    if f in w.flights && w.flights[f].Returned? {
      var launch := Launched(w.flights[f].action, w.flights[f].task);
      JudgedSound(w, f, launch, durable);
      var registered := Perform(w.store, RegisterCall(launch.action, launch.task), durable);
      var settled := Judged(w, launch).(store := registered, flights := w.flights[f := Registered]);
      RetainSound(settled, f);
      assert settled.flights - {f} == w.flights - {f};
    }
  }

  lemma FlightStepSound(w: World, event: Event)
    requires Sound(w)
    ensures Sound(FlightStep(w, event))
  {
    var after := FlightStep(w, event);
    match event
    case StartLaunch(action) => FlightsSound(w, after);
    case RunReturns(f, task) => ReturnSound(w, f, task);
    case RunFails(f) => FlightsSound(w, after);
    case Spawned(f, durable) => SpawnedSound(w, f, durable);
    case Complete(f) => FlightsSound(w, after);
    case _ =>
  }

  /** The admissions may change as long as each one is sound and the hold stays shut under them. */
  lemma AdmissionsSound(w: World, admissions: map<nat, Admission>)
    requires Sound(w)
    requires forall c :: c in admissions ==> w.store.memory.hold != Open && AdmissionSound(w, admissions[c])
    ensures Sound(w.(admissions := admissions))
  {
    var after := w.(admissions := admissions);
    forall i | 0 <= i < |w.returned| ensures AccountedFor(after, w.returned[i]) {
      assert AccountedFor(w, w.returned[i]);
    }
    assert OwnedExactly(after);
  }

  lemma AckedSound(w: World, c: nat, taskId: string, durable: bool)
    requires Sound(w)
    ensures Sound(AckedStep(w, c, taskId, durable))
  {
    if c in w.admissions && w.admissions[c].Acknowledging? && taskId in w.admissions[c].remaining
       && taskId in w.store.memory.owned {
      var binding := w.store.memory.owned[taskId];
      var call := AcknowledgeCall(binding.action, binding.task);
      OtherCallSound(w, call, durable);
      var after := w.(store := Perform(w.store, call, durable));
      if Succeeds(w.store, call, durable) {
        assert after.store.memory.owned[taskId].acknowledged;
        AdmissionsSound(after, w.admissions[c := Acknowledging(w.admissions[c].remaining - {taskId})]);
      } else {
        AdmissionsSound(after, w.admissions - {c});
      }
    }
  }

  lemma OpenSound(w: World, c: nat)
    requires Sound(w)
    ensures Sound(AdmissionStep(w, OpenAdmission(c)))
  {
    if c !in w.admissions {
      OtherCallSound(w, AcquireAdmission, true);
      var acquired := w.(store := Perform(w.store, AcquireAdmission, true));
      AdmissionsSound(acquired, w.admissions[c := Draining(w.flights.Keys)]);
    }
  }

  lemma RetrySound(w: World, c: nat)
    requires Sound(w) && c in w.admissions && w.admissions[c].Forwarded? && Lone(w, CoreRetries(c))
    ensures Sound(AdmissionStep(w, CoreRetries(c)))
  {
    AdmissionsSound(w, w.admissions - {c});
    var dropped := w.(admissions := w.admissions - {c});
    var store := Perform(w.store, ReleaseOnRetry, true);
    if w.store.memory.hold == Provisional {
      assert dropped.admissions == map[];
      OwnedExactlyKept(dropped, store);
      var after := dropped.(store := store);
      forall i | 0 <= i < |w.returned| ensures AccountedFor(after, w.returned[i]) {
        assert AccountedFor(dropped, w.returned[i]);
      }
    } else {
      assert store == w.store;
    }
  }

  lemma DrainedSound(w: World, c: nat)
    requires Sound(w)
    ensures Sound(AdmissionStep(w, Drained(c)))
  {
    if c in w.admissions && w.admissions[c].Draining? && w.admissions[c].awaited * w.flights.Keys == {} {
      assert w.flights.Keys <= w.admissions[c].awaited * w.flights.Keys;
      assert w.flights == map[];
      AdmissionsSound(w, w.admissions[c := Acknowledging(Unacknowledged(w.store.memory))]);
    }
  }

  lemma AdmissionStepSound(w: World, event: Event)
    requires Sound(w) && Lone(w, event)
    ensures Sound(AdmissionStep(w, event))
  {
    match event
    case OpenAdmission(c) => OpenSound(w, c);
    case Drained(c) => DrainedSound(w, c);
    case Acked(c, taskId, durable) => AckedSound(w, c, taskId, durable);
    case Forward(c) =>
      if c in w.admissions && w.admissions[c] == Acknowledging({}) {
        AdmissionsSound(w, w.admissions[c := Forwarded]);
      }
    case CoreRetries(c) => if c in w.admissions && w.admissions[c].Forwarded? { RetrySound(w, c); }
    case CoreAccepts(c, directive, durable) =>
      OtherCallSound(w, PromoteCall(directive), durable);
      AdmissionsSound(w.(store := Perform(w.store, PromoteCall(directive), durable)), w.admissions - {c});
    case AdmissionFails(c) => AdmissionsSound(w, w.admissions - {c});
    case _ =>
  }

  lemma RestartSound(w: World)
    requires RestoreAll(w.store.rows).Some?
    ensures Sound(Restarted(w, RestoreAll(w.store.rows).value))
  {
    RestoreAllSound(w.store.rows);
  }

  lemma StepSound(w: World, event: Event)
    requires Sound(w) && Lone(w, event)
    ensures Sound(Step(w, event))
  {
    match event
    case Other(call, durable) => if Elsewhere(call) { OtherCallSound(w, call, durable); }
    case StartLaunch(_) => FlightStepSound(w, event);
    case RunReturns(_, _) => FlightStepSound(w, event);
    case RunFails(_) => FlightStepSound(w, event);
    case Spawned(_, _) => FlightStepSound(w, event);
    case Complete(_) => FlightStepSound(w, event);
    case Restart => if RestoreAll(w.store.rows).Some? { RestartSound(w); }
    case _ => AdmissionStepSound(w, event);
  }

  lemma {:induction false} LoneRunSound(events: seq<Event>)
    requires LoneRetries(events)
    ensures Sound(Run(events))
  {
    if events != [] {
      LoneRunSound(events[..|events| - 1]);
      StepSound(Run(events[..|events| - 1]), events[|events| - 1]);
    }
  }

  /**
   * Drain before snapshot, across restarts: if each RETRY that opens the hold
   * answers the only outstanding admission, then from the moment a blocked
   * request is forwarded until Core answers, no launch is in flight, every
   * returned launch has been judged and is owned exactly if the guards let it or
   * its like pass, and every binding is acknowledged.
   */
  lemma DrainedWhenForwarded(events: seq<Event>, c: nat)
    requires LoneRetries(events) && c in Run(events).admissions && Run(events).admissions[c].Forwarded?
    ensures Snapshot(Run(events))
  {
    LoneRunSound(events);
    var w := Run(events);
    assert AdmissionSound(w, w.admissions[c]);
    forall i | 0 <= i < |w.returned| ensures w.returned[i] in w.accepted || w.returned[i] in w.refused {
      assert AccountedFor(w, w.returned[i]);
    }
  }

  // ---------------------------------------------------------------- a RETRY beside another admission

  function Continue(w: World, events: seq<Event>): World {
    if events == [] then w else Step(Continue(w, events[..|events| - 1]), events[|events| - 1])
  }

  lemma {:induction false} ContinueAppend(w: World, first: seq<Event>, second: seq<Event>)
    ensures Continue(w, first + second) == Continue(Continue(w, first), second)
  {
    if second == [] {
      assert first + second == first;
    } else {
      var n := |first + second| - 1;
      assert (first + second)[..n] == first + second[..|second| - 1];
      ContinueAppend(w, first, second[..|second| - 1]);
    }
  }

  lemma {:induction false} RunIsContinue(events: seq<Event>)
    ensures Run(events) == Continue(INITIAL, events)
  {
    if events != [] { RunIsContinue(events[..|events| - 1]); }
  }

  /** Some admission has been forwarded and what it promised does not hold. */
  ghost predicate Leaks(w: World) {
    !Snapshot(w) && exists c :: c in w.admissions && w.admissions[c].Forwarded?
  }

  /** Nothing in flight and nothing to acknowledge, so admission `d` can be forwarded unhindered. */
  ghost predicate Unhindered(w: World, d: nat) {
    && w.flights == map[] && Unacknowledged(w.store.memory) == {} && d in w.admissions
    && MutualInverse(w.store.memory.owned, w.store.memory.actionTasks)
    && (w.admissions[d].Acknowledging? ==> w.admissions[d].remaining <= w.store.memory.owned.Keys)
  }

  /** Acknowledging what is acknowledged already changes nothing but the admission. */
  lemma AckedAgain(w: World, d: nat, t: string)
    requires Unhindered(w, d) && w.admissions[d].Acknowledging? && t in w.admissions[d].remaining
    ensures Step(w, Acked(d, t, true)) ==
            w.(admissions := w.admissions[d := Acknowledging(w.admissions[d].remaining - {t})])
  {
    assert t in w.store.memory.owned;
    assert t !in Unacknowledged(w.store.memory);
    assert w.store.memory.owned[t].task.id == t;
  }

  lemma {:induction false} AcknowledgeRest(w: World, d: nat, remaining: set<string>) returns (events: seq<Event>)
    requires Unhindered(w, d) && w.admissions[d] == Acknowledging(remaining)
    ensures Continue(w, events) == w.(admissions := w.admissions[d := Acknowledging({})])
    decreases remaining
  {
    if remaining == {} {
      events := [];
      assert w.admissions[d := Acknowledging({})] == w.admissions;
    } else {
      var t :| t in remaining;
      AckedAgain(w, d, t);
      var next := Step(w, Acked(d, t, true));
      var rest := AcknowledgeRest(next, d, remaining - {t});
      events := [Acked(d, t, true)] + rest;
      ContinueAppend(w, [Acked(d, t, true)], rest);
      assert next.admissions[d := Acknowledging({})] == w.admissions[d := Acknowledging({})];
    }
  }

  lemma ForwardFreely(w: World, d: nat) returns (events: seq<Event>)
    requires Unhindered(w, d)
    ensures Continue(w, events) == w.(admissions := w.admissions[d := Forwarded])
  {
    match w.admissions[d]
    case Forwarded =>
      events := [];
      assert w.admissions[d := Forwarded] == w.admissions;
    case Acknowledging(remaining) => events := ForwardAcknowledging(w, d);
    case Draining(awaited) =>
      var next := Step(w, Drained(d));
      assert awaited * w.flights.Keys == {};
      assert next == w.(admissions := w.admissions[d := Acknowledging({})]);
      var rest := ForwardAcknowledging(next, d);
      events := [Drained(d)] + rest;
      ContinueAppend(w, [Drained(d)], rest);
      assert next.admissions[d := Forwarded] == w.admissions[d := Forwarded];
  }

  lemma ForwardAcknowledging(w: World, d: nat) returns (events: seq<Event>)
    requires Unhindered(w, d) && w.admissions[d].Acknowledging?
    ensures Continue(w, events) == w.(admissions := w.admissions[d := Forwarded])
  {
    var acks := AcknowledgeRest(w, d, w.admissions[d].remaining);
    var next := Continue(w, acks);
    events := acks + [Forward(d)];
    ContinueAppend(w, acks, [Forward(d)]);
    assert next.admissions[d := Forwarded] == w.admissions[d := Forwarded];
  }

  lemma TwoSteps(w: World, a: Event, b: Event)
    ensures Continue(w, [a, b]) == Step(Step(w, a), b)
  {
    assert [a][..0] == [];
    assert Continue(w, [a]) == Step(w, a);
    assert [a, b][..1] == [a];
  }

  lemma ActivationFinishes(w: World)
    requires w.store.memory.hold == Open && w.store.memory.activeGate.None?
    ensures var finished := Step(w, Other(FinishActivation([]), true));
            && MayLaunch(finished.store.memory) && finished.admissions == w.admissions
            && finished.flights == w.flights && finished.nextFlight == w.nextFlight
  {
  }

  /** With the hold open and no gate, activation finishes and a launch enters beside a forwarded admission. */
  lemma LaunchBesideForwarded(w: World, d: nat, action: Action)
    requires w.store.memory.hold == Open && w.store.memory.activeGate.None?
    requires d in w.admissions && w.admissions[d].Forwarded?
    ensures Leaks(Continue(w, [Other(FinishActivation([]), true), StartLaunch(action)]))
  {
    var finished := Step(w, Other(FinishActivation([]), true));
    ActivationFinishes(w);
    var launched := Step(finished, StartLaunch(action));
    assert w.nextFlight in launched.flights;
    assert launched.admissions == w.admissions;
    TwoSteps(w, Other(FinishActivation([]), true), StartLaunch(action));
  }

  /** Every sound world in which a RETRY opens the hold under another admission can go on to leak. */
  lemma SharedRetryLeaks(w: World, c: nat, action: Action) returns (events: seq<Event>)
    requires Sound(w) && !Lone(w, CoreRetries(c))
    ensures Leaks(Continue(w, [CoreRetries(c)] + events))
  {
    var d :| d in w.admissions && d != c;
    assert AdmissionSound(w, w.admissions[c]) && AdmissionSound(w, w.admissions[d]);
    var retried := Step(w, CoreRetries(c));
    var drive := ForwardFreely(retried, d);
    var forwarded := Continue(retried, drive);
    var finish := [Other(FinishActivation([]), true), StartLaunch(action)];
    LaunchBesideForwarded(forwarded, d, action);
    events := drive + finish;
    ContinueAppend(retried, drive, finish);
    ContinueAppend(w, [CoreRetries(c)], events);
  }

  /**
   * The condition cannot be dropped: every run that breaks it has a beginning
   * that, continued otherwise, forwards a request beside a running launch.
   */
  lemma {:induction false} SharedRetryRunLeaks(events: seq<Event>, action: Action)
    returns (begun: nat, more: seq<Event>)
    requires !LoneRetries(events)
    ensures begun <= |events| && Leaks(Run(events[..begun] + more))
  {
    var n := |events| - 1;
    var before := events[..n];
    if LoneRetries(before) {
      LoneRunSound(before);
      var rest := SharedRetryLeaks(Run(before), events[n].connection, action);
      begun, more := n, [events[n]] + rest;
      RunIsContinue(before);
      RunIsContinue(before + more);
      ContinueAppend(INITIAL, before, more);
    } else {
      begun, more := SharedRetryRunLeaks(before, action);
      assert before[..begun] == events[..begun];
    }
  }

  // ---------------------------------------------------------------- a refused launch

  /** Nothing in flight, nothing to acknowledge, nothing held. */
  predicate Quiet(w: World) {
    MayLaunch(w.store.memory) && w.flights == map[] && w.admissions == map[] && Unacknowledged(w.store.memory) == {}
  }

  /** The flight of a task that its action does not describe is dropped, with the hold closed. */
  lemma RefusedSpawn(w: World, f: nat, launch: Launched)
    requires w.flights == map[f := Returned(launch.action, launch.task)] && w.store.memory.hold == Open
    requires !TaskMatchesAction(launch.task, launch.action)
    ensures Step(w, Spawned(f, true)) ==
            WithHold(w, Provisional).(flights := map[], refused := w.refused + {launch})
  {
    assert w.flights - {f} == map[];
  }

  lemma RunAndReturn(w: World, action: Action, task: Task)
    requires MayLaunch(w.store.memory) && w.flights == map[]
    ensures Step(Step(w, StartLaunch(action)), RunReturns(w.nextFlight, task)) ==
            w.(flights := map[w.nextFlight := Returned(action, task)], nextFlight := w.nextFlight + 1,
               returned := w.returned + [Launched(action, task)])
  {
    var started := Step(w, StartLaunch(action));
    assert started.flights == map[w.nextFlight := Running(action)];
  }

  /**
   * A run whose task is not the one its action describes is refused, and the
   * snapshot forwarded after it leaves that task out although it is running.
   */
  lemma RefusedLaunchIsLeftOut(w: World, action: Action, task: Task)
    requires Quiet(w) && !TaskMatchesAction(task, action) && task.id !in w.store.memory.owned
    ensures var f := w.nextFlight;
            var spawned := Continue(w, [StartLaunch(action), RunReturns(f, task), Spawned(f, true)]);
            var forwarded := Continue(spawned, [OpenAdmission(0), Drained(0), Forward(0)]);
            && forwarded.admissions == map[0 := Forwarded]
            && Launched(action, task) in forwarded.returned && task.id !in forwarded.store.memory.owned
  {
    var f := w.nextFlight;
    RunAndReturn(w, action, task);
    var returned := Step(Step(w, StartLaunch(action)), RunReturns(f, task));
    RefusedSpawn(returned, f, Launched(action, task));
    var spawned := Step(returned, Spawned(f, true));
    ThreeSteps(w, StartLaunch(action), RunReturns(f, task), Spawned(f, true));
    assert Unacknowledged(spawned.store.memory) == Unacknowledged(w.store.memory);
    ForwardQuiet(spawned);
  }

  function WithHold(w: World, hold: Hold): World {
    w.(store := w.store.(memory := w.store.memory.(hold := hold)))
  }

  lemma ThreeSteps(w: World, a: Event, b: Event, c: Event)
    ensures Continue(w, [a, b, c]) == Step(Step(Step(w, a), b), c)
  {
    TwoSteps(w, a, b);
    assert [a, b, c][..2] == [a, b];
  }

  lemma OpenQuiet(w: World)
    requires w.flights == map[] && w.admissions == map[] && w.store.memory.hold == Provisional
    ensures Step(w, OpenAdmission(0)) == w.(admissions := map[0 := Draining({})])
  {
    assert w.flights.Keys == {};
  }

  lemma DrainQuiet(w: World)
    requires w.admissions == map[0 := Draining({})] && Unacknowledged(w.store.memory) == {}
    ensures Step(Step(w, Drained(0)), Forward(0)) == w.(admissions := map[0 := Forwarded])
  {
    assert Step(w, Drained(0)) == w.(admissions := map[0 := Acknowledging({})]);
  }

  lemma ForwardQuiet(w: World)
    requires w.flights == map[] && w.admissions == map[] && Unacknowledged(w.store.memory) == {}
    requires w.store.memory.hold == Provisional
    ensures Continue(w, [OpenAdmission(0), Drained(0), Forward(0)]) == w.(admissions := map[0 := Forwarded])
  {
    ThreeSteps(w, OpenAdmission(0), Drained(0), Forward(0));
    OpenQuiet(w);
    DrainQuiet(w.(admissions := map[0 := Draining({})]));
  }
}

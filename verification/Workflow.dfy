/**
 * The workflow model checker (modelcheck/src/lib.rs): reachability, the C1, C2,
 * C3, C4 and C6 checks of one machine, and the C7 search of the lane machine.
 */
module Workflow {
  import opened Wrappers
  import opened Graph

  /** `terminal` is None where the row's property is missing or not a boolean. */
  datatype StateRow = StateRow(key: string, terminal: Option<bool>, forwardGate: Option<bool>, line: nat)

  /** A property is None where the row lacks it or it is not a string. */
  datatype Transition = Transition(from: Option<string>, to: Option<string>, evidence: Option<string>, line: nat)

  datatype Machine = Machine(key: string, initial: string, states: seq<StateRow>, transitions: seq<Transition>)

  datatype Code = C1 | C2 | C3 | C4 | C6 | C7

  datatype Violation = Violation(code: Code, machine: string, line: nat)

  // ---------------------------------------------------------------- the graph of a machine

  function Steps(m: Machine): set<(string, string)> {
    set i | 0 <= i < |m.transitions| && m.transitions[i].from.Some? && m.transitions[i].to.Some?
      :: (m.transitions[i].from.value, m.transitions[i].to.value)
  }

  predicate Leaves(t: Transition, s: string) {
    t.from == Some(s)
  }

  /** Some transition out of a reachable state has no target, so `reach` fails. */
  ghost predicate ReachFails(m: Machine, start: string) {
    exists i :: 0 <= i < |m.transitions| && m.transitions[i].from.Some? && m.transitions[i].to.None?
                && Reachable(Steps(m), start, m.transitions[i].from.value)
  }

  /** The targets of the transitions out of `s`, in order, or None if one is missing. */
  function TargetsFrom(ts: seq<Transition>, s: string): Option<seq<string>> {
    if ts == [] then Some([])
    else
      var before := TargetsFrom(ts[..|ts| - 1], s);
      var last := ts[|ts| - 1];
      if before.None? then None
      else if !Leaves(last, s) then before
      else if last.to.None? then None
      else Some(before.value + [last.to.value])
  }

  lemma {:induction false} TargetsAreSteps(ts: seq<Transition>, s: string)
    ensures TargetsFrom(ts, s).None? <==> exists i :: 0 <= i < |ts| && Leaves(ts[i], s) && ts[i].to.None?
    ensures TargetsFrom(ts, s).Some? ==>
              forall x :: x in TargetsFrom(ts, s).value <==>
                          exists i :: 0 <= i < |ts| && Leaves(ts[i], s) && ts[i].to == Some(x)
  {
    if ts != [] {
      var n := |ts| - 1;
      TargetsAreSteps(ts[..n], s);
      assert ts == ts[..n] + [ts[n]];
    }
  }

  method PushTargets(ts: seq<Transition>, s: string, q: seq<string>) returns (pushed: Option<seq<string>>)
    ensures pushed == if TargetsFrom(ts, s).None? then None else Some(q + TargetsFrom(ts, s).value)
  {
    var queue := q;
    assert ts[..0] == [];
    for i := 0 to |ts|
      invariant TargetsFrom(ts[..i], s).Some? && queue == q + TargetsFrom(ts[..i], s).value
    {
      assert ts[..i + 1][..i] == ts[..i];
      if Leaves(ts[i], s) {
        if ts[i].to.None? {
          TargetsAreSteps(ts, s);
          return None;
        }
        queue := queue + [ts[i].to.value];
      }
    }
    assert ts[..|ts|] == ts;
    pushed := Some(queue);
  }

  // ---------------------------------------------------------------- reach

  /** Every step out of `seen` leads into `seen` or the queue, and none lacks a target. */
  ghost predicate Explored(m: Machine, seen: set<string>, q: seq<string>) {
    forall i :: 0 <= i < |m.transitions| && m.transitions[i].from.Some? && m.transitions[i].from.value in seen ==>
      m.transitions[i].to.Some? && (m.transitions[i].to.value in seen || m.transitions[i].to.value in q)
  }

  function Universe(m: Machine, start: string): set<string> {
    {start} + set i | 0 <= i < |m.transitions| && m.transitions[i].to.Some? :: m.transitions[i].to.value
  }

  lemma TargetReached(m: Machine, start: string, s: string, x: string)
    requires Reachable(Steps(m), start, s)
    requires exists i :: 0 <= i < |m.transitions| && Leaves(m.transitions[i], s) && m.transitions[i].to == Some(x)
    ensures Reachable(Steps(m), start, x) && x in Universe(m, start)
  {
    var i :| 0 <= i < |m.transitions| && Leaves(m.transitions[i], s) && m.transitions[i].to == Some(x);
    assert (s, x) in Steps(m);
    ReachStep(Steps(m), start, s, x);
  }

  /** `reach`: breadth-first, the queue holding duplicates; exactly the endpoints of paths from `start`. */
  method Reach(m: Machine, start: string) returns (r: Result<set<string>>)
    ensures r.Err? <==> ReachFails(m, start)
    ensures r.Ok? ==> forall x :: x in r.value <==> Reachable(Steps(m), start, x)
  {
    var seen: set<string> := {};
    var q := [start];
    ReachesItself(Steps(m), start);
    while q != []
      invariant start in seen || start in q
      invariant Explored(m, seen, q)
      invariant seen <= Universe(m, start) && forall x :: x in seen ==> Reachable(Steps(m), start, x)
      invariant forall x :: x in q ==> x in Universe(m, start) && Reachable(Steps(m), start, x)
      decreases Universe(m, start) - seen, |q|
    {
      var s := q[0];
      var rest := q[1..];
      assert q == [s] + rest;
      if s in seen {
        q := rest;
      } else {
        var pushed := PushTargets(m.transitions, s, rest);
        TargetsAreSteps(m.transitions, s);
        if pushed.None? {
          return Err("`to` must be string");
        }
        forall x | x in TargetsFrom(m.transitions, s).value
          ensures x in Universe(m, start) && Reachable(Steps(m), start, x)
        {
          TargetReached(m, start, s, x);
        }
        seen := seen + {s};
        q := pushed.value;
      }
    }
    ExploredIsExact(m, start, seen);
    r := Ok(seen);
  }

  lemma ExploredIsExact(m: Machine, start: string, seen: set<string>)
    requires Explored(m, seen, []) && start in seen
    ensures !ReachFails(m, start) && forall x :: Reachable(Steps(m), start, x) ==> x in seen
  {
    forall x | Reachable(Steps(m), start, x) ensures x in seen {
      ClosedContainsReachable(seen, Steps(m), start, x);
    }
  }

  // ---------------------------------------------------------------- the checks of one machine

  /** The names of the rows marked terminal. */
  function Terminals(m: Machine): set<string> {
    set i | 0 <= i < |m.states| && m.states[i].terminal == Some(true) :: m.states[i].key
  }

  function Names(m: Machine): set<string> {
    set i | 0 <= i < |m.states| :: m.states[i].key
  }

  /** C2: no transition leaves the state. */
  predicate Stuck(m: Machine, s: string) {
    forall i :: 0 <= i < |m.transitions| ==> !Leaves(m.transitions[i], s)
  }

  /** C4: no terminal state can be reached. */
  ghost predicate Hopeless(m: Machine, s: string) {
    forall x :: x in Terminals(m) ==> !Reachable(Steps(m), s, x)
  }

  /** The strongly connected component of `n`; empty where `reach` fails on `n`. */
  ghost function Component(m: Machine, n: string): set<string> {
    if ReachFails(m, n) then {}
    else set x | x in Universe(m, n) && Reachable(Steps(m), n, x) && Reachable(Steps(m), x, n)
  }

  /** A transition out of the set; one without a target counts. */
  predicate HasExit(m: Machine, c: set<string>) {
    exists i :: 0 <= i < |m.transitions| && m.transitions[i].from.Some? && m.transitions[i].from.value in c
                && !(m.transitions[i].to.Some? && m.transitions[i].to.value in c)
  }

  predicate SelfLoop(m: Machine, n: string) {
    exists i :: 0 <= i < |m.transitions| && Leaves(m.transitions[i], n) && m.transitions[i].to == Some(n)
  }

  /** C3: `n` lies on a cycle whose component has no exit. */
  ghost predicate Trapped(m: Machine, n: string) {
    (|Component(m, n)| > 1 || SelfLoop(m, n)) && !HasExit(m, Component(m, n))
  }

  ghost function StateFindings(m: Machine, s: StateRow): seq<Violation> {
    (if Reachable(Steps(m), m.initial, s.key) then [] else [Violation(C1, m.key, s.line)])
    + (if s.terminal != Some(true) && Stuck(m, s.key) then [Violation(C2, m.key, s.line)] else [])
    + (if s.terminal != Some(true) && Hopeless(m, s.key) then [Violation(C4, m.key, s.line)] else [])
  }

  ghost function AllStateFindings(m: Machine, states: seq<StateRow>): seq<Violation> {
    if states == [] then []
    else AllStateFindings(m, states[..|states| - 1]) + StateFindings(m, states[|states| - 1])
  }

  function EvidenceFindings(key: string, ts: seq<Transition>): seq<Violation> {
    if ts == [] then []
    else
      var last := ts[|ts| - 1];
      EvidenceFindings(key, ts[..|ts| - 1])
      + if last.evidence.None? || last.evidence.value == "" then [Violation(C6, key, last.line)] else []
  }

  /** `check` gives up on the machine: a state without a `terminal` flag, or a failed search. */
  ghost predicate CheckFails(m: Machine, states: seq<StateRow>) {
    exists i :: 0 <= i < |states|
                && (states[i].terminal.None? || (states[i].terminal == Some(false) && ReachFails(m, states[i].key)))
  }

  ghost function TrappedNames(m: Machine): set<string> {
    set n | n in Names(m) && Trapped(m, n)
  }

  /** The component of `n`, by one search from `n` and one from each state found. */
  method ComponentOf(m: Machine, n: string) returns (c: set<string>)
    ensures c == Component(m, n)
  {
    c := {};
    var f := Reach(m, n);
    if f.Err? {
      return;
    }
    var left := f.value;
    forall x | x in left ensures x in Universe(m, n) {
      ReachableInUniverse(m, n, x);
    }
    while left != {}
      invariant left <= f.value
      invariant forall x :: x in c <==> x in f.value - left && Reachable(Steps(m), x, n)
      decreases left
    {
      var s :| s in left;
      FailureCarries(m, n, s);
      var back := Reach(m, s);
      if back.Ok? && n in back.value {
        c := c + {s};
      }
      left := left - {s};
    }
  }

  lemma ReachableInUniverse(m: Machine, start: string, x: string)
    requires Reachable(Steps(m), start, x)
    ensures x in Universe(m, start)
  {
    ClosedContainsReachable(Universe(m, start), Steps(m), start, x);
  }

  /** A search that fails from a reachable state fails from the start. */
  lemma FailureCarries(m: Machine, n: string, s: string)
    requires Reachable(Steps(m), n, s)
    ensures ReachFails(m, s) ==> ReachFails(m, n)
  {
    if ReachFails(m, s) {
      var i :| 0 <= i < |m.transitions| && m.transitions[i].from.Some? && m.transitions[i].to.None?
               && Reachable(Steps(m), s, m.transitions[i].from.value);
      ReachTransitive(Steps(m), n, s, m.transitions[i].from.value);
    }
  }

  /** `cycles`: one C3 line for every declared name whose cycle has no exit. */
  method Cycles(m: Machine) returns (out: seq<Violation>)
    ensures out == seq(|TrappedNames(m)|, _ => Violation(C3, m.key, 1))
  {
    out := [];
    var left := Names(m);
    ghost var found: set<string> := {};
    while left != {}
      invariant left <= Names(m)
      invariant found == set n | n in Names(m) && n !in left && Trapped(m, n)
      invariant out == seq(|found|, _ => Violation(C3, m.key, 1))
      decreases left
    {
      var n :| n in left;
      left := left - {n};
      var c := ComponentOf(m, n);
      if (|c| > 1 || SelfLoop(m, n)) && !HasExit(m, c) {
        out := out + [Violation(C3, m.key, 1)];
        assert n !in found;
        found := found + {n};
      }
    }
    assert found == TrappedNames(m);
  }

  /** The per-machine part of `check`: the findings in order, or an error. */
  method CheckMachine(m: Machine) returns (r: Result<seq<Violation>>)
    ensures r.Err? <==> ReachFails(m, m.initial) || CheckFails(m, m.states)
    ensures r.Ok? ==> r.value == AllStateFindings(m, m.states)
                                 + seq(|TrappedNames(m)|, _ => Violation(C3, m.key, 1))
                                 + EvidenceFindings(m.key, m.transitions)
  {
    var terms := Terminals(m);
    var init := Reach(m, m.initial);
    if init.Err? {
      return Err(init.error);
    }
    var out: seq<Violation> := [];
    assert m.states[..0] == [];
    for k := 0 to |m.states|
      invariant !CheckFails(m, m.states[..k])
      invariant out == AllStateFindings(m, m.states[..k])
    {
      var s := m.states[k];
      assert m.states[..k + 1] == m.states[..k] + [s];
      var reached: set<string> := {};
      if s.terminal.None? {
        return Err("`terminal` must be bool");
      }
      if !s.terminal.value {
        var found := Reach(m, s.key);
        if found.Err? {
          return Err(found.error);
        }
        reached := found.value;
      }
      ghost var before := out;
      if s.key !in init.value {
        out := out + [Violation(C1, m.key, s.line)];
      }
      if !s.terminal.value && Stuck(m, s.key) {
        out := out + [Violation(C2, m.key, s.line)];
      }
      if !s.terminal.value && terms !! reached {
        out := out + [Violation(C4, m.key, s.line)];
      }
      assert !s.terminal.value ==> (terms !! reached <==> Hopeless(m, s.key));
      assert out == before + StateFindings(m, s);
    }
    assert m.states[..|m.states|] == m.states;
    var cycles := Cycles(m);
    var evidence := MissingEvidence(m);
    r := Ok(out + cycles + evidence);
  }

  method MissingEvidence(m: Machine) returns (out: seq<Violation>)
    ensures out == EvidenceFindings(m.key, m.transitions)
  {
    out := [];
    assert m.transitions[..0] == [];
    for i := 0 to |m.transitions|
      invariant out == EvidenceFindings(m.key, m.transitions[..i])
    {
      var e := m.transitions[i];
      assert m.transitions[..i + 1][..i] == m.transitions[..i];
      if e.evidence.None? || e.evidence.value == "" {
        out := out + [Violation(C6, m.key, e.line)];
      }
    }
    assert m.transitions[..|m.transitions|] == m.transitions;
  }

  // ---------------------------------------------------------------- what the findings mean together

  /** `n` lies on a cycle. */
  ghost predicate OnCycle(m: Machine, n: string) {
    exists next :: (n, next) in Steps(m) && Reachable(Steps(m), next, n)
  }

  /** Everything `n` reaches leads back to `n`. */
  ghost predicate Bottom(m: Machine, n: string) {
    forall x :: Reachable(Steps(m), n, x) ==> Reachable(Steps(m), x, n)
  }

  lemma ComponentIsExact(m: Machine, n: string, x: string)
    requires !ReachFails(m, n)
    ensures x in Component(m, n) <==> Reachable(Steps(m), n, x) && Reachable(Steps(m), x, n)
  {
    if Reachable(Steps(m), n, x) {
      ReachableInUniverse(m, n, x);
    }
  }

  /** Without an exit the component is everything `n` reaches, and conversely. */
  lemma NoExitIsBottom(m: Machine, n: string)
    requires !ReachFails(m, n)
    ensures !HasExit(m, Component(m, n)) <==> Bottom(m, n)
  {
    var c := Component(m, n);
    ReachesItself(Steps(m), n);
    ComponentIsExact(m, n, n);
    if !HasExit(m, c) {
      forall x | Reachable(Steps(m), n, x) ensures Reachable(Steps(m), x, n) {
        ClosedContainsReachable(c, Steps(m), n, x);
      }
    }
    if Bottom(m, n) {
      forall i | 0 <= i < |m.transitions| && m.transitions[i].from.Some? && m.transitions[i].from.value in c
        ensures m.transitions[i].to.Some? && m.transitions[i].to.value in c
      {
        assert m.transitions[i].to.Some?;
        var s, t := m.transitions[i].from.value, m.transitions[i].to.value;
        assert (s, t) in Steps(m);
        ReachStep(Steps(m), n, s, t);
        ComponentIsExact(m, n, t);
      }
    }
  }

  lemma OnCycleIsLarge(m: Machine, n: string)
    requires !ReachFails(m, n)
    ensures OnCycle(m, n) <==> |Component(m, n)| > 1 || SelfLoop(m, n)
  {
    var c := Component(m, n);
    ReachesItself(Steps(m), n);
    ComponentIsExact(m, n, n);
    if OnCycle(m, n) {
      var next :| (n, next) in Steps(m) && Reachable(Steps(m), next, n);
      if next != n {
        ReachStep(Steps(m), n, n, next);
        ComponentIsExact(m, n, next);
        assert {n, next} <= c && |{n, next}| == 2;
        SubsetIsSmaller({n, next}, c);
      }
    }
    if SelfLoop(m, n) {
      assert (n, n) in Steps(m);
    } else if |c| > 1 {
      var y := OtherMember(c, n);
      ComponentIsExact(m, n, y);
      var path :| Connects(Steps(m), path, n, y);
      var rest := path[1..];
      assert forall i :: 0 <= i < |rest| ==> rest[i] == path[i + 1];
      assert Connects(Steps(m), rest, path[1], y);
      ReachTransitive(Steps(m), path[1], y, n);
    }
  }

  lemma {:induction false} SubsetIsSmaller<T>(a: set<T>, b: set<T>)
    requires a <= b
    ensures |a| <= |b|
  {
    assert b == a + (b - a);
  }

  lemma OtherMember<T>(c: set<T>, n: T) returns (y: T)
    requires |c| > 1
    ensures y in c && y != n
  {
    if forall x :: x in c ==> x == n {
      SubsetIsSmaller(c, {n});
    }
    y :| y in c && y != n;
  }

  /** C3 says exactly: a cycle that nothing reachable from it ever leaves. */
  lemma TrappedMeansNoWayOut(m: Machine, n: string)
    requires !ReachFails(m, n)
    ensures Trapped(m, n) <==> OnCycle(m, n) && Bottom(m, n)
  {
    NoExitIsBottom(m, n);
    OnCycleIsLarge(m, n);
  }

  /**
   * Where C2 and C3 find nothing, C4 can only come from transitions to undeclared
   * states: a state that reaches no terminal state reaches an undeclared one.
   */
  lemma HopelessReachesUndeclared(m: Machine, s: string) returns (u: string)
    requires !CheckFails(m, m.states)
    requires forall i :: 0 <= i < |m.states| && m.states[i].terminal != Some(true) ==> !Stuck(m, m.states[i].key)
    requires TrappedNames(m) == {}
    requires Hopeless(m, s)
    ensures Reachable(Steps(m), s, u) && u !in Names(m)
  {
    u := BottomNode(Steps(m), s);
    if u in Names(m) {
      var i :| 0 <= i < |m.states| && m.states[i].key == u;
      assert u !in Terminals(m) && u !in TrappedNames(m);
      assert m.states[i].terminal == Some(true) ==> u in Terminals(m);
      assert m.states[i].terminal.Some? && !m.states[i].terminal.value;
      var j :| 0 <= j < |m.transitions| && Leaves(m.transitions[j], u);
      ReachesItself(Steps(m), u);
      var next := m.transitions[j].to.value;
      assert (u, next) in Steps(m);
      ReachStep(Steps(m), u, u, next);
      assert OnCycle(m, u);
      TrappedMeansNoWayOut(m, u);
    }
  }

  predicate TargetsDeclared(m: Machine) {
    forall i :: 0 <= i < |m.transitions| && m.transitions[i].to.Some? ==> m.transitions[i].to.value in Names(m)
  }

  /** With declared targets, a machine free of C2 and C3 is free of C4. */
  lemma NoDeadEnds(m: Machine, s: string)
    requires TargetsDeclared(m) && s in Names(m)
    requires !CheckFails(m, m.states)
    requires forall i :: 0 <= i < |m.states| && m.states[i].terminal != Some(true) ==> !Stuck(m, m.states[i].key)
    requires TrappedNames(m) == {}
    ensures !Hopeless(m, s)
  {
    if Hopeless(m, s) {
      var u := HopelessReachesUndeclared(m, s);
      ClosedContainsReachable(Names(m), Steps(m), s, u);
    }
  }

  /** One undeclared target is enough for C4 with no C2 and no C3. */
  lemma UndeclaredTargetHidesDeadEnd() returns (m: Machine)
    ensures !TargetsDeclared(m) && !CheckFails(m, m.states) && TrappedNames(m) == {}
    ensures |m.states| == 1 && m.states[0].terminal == Some(false)
    ensures !Stuck(m, m.states[0].key) && Hopeless(m, m.states[0].key)
  {
    var t := Transition(Some("open"), Some("lost"), Some("e"), 2);
    m := Machine("m", "open", [StateRow("open", Some(false), None, 1)], [t]);
    assert Leaves(m.transitions[0], "open");
    assert !ReachFails(m, "open");
    forall x | Reachable(Steps(m), "lost", x) ensures x == "lost" {
      ClosedContainsReachable({"lost"}, Steps(m), "lost", x);
    }
    assert !OnCycle(m, "open");
    TrappedMeansNoWayOut(m, "open");
  }

  // ---------------------------------------------------------------- the forward gate of the lane machine

  /** The first row of that name is marked as a forward gate. */
  predicate IsGate(states: seq<StateRow>, key: string) {
    states != [] && if states[0].key == key then states[0].forwardGate == Some(true) else IsGate(states[1..], key)
  }

  /** The steps that do not enter a forward gate. */
  function UngatedSteps(m: Machine): set<(string, string)> {
    set e | e in Steps(m) && !IsGate(m.states, e.1)
  }

  datatype Visit = Visit(state: string, gated: bool, line: nat)

  function VisitsFrom(m: Machine, ts: seq<Transition>, v: Visit): seq<Visit> {
    if ts == [] then []
    else
      var last := ts[|ts| - 1];
      VisitsFrom(m, ts[..|ts| - 1], v)
      + if Leaves(last, v.state) && last.to.Some?
        then [Visit(last.to.value, v.gated || IsGate(m.states, last.to.value), last.line)] else []
  }

  ghost predicate VisitVia(m: Machine, t: Transition, from: Visit, to: Visit) {
    Leaves(t, from.state) && t.to == Some(to.state) && to.line == t.line
    && to.gated == (from.gated || IsGate(m.states, to.state))
  }

  lemma {:induction false} VisitsAreSteps(m: Machine, ts: seq<Transition>, v: Visit)
    ensures forall w :: w in VisitsFrom(m, ts, v) <==> exists i :: 0 <= i < |ts| && VisitVia(m, ts[i], v, w)
  {
    if ts != [] {
      var n := |ts| - 1;
      VisitsAreSteps(m, ts[..n], v);
      assert ts == ts[..n] + [ts[n]];
    }
  }

  method PushVisits(m: Machine, v: Visit, q: seq<Visit>) returns (pushed: seq<Visit>)
    ensures pushed == q + VisitsFrom(m, m.transitions, v)
  {
    pushed := q;
    assert m.transitions[..0] == [];
    for i := 0 to |m.transitions|
      invariant pushed == q + VisitsFrom(m, m.transitions[..i], v)
    {
      var e := m.transitions[i];
      assert m.transitions[..i + 1][..i] == m.transitions[..i];
      if Leaves(e, v.state) && e.to.Some? {
        pushed := pushed + [Visit(e.to.value, v.gated || IsGate(m.states, e.to.value), e.line)];
      }
    }
    assert m.transitions[..|m.transitions|] == m.transitions;
  }

  /** A visit the search may hold: an ungated one has an ungated path, and its line is that of the last step. */
  ghost predicate Earned(m: Machine, v: Visit) {
    v.state in Universe(m, m.initial)
    && (!v.gated ==> Reachable(UngatedSteps(m), m.initial, v.state) && LineEarned(m, v))
  }

  ghost predicate LineEarned(m: Machine, v: Visit) {
    (v.state == m.initial && v.line == 1)
    || exists i :: 0 <= i < |m.transitions| && m.transitions[i].to == Some(v.state) && m.transitions[i].line == v.line
                   && m.transitions[i].from.Some? && !IsGate(m.states, v.state)
                   && Reachable(UngatedSteps(m), m.initial, m.transitions[i].from.value)
  }

  ghost predicate Waiting(q: seq<Visit>, s: string) {
    exists k :: 0 <= k < |q| && q[k].state == s && !q[k].gated
  }

  /** Every ungated step out of an ungated visited state is visited or waiting. */
  ghost predicate UngatedExplored(m: Machine, seen: set<(string, bool)>, q: seq<Visit>) {
    forall e :: e in UngatedSteps(m) && (e.0, false) in seen ==> (e.1, false) in seen || Waiting(q, e.1)
  }

  function VisitUniverse(m: Machine): set<(string, bool)> {
    set x, g | x in Universe(m, m.initial) && g in {true, false} :: (x, g)
  }

  lemma VisitEarned(m: Machine, v: Visit, w: Visit)
    requires Earned(m, v) && exists i :: 0 <= i < |m.transitions| && VisitVia(m, m.transitions[i], v, w)
    ensures Earned(m, w)
  {
    var i :| 0 <= i < |m.transitions| && VisitVia(m, m.transitions[i], v, w);
    if !w.gated {
      assert (v.state, w.state) in UngatedSteps(m);
      ReachStep(UngatedSteps(m), m.initial, v.state, w.state);
    }
  }

  lemma UngatedStepWaits(m: Machine, v: Visit, e: (string, string), q: seq<Visit>)
    requires !v.gated && e in UngatedSteps(m) && e.0 == v.state
    ensures Waiting(q + VisitsFrom(m, m.transitions, v), e.1)
  {
    VisitsAreSteps(m, m.transitions, v);
    var i :| 0 <= i < |m.transitions| && m.transitions[i].from == Some(e.0) && m.transitions[i].to == Some(e.1);
    var w := Visit(e.1, false, m.transitions[i].line);
    assert VisitVia(m, m.transitions[i], v, w);
    var pushed := VisitsFrom(m, m.transitions, v);
    assert w in pushed;
    var k :| 0 <= k < |pushed| && pushed[k] == w;
    assert (q + pushed)[|q| + k] == w;
  }

  lemma WaitingGrows(q: seq<Visit>, more: seq<Visit>, s: string)
    requires q != [] && Waiting(q[1..], s)
    ensures Waiting(q[1..] + more, s)
  {
    var k :| 0 <= k < |q[1..]| && q[1..][k].state == s && !q[1..][k].gated;
    assert (q[1..] + more)[k] == q[1..][k];
  }

  /**
   * `gate`: breadth-first over (state, passed a gate). The one C7 line appears
   * exactly when some path from the initial state to "closed" enters no gate.
   */
  method Gate(m: Machine) returns (out: seq<Violation>)
    ensures out == [] <==> !Reachable(UngatedSteps(m), m.initial, "closed")
    ensures out != [] ==> |out| == 1 && out[0].code == C7 && out[0].machine == m.key
                          && LineEarned(m, Visit("closed", false, out[0].line))
  {
    out := [];
    var q := [Visit(m.initial, false, 1)];
    var seen: set<(string, bool)> := {};
    ReachesItself(UngatedSteps(m), m.initial);
    assert Waiting(q, m.initial) by { assert q[0].state == m.initial; }
    while q != []
      invariant forall v :: v in q ==> Earned(m, v)
      invariant seen <= VisitUniverse(m)
      invariant forall p :: p in seen && !p.1 ==> Reachable(UngatedSteps(m), m.initial, p.0)
      invariant (m.initial, false) in seen || Waiting(q, m.initial)
      invariant UngatedExplored(m, seen, q)
      invariant if ("closed", false) in seen
                then |out| == 1 && out[0].code == C7 && out[0].machine == m.key
                     && LineEarned(m, Visit("closed", false, out[0].line))
                else out == []
      decreases VisitUniverse(m) - seen, |q|
    {
      var v := q[0];
      assert v in q;
      ghost var before := q;
      if (v.state, v.gated) in seen {
        q := q[1..];
        SkipSeen(m, seen, before);
      } else {
        if v.state == "closed" && !v.gated {
          out := out + [Violation(C7, m.key, v.line)];
        }
        q := PushVisits(m, v, q[1..]);
        TakeVisit(m, seen, before);
        seen := seen + {(v.state, v.gated)};
      }
    }
    UngatedSearchComplete(m, seen);
  }

  lemma SkipSeen(m: Machine, seen: set<(string, bool)>, q: seq<Visit>)
    requires q != [] && (q[0].state, q[0].gated) in seen && UngatedExplored(m, seen, q)
    requires (m.initial, false) in seen || Waiting(q, m.initial)
    ensures UngatedExplored(m, seen, q[1..])
    ensures (m.initial, false) in seen || Waiting(q[1..], m.initial)
  {
    forall s | Waiting(q, s) ensures (s, false) in seen || Waiting(q[1..], s) {
      WaitingSplits(q, s);
    }
  }

  lemma WaitingSplits(q: seq<Visit>, s: string)
    requires q != [] && Waiting(q, s)
    ensures (q[0].state == s && !q[0].gated) || Waiting(q[1..], s)
  {
    var k :| 0 <= k < |q| && q[k].state == s && !q[k].gated;
    if k > 0 {
      assert q[1..][k - 1] == q[k];
    }
  }

  lemma TakeVisit(m: Machine, seen: set<(string, bool)>, q: seq<Visit>)
    requires q != [] && (forall v :: v in q ==> Earned(m, v)) && UngatedExplored(m, seen, q)
    requires (m.initial, false) in seen || Waiting(q, m.initial)
    ensures var pushed := q[1..] + VisitsFrom(m, m.transitions, q[0]);
            var grown := seen + {(q[0].state, q[0].gated)};
            (forall v :: v in pushed ==> Earned(m, v)) && UngatedExplored(m, grown, pushed)
            && ((m.initial, false) in grown || Waiting(pushed, m.initial))
  {
    var v := q[0];
    var more := VisitsFrom(m, m.transitions, v);
    var grown := seen + {(v.state, v.gated)};
    VisitsAreSteps(m, m.transitions, v);
    forall w | w in more ensures Earned(m, w) {
      VisitEarned(m, v, w);
    }
    forall s | Waiting(q, s) ensures (s, false) in grown || Waiting(q[1..] + more, s) {
      WaitingSplits(q, s);
      if Waiting(q[1..], s) {
        WaitingGrows(q, more, s);
      }
    }
    forall e | e in UngatedSteps(m) && (e.0, false) in grown
      ensures (e.1, false) in grown || Waiting(q[1..] + more, e.1)
    {
      if (e.0, false) !in seen {
        UngatedStepWaits(m, v, e, q[1..]);
      }
    }
  }

  lemma UngatedSearchComplete(m: Machine, seen: set<(string, bool)>)
    requires UngatedExplored(m, seen, []) && (m.initial, false) in seen
    ensures forall x :: Reachable(UngatedSteps(m), m.initial, x) ==> (x, false) in seen
  {
    var states := set p | p in seen && !p.1 :: p.0;
    forall x | Reachable(UngatedSteps(m), m.initial, x) ensures (x, false) in seen {
      assert m.initial in states;
      forall e | e in UngatedSteps(m) && e.0 in states ensures e.1 in states {
        assert (e.0, false) in seen;
      }
      ClosedContainsReachable(states, UngatedSteps(m), m.initial, x);
    }
  }
}

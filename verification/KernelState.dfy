/**
 * The event-sourced kernel state (kernel/src/state.rs, kernel/src/fold.rs): how
 * one event row, well formed or not, is folded in, and the bytes that are hashed.
 */
module KernelState {
  import opened Json

  const U64_MAX := 0xFFFF_FFFF_FFFF_FFFF

  type u64 = x: int | 0 <= x <= U64_MAX

  datatype Event = Event(
    sequence: u64, previousRevision: u64, newRevision: u64, kind: string, refs: seq<string>)

  datatype IssueKind = SequenceGap | SequenceRegression | SequenceOverflow | RevisionMismatch | CounterOverflow

  datatype Issue = Issue(at: u64, kind: IssueKind, expected: u64, actual: u64)

  datatype Entry = Entry(key: string, count: u64)

  /** `kinds` and `refs` are BTreeMaps: their entries in increasing key order. */
  datatype State = State(
    sequence: u64, revision: u64, rows: u64, accepted: u64, rejected: u64,
    kinds: seq<Entry>, refs: seq<Entry>, issues: seq<Issue>)

  const EMPTY := State(0, 0, 0, 0, 0, [], [], [])

  // ---------------------------------------------------------------- counters

  /** `bump` saturates and reports it. */
  function Bumped(value: u64): u64 {
    if value < U64_MAX then value + 1 else value
  }

  function CounterIssue(at: u64): Issue {
    Issue(at, CounterOverflow, U64_MAX, U64_MAX)
  }

  function Overflowed(value: u64, at: u64): seq<Issue> {
    if value < U64_MAX then [] else [CounterIssue(at)]
  }

  function CountOf(entries: seq<Entry>, key: string): u64 {
    if entries == [] then 0
    else if entries[0].key == key then entries[0].count
    else CountOf(entries[1..], key)
  }

  /** `map.entry(key).or_insert(0)`, bumped. */
  function BumpKey(entries: seq<Entry>, key: string): seq<Entry> {
    if entries == [] || Less(key, entries[0].key) then [Entry(key, 1)] + entries
    else if entries[0].key == key then [Entry(key, Bumped(entries[0].count))] + entries[1..]
    else [entries[0]] + BumpKey(entries[1..], key)
  }

  /** BTreeMap order. */
  predicate Ascending(entries: seq<Entry>) {
    |entries| < 2 || (Less(entries[0].key, entries[1].key) && Ascending(entries[1..]))
  }

  lemma BelowIsAbsent(entries: seq<Entry>, key: string)
    requires Ascending(entries) && (entries == [] || Less(key, entries[0].key))
    ensures CountOf(entries, key) == 0
  {
    if entries != [] {
      LessTotal(key, entries[0].key);
      if |entries| > 1 {
        LessTotal(entries[0].key, entries[1].key);
        LessTransitive(key, entries[0].key, entries[1].key);
        LessTotal(key, entries[1].key);
      }
      BelowIsAbsent(entries[1..], key);
    }
  }

  /** Bumping a key is a map update: that key grows by one, every other stays. */
  lemma {:induction false} BumpIsUpdate(entries: seq<Entry>, key: string, other: string)
    requires Ascending(entries)
    ensures Ascending(BumpKey(entries, key))
    ensures CountOf(BumpKey(entries, key), other) ==
            if other == key then Bumped(CountOf(entries, key)) else CountOf(entries, other)
  {
    var bumped := BumpKey(entries, key);
    if entries == [] || Less(key, entries[0].key) {
      BelowIsAbsent(entries, key);
      assert bumped[1..] == entries;
    } else if entries[0].key == key {
      assert bumped[1..] == entries[1..];
    } else {
      LessTotal(key, entries[0].key);
      BumpIsUpdate(entries[1..], key, other);
      assert bumped[1..] == BumpKey(entries[1..], key);
    }
  }

  function NoteKinds(s: State, key: string, at: u64): State {
    s.(kinds := BumpKey(s.kinds, key), issues := s.issues + Overflowed(CountOf(s.kinds, key), at))
  }

  function NoteRef(s: State, key: string, at: u64): State {
    s.(refs := BumpKey(s.refs, key), issues := s.issues + Overflowed(CountOf(s.refs, key), at))
  }

  function NoteRefs(s: State, refs: seq<string>, at: u64): State
    decreases |refs|
  {
    if refs == [] then s else NoteRef(NoteRefs(s, refs[..|refs| - 1], at), refs[|refs| - 1], at)
  }

  // ---------------------------------------------------------------- one event

  /** The row continues the sequence and starts from the current revision. */
  predicate InOrder(s: State, e: Event) {
    e.sequence == s.sequence + 1 && e.previousRevision == s.revision
  }

  function SequenceIssues(s: State, e: Event): seq<Issue> {
    if s.sequence == U64_MAX then [Issue(e.sequence, SequenceOverflow, U64_MAX, e.sequence)]
    else if e.sequence == s.sequence + 1 then []
    else if e.sequence > s.sequence + 1 then [Issue(e.sequence, SequenceGap, s.sequence + 1, e.sequence)]
    else [Issue(e.sequence, SequenceRegression, s.sequence + 1, e.sequence)]
  }

  function RevisionIssues(s: State, e: Event): seq<Issue> {
    if e.previousRevision == s.revision then []
    else [Issue(e.sequence, RevisionMismatch, s.revision, e.previousRevision)]
  }

  /** The row is counted and its order checked; a gap moves the sequence on. */
  function Checked(s: State, e: Event): State {
    s.(rows := Bumped(s.rows),
       sequence := if s.sequence + 1 < e.sequence then e.sequence else s.sequence,
       issues := s.issues + Overflowed(s.rows, e.sequence) + SequenceIssues(s, e) + RevisionIssues(s, e))
  }

  function Accept(s: State, e: Event): State {
    var counted := s.(sequence := e.sequence, revision := e.newRevision, accepted := Bumped(s.accepted),
                      issues := s.issues + Overflowed(s.accepted, e.sequence));
    NoteRefs(NoteKinds(counted, e.kind, e.sequence), e.refs, e.sequence)
  }

  /** The state after an event, by outcome: rows in order count, others only leave issues. */
  function Apply(s: State, e: Event): State {
    var noted := Checked(s, e);
    if InOrder(s, e) then Accept(noted, e)
    else noted.(rejected := Bumped(s.rejected), issues := noted.issues + Overflowed(s.rejected, e.sequence))
  }

  function Fold(s: State, events: seq<Event>): State
    decreases |events|
  {
    if events == [] then s else Apply(Fold(s, events[..|events| - 1]), events[|events| - 1])
  }

  function FoldAll(events: seq<Event>): State {
    Fold(EMPTY, events)
  }

  // ---------------------------------------------------------------- the source's own loop

  method NoteCount(value: u64, at: u64, issues: seq<Issue>) returns (next: u64, noted: seq<Issue>)
    ensures next == Bumped(value) && noted == issues + Overflowed(value, at)
  {
    next, noted := value, issues;
    if value < U64_MAX {
      next := value + 1;
    } else {
      noted := issues + [Issue(at, CounterOverflow, U64_MAX, value)];
    }
  }

  /** One step of the search for the key. */
  lemma BumpNext(entries: seq<Entry>, key: string, i: nat)
    requires i < |entries| && entries[i].key != key && !Less(key, entries[i].key)
    ensures entries[..i] + BumpKey(entries[i..], key) == entries[..i + 1] + BumpKey(entries[i + 1..], key)
  {
    assert entries[i..][1..] == entries[i + 1..];
    assert entries[..i + 1] == entries[..i] + [entries[i]];
  }

  /** `map.entry(key).or_insert(0)` and `bump`: the place of the key is searched, then filled or changed. */
  method BumpEntry(entries: seq<Entry>, key: string) returns (bumped: seq<Entry>)
    ensures bumped == BumpKey(entries, key)
  {
    var i := 0;
    assert entries[..0] + BumpKey(entries[0..], key) == BumpKey(entries, key) by { assert entries[0..] == entries; }
    while i < |entries| && entries[i].key != key && !Less(key, entries[i].key)
      invariant 0 <= i <= |entries|
      invariant BumpKey(entries, key) == entries[..i] + BumpKey(entries[i..], key)
    {
      BumpNext(entries, key, i);
      i := i + 1;
    }
    if i == |entries| || entries[i].key != key {
      bumped := entries[..i] + ([Entry(key, 1)] + entries[i..]);
    } else {
      LessTotal(key, key);
      bumped := entries[..i] + ([Entry(key, Bumped(entries[i].count))] + entries[i + 1..]);
      assert entries[i..][1..] == entries[i + 1..];
    }
  }

  method NoteKey(entries: seq<Entry>, key: string, at: u64, issues: seq<Issue>)
    returns (bumped: seq<Entry>, noted: seq<Issue>)
    ensures Ascending(entries) ==> Ascending(bumped) && CountOf(bumped, key) == Bumped(CountOf(entries, key))
    ensures Ascending(entries) ==> forall other :: other != key ==> CountOf(bumped, other) == CountOf(entries, other)
    ensures noted == issues + Overflowed(CountOf(entries, key), at)
    ensures bumped == BumpKey(entries, key)
  {
    bumped := BumpEntry(entries, key);
    if Ascending(entries) {
      forall other ensures CountOf(bumped, other) ==
                           if other == key then Bumped(CountOf(entries, key)) else CountOf(entries, other) {
        BumpIsUpdate(entries, key, other);
      }
      BumpIsUpdate(entries, key, key);
    }
    noted := issues;
    if CountOf(entries, key) == U64_MAX {
      noted := issues + [CounterIssue(at)];
    }
  }

  method CheckOrder(before: State, e: Event) returns (s: State, rowOk: bool)
    ensures s == Checked(before, e) && rowOk == InOrder(before, e)
  {
    s := before;
    var rows, issues := NoteCount(s.rows, e.sequence, s.issues);
    s := s.(rows := rows, issues := issues);
    rowOk := true;
    if s.sequence < U64_MAX {
      var expected := s.sequence + 1;
      if e.sequence == expected {
      } else if e.sequence > expected {
        s := s.(issues := s.issues + [Issue(e.sequence, SequenceGap, expected, e.sequence)], sequence := e.sequence);
        rowOk := false;
      } else {
        s := s.(issues := s.issues + [Issue(e.sequence, SequenceRegression, expected, e.sequence)]);
        rowOk := false;
      }
    } else {
      s := s.(issues := s.issues + [Issue(e.sequence, SequenceOverflow, U64_MAX, e.sequence)]);
      rowOk := false;
    }
    assert s.issues == before.issues + Overflowed(before.rows, e.sequence) + SequenceIssues(before, e);
    if e.previousRevision != s.revision {
      s := s.(issues := s.issues + [Issue(e.sequence, RevisionMismatch, s.revision, e.previousRevision)]);
      rowOk := false;
    }
    assert s.issues == Checked(before, e).issues;
  }

  /** `apply`, step by step as the source updates its state. */
  method ApplyEvent(before: State, e: Event) returns (s: State)
    ensures s == Apply(before, e)
  {
    var rowOk;
    s, rowOk := CheckOrder(before, e);
    if rowOk {
      s := s.(sequence := e.sequence, revision := e.newRevision);
      var accepted, noted := NoteCount(s.accepted, e.sequence, s.issues);
      s := s.(accepted := accepted, issues := noted);
      var kinds, more := NoteKey(s.kinds, e.kind, e.sequence, s.issues);
      s := s.(kinds := kinds, issues := more);
      ghost var counted := s;
      assert e.refs[..0] == [];
      for i := 0 to |e.refs|
        invariant s == NoteRefs(counted, e.refs[..i], e.sequence)
      {
        assert e.refs[..i + 1][..i] == e.refs[..i];
        var refs, last := NoteKey(s.refs, e.refs[i], e.sequence, s.issues);
        s := s.(refs := refs, issues := last);
      }
      assert e.refs[..|e.refs|] == e.refs;
    } else {
      var rejected, noted := NoteCount(s.rejected, e.sequence, s.issues);
      s := s.(rejected := rejected, issues := noted);
    }
  }
}

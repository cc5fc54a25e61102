/** What the fold guarantees for every event list, and for the logs `plan_append` writes. */
module KernelFold {
  import opened Json
  import opened KernelState

  // ---------------------------------------------------------------- entries as maps

  function Total(entries: seq<Entry>): nat {
    if entries == [] then 0 else entries[0].count + Total(entries[1..])
  }

  lemma {:induction false} BumpTotal(entries: seq<Entry>, key: string)
    requires CountOf(entries, key) < U64_MAX
    ensures Total(BumpKey(entries, key)) == Total(entries) + 1
  {
    var bumped := BumpKey(entries, key);
    if entries == [] || Less(key, entries[0].key) {
      assert bumped[1..] == entries;
    } else if entries[0].key == key {
      assert bumped[1..] == entries[1..];
    } else {
      BumpTotal(entries[1..], key);
      assert bumped[1..] == BumpKey(entries[1..], key);
    }
  }

  lemma CountWithinTotal(entries: seq<Entry>, key: string)
    ensures CountOf(entries, key) <= Total(entries)
  {
  }

  // ---------------------------------------------------------------- any event list

  /** The rows that were in order when they were folded in. */
  function AcceptedRows(events: seq<Event>): seq<Event> {
    if events == [] then []
    else
      var before := events[..|events| - 1];
      AcceptedRows(before) +
      if InOrder(FoldAll(before), events[|events| - 1]) then [events[|events| - 1]] else []
  }

  function KindCount(events: seq<Event>, kind: string): nat {
    if events == [] then 0
    else KindCount(events[..|events| - 1], kind) + if events[|events| - 1].kind == kind then 1 else 0
  }

  lemma KindCountAppend(events: seq<Event>, e: Event, kind: string)
    ensures KindCount(events + [e], kind) == KindCount(events, kind) + if e.kind == kind then 1 else 0
  {
    assert (events + [e])[..|events|] == events;
  }

  lemma {:induction false} NoteRefsFrame(s: State, refs: seq<string>, at: u64)
    ensures var r := NoteRefs(s, refs, at);
            r.(refs := s.refs, issues := s.issues) == s && s.issues <= r.issues
    decreases |refs|
  {
    if refs != [] { NoteRefsFrame(s, refs[..|refs| - 1], at); }
  }

  /** An in-order event, before its kind and references are counted. */
  function AcceptedState(s: State, e: Event): State {
    var noted := Checked(s, e);
    noted.(sequence := e.sequence, revision := e.newRevision, accepted := Bumped(s.accepted),
           issues := noted.issues + Overflowed(s.accepted, e.sequence))
  }

  /** What one event does to the counters, whatever it carries. */
  lemma ApplyCounts(s: State, e: Event)
    requires s.rows < U64_MAX && s.accepted + s.rejected == s.rows && Total(s.kinds) == s.accepted
    requires |s.issues| >= s.rejected
    ensures var r := Apply(s, e);
            && r.rows == s.rows + 1 && r.accepted + r.rejected == r.rows
            && r.accepted == s.accepted + (if InOrder(s, e) then 1 else 0)
            && r.kinds == (if InOrder(s, e) then BumpKey(s.kinds, e.kind) else s.kinds)
            && Total(r.kinds) == r.accepted
            && |r.issues| >= r.rejected && s.sequence <= r.sequence
  {
    if InOrder(s, e) {
      CountWithinTotal(s.kinds, e.kind);
      BumpTotal(s.kinds, e.kind);
      NoteRefsFrame(NoteKinds(AcceptedState(s, e), e.kind, e.sequence), e.refs, e.sequence);
    }
  }

  /**
   * For every event list below the counter limit, however malformed: each row is
   * counted once, as accepted or rejected; kind counts are those of the accepted
   * rows and sum to their number; and every rejection left an issue.
   */
  lemma {:induction false} FoldCounts(events: seq<Event>, kind: string)
    requires |events| <= U64_MAX
    ensures var s := FoldAll(events);
            && s.rows == |events| == s.accepted + s.rejected
            && s.accepted == |AcceptedRows(events)| == Total(s.kinds)
            && CountOf(s.kinds, kind) == KindCount(AcceptedRows(events), kind)
            && Ascending(s.kinds) && |s.issues| >= s.rejected
  {
    if events != [] {
      var n := |events| - 1;
      var before, last := FoldAll(events[..n]), events[n];
      FoldCounts(events[..n], kind);
      ApplyCounts(before, last);
      var rows := AcceptedRows(events[..n]);
      if InOrder(before, last) {
        BumpIsUpdate(before.kinds, last.kind, kind);
        CountWithinTotal(before.kinds, last.kind);
        assert AcceptedRows(events) == rows + [last];
        KindCountAppend(rows, last, kind);
      } else {
        assert AcceptedRows(events) == rows;
      }
    }
  }

  /** The sequence never goes back as a log grows. */
  lemma {:induction false} SequenceNeverDecreases(events: seq<Event>, k: nat)
    requires k <= |events|
    ensures FoldAll(events[..k]).sequence <= FoldAll(events).sequence
  {
    if k == |events| {
      assert events[..k] == events;
    } else {
      var n := |events| - 1;
      SequenceNeverDecreases(events[..n], k);
      assert events[..n][..k] == events[..k];
      var before := FoldAll(events[..n]);
      NoteRefsFrame(NoteKinds(AcceptedState(before, events[n]), events[n].kind, events[n].sequence),
                    events[n].refs, events[n].sequence);
    }
  }
}

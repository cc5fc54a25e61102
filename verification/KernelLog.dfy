/** Appending to and replaying the event log (kernel/src/log.rs); SHA-256 is an arbitrary function. */
module KernelLog {
  import opened Wrappers
  import opened Utf8
  import opened KernelState
  import opened KernelFold
  import opened KernelEncoding

  datatype AppendPlan = WriteRow(event: Event) | SequenceRefused | RevisionRefused

  function PlanAppend(s: State, kind: string, refs: seq<string>): AppendPlan {
    if s.sequence == U64_MAX then SequenceRefused
    else if s.revision == U64_MAX then RevisionRefused
    else WriteRow(Event(s.sequence + 1, s.revision, s.revision + 1, kind, refs))
  }

  datatype CacheImage = CacheImage(state: State, sequence: u64, stateHash: string)

  function ImageOf(hash: seq<byte> -> string, s: State): CacheImage {
    CacheImage(s, s.sequence, hash(StateBytes(s)))
  }

  datatype ReplayUse = Full | Cache

  datatype Replayed = Replayed(state: State, used: ReplayUse)

  function VerifiedReplay(hash: seq<byte> -> string, events: seq<Event>, image: CacheImage): Option<State> {
    if image.state.sequence != image.sequence then None
    else if hash(StateBytes(image.state)) != image.stateHash then None
    else if image.state.rows > |events| then None
    else
      var prefix := FoldAll(events[..image.state.rows]);
      if prefix != image.state || hash(StateBytes(prefix)) != image.stateHash then None
      else Some(Fold(image.state, events[image.state.rows..]))
  }

  function Replay(hash: seq<byte> -> string, events: seq<Event>, cache: Option<CacheImage>): Replayed {
    var verified := if cache.Some? then VerifiedReplay(hash, events, cache.value) else None;
    if verified.Some? then Replayed(verified.value, Cache) else Replayed(FoldAll(events), Full)
  }

  // ---------------------------------------------------------------- replay

  lemma {:induction false} FoldSplit(s: State, events: seq<Event>, k: nat)
    requires k <= |events|
    ensures Fold(Fold(s, events[..k]), events[k..]) == Fold(s, events)
    decreases |events|
  {
    if k == |events| {
      assert events[..k] == events && events[k..] == [];
    } else {
      var n := |events| - 1;
      FoldSplit(s, events[..n], k);
      assert events[..n][..k] == events[..k];
      assert events[k..][..n - k] == events[..n][k..] && events[k..][n - k] == events[n];
    }
  }

  /** Replay gives the full fold under every cache: absent, stale, foreign or corrupted. */
  lemma ReplayIsFold(hash: seq<byte> -> string, events: seq<Event>, cache: Option<CacheImage>)
    ensures Replay(hash, events, cache).state == FoldAll(events)
  {
    if cache.Some? && VerifiedReplay(hash, events, cache.value).Some? {
      FoldSplit(EMPTY, events, cache.value.state.rows);
    }
  }

  /** An image cut from any prefix of the log is accepted and used. */
  lemma PrefixImageIsUsed(hash: seq<byte> -> string, events: seq<Event>, k: nat)
    requires k <= |events| && k <= U64_MAX
    ensures Replay(hash, events, Some(ImageOf(hash, FoldAll(events[..k])))).used == Cache
  {
    FoldCounts(events[..k], "");
  }

  /** An image is used only for the one prefix it names, and only if it is exactly that prefix's fold. */
  lemma UsedImageIsPrefixFold(hash: seq<byte> -> string, events: seq<Event>, image: CacheImage)
    requires Replay(hash, events, Some(image)).used == Cache
    ensures image.state.rows <= |events| && image == ImageOf(hash, FoldAll(events[..image.state.rows]))
  {
  }

  // ---------------------------------------------------------------- logs written by plan_append

  /** Every row of the log is the one `plan_append` planned on the state before it. */
  predicate Planned(events: seq<Event>) {
    events == [] ||
    (var n := |events| - 1;
     Planned(events[..n]) &&
     PlanAppend(FoldAll(events[..n]), events[n].kind, events[n].refs) == WriteRow(events[n]))
  }

  function RefTotal(events: seq<Event>): nat {
    if events == [] then 0 else RefTotal(events[..|events| - 1]) + |events[|events| - 1].refs|
  }

  /** No reference count exceeds the number of occurrences folded in. */
  ghost predicate RefsWithin(entries: seq<Entry>, bound: nat) {
    Ascending(entries) && forall key :: CountOf(entries, key) <= bound
  }

  lemma {:induction false} NoteRefsWithin(s: State, refs: seq<string>, at: u64, bound: nat)
    requires RefsWithin(s.refs, bound) && bound + |refs| <= U64_MAX
    ensures var r := NoteRefs(s, refs, at); r == s.(refs := r.refs) && RefsWithin(r.refs, bound + |refs|)
    decreases |refs|
  {
    if refs != [] {
      var n := |refs| - 1;
      NoteRefsWithin(s, refs[..n], at, bound);
      var before := NoteRefs(s, refs[..n], at);
      assert CountOf(before.refs, refs[n]) < U64_MAX;
      assert before.issues + [] == before.issues;
      forall key ensures CountOf(BumpKey(before.refs, refs[n]), key) <= bound + |refs| {
        BumpIsUpdate(before.refs, refs[n], key);
      }
      BumpIsUpdate(before.refs, refs[n], refs[n]);
    }
  }

  /** A clean state: no issue, and every counter in step with the sequence. */
  ghost predicate Clean(s: State, length: nat, refs: nat) {
    && s.issues == [] && s.rejected == 0
    && s.sequence == s.revision == s.rows == s.accepted == length
    && Total(s.kinds) == length && RefsWithin(s.refs, refs)
  }

  lemma PlannedStep(s: State, e: Event, length: nat, refs: nat)
    requires Clean(s, length, refs) && PlanAppend(s, e.kind, e.refs) == WriteRow(e) && refs + |e.refs| <= U64_MAX
    ensures Clean(Apply(s, e), length + 1, refs + |e.refs|)
  {
    CountWithinTotal(s.kinds, e.kind);
    BumpTotal(s.kinds, e.kind);
    var counted := NoteKinds(AcceptedState(s, e), e.kind, e.sequence);
    assert counted.issues == [];
    NoteRefsWithin(counted, e.refs, e.sequence, refs);
  }

  /**
   * A log built only by `plan_append`, with fewer than 2^64 reference
   * occurrences, folds without a single issue, and its sequence, revision, rows
   * and accepted counters all equal its length.
   */
  lemma {:induction false} PlannedLogIsClean(events: seq<Event>)
    requires Planned(events) && RefTotal(events) <= U64_MAX
    ensures Clean(FoldAll(events), |events|, RefTotal(events))
  {
    if events != [] {
      var n := |events| - 1;
      PlannedLogIsClean(events[..n]);
      PlannedStep(FoldAll(events[..n]), events[n], n, RefTotal(events[..n]));
    }
  }
}

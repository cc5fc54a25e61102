/** The state hash preimage (`State::encode` in kernel/src/state.rs) and why it identifies the state. */
module KernelEncoding {
  import opened Utf8
  import opened KernelState

  // ---------------------------------------------------------------- the bytes

  /** Big-endian digits base 256. */
  function BigEndian(value: nat, width: nat): seq<byte> {
    if width == 0 then [] else BigEndian(value / 256, width - 1) + [value % 256]
  }

  function U64Bytes(value: nat): seq<byte> {
    BigEndian(value, 8)
  }

  function StringBytes(s: string): seq<byte> {
    U64Bytes(|Encode(s)|) + Encode(s)
  }

  function IssueCode(kind: IssueKind): byte {
    match kind
    case SequenceGap => 1
    case SequenceRegression => 2
    case SequenceOverflow => 3
    case RevisionMismatch => 4
    case CounterOverflow => 5
  }

  function IssueBytes(issue: Issue): seq<byte> {
    U64Bytes(issue.at) + [IssueCode(issue.kind)] + U64Bytes(issue.expected) + U64Bytes(issue.actual)
  }

  function EntryBytes(entry: Entry): seq<byte> {
    StringBytes(entry.key) + U64Bytes(entry.count)
  }

  function EntriesBytes(entries: seq<Entry>): seq<byte> {
    if entries == [] then [] else EntryBytes(entries[0]) + EntriesBytes(entries[1..])
  }

  function IssuesBytes(issues: seq<Issue>): seq<byte> {
    if issues == [] then [] else IssueBytes(issues[0]) + IssuesBytes(issues[1..])
  }

  function CounterBytes(s: State): seq<byte> {
    U64Bytes(s.sequence) + (U64Bytes(s.revision) + (U64Bytes(s.rows) + (U64Bytes(s.accepted) + U64Bytes(s.rejected))))
  }

  function EntriesBlock(entries: seq<Entry>): seq<byte> {
    U64Bytes(|entries|) + EntriesBytes(entries)
  }

  function IssuesBlock(issues: seq<Issue>): seq<byte> {
    U64Bytes(|issues|) + IssuesBytes(issues)
  }

  function StateBytes(s: State): seq<byte> {
    CounterBytes(s) + (EntriesBlock(s.kinds) + (EntriesBlock(s.refs) + IssuesBlock(s.issues)))
  }

  /** Every length the encoding writes fits its 64 bits. */
  predicate LengthsFit(s: State) {
    && |s.kinds| <= U64_MAX && |s.refs| <= U64_MAX && |s.issues| <= U64_MAX
    && (forall i :: 0 <= i < |s.kinds| ==> |Encode(s.kinds[i].key)| <= U64_MAX)
    && (forall i :: 0 <= i < |s.refs| ==> |Encode(s.refs[i].key)| <= U64_MAX)
  }

  // ---------------------------------------------------------------- the source's own loop

  method PushEntries(out: seq<byte>, entries: seq<Entry>) returns (r: seq<byte>)
    ensures r == out + EntriesBlock(entries)
  {
    r := out + U64Bytes(|entries|);
    var i := 0;
    assert entries[0..] == entries;
    while i < |entries|
      invariant 0 <= i <= |entries|
      invariant r + EntriesBytes(entries[i..]) == out + EntriesBlock(entries)
    {
      assert entries[i..][1..] == entries[i + 1..];
      r := r + StringBytes(entries[i].key);
      r := r + U64Bytes(entries[i].count);
      i := i + 1;
    }
  }

  method PushIssues(out: seq<byte>, issues: seq<Issue>) returns (r: seq<byte>)
    ensures r == out + IssuesBlock(issues)
  {
    r := out + U64Bytes(|issues|);
    var i := 0;
    assert issues[0..] == issues;
    while i < |issues|
      invariant 0 <= i <= |issues|
      invariant r + IssuesBytes(issues[i..]) == out + IssuesBlock(issues)
    {
      assert issues[i..][1..] == issues[i + 1..];
      r := r + IssueBytes(issues[i]);
      i := i + 1;
    }
  }

  /** `encode`: the state pushed onto the end of a buffer. */
  method PushState(out: seq<byte>, s: State) returns (r: seq<byte>)
    ensures r == out + StateBytes(s)
  {
    r := out + U64Bytes(s.sequence);
    r := r + U64Bytes(s.revision);
    r := r + U64Bytes(s.rows);
    r := r + U64Bytes(s.accepted);
    r := r + U64Bytes(s.rejected);
    assert r == out + CounterBytes(s);
    r := PushEntries(r, s.kinds);
    r := PushEntries(r, s.refs);
    r := PushIssues(r, s.issues);
    FourParts(out, CounterBytes(s), EntriesBlock(s.kinds), EntriesBlock(s.refs), IssuesBlock(s.issues));
  }

  // ---------------------------------------------------------------- unambiguous pieces

  function Power256(width: nat): nat {
    if width == 0 then 1 else 256 * Power256(width - 1)
  }

  lemma {:induction false} BigEndianInjective(a: nat, b: nat, width: nat)
    requires a < Power256(width) && b < Power256(width) && BigEndian(a, width) == BigEndian(b, width)
    ensures a == b
  {
    if width > 0 {
      var x, y := BigEndian(a / 256, width - 1), BigEndian(b / 256, width - 1);
      assert (x + [a % 256])[|x|] == a % 256 && (y + [b % 256])[|y|] == b % 256;
      BigEndianLength(a / 256, width - 1);
      BigEndianLength(b / 256, width - 1);
      assert x == (x + [a % 256])[..|x|] == (y + [b % 256])[..|y|] == y;
      BigEndianInjective(a / 256, b / 256, width - 1);
    }
  }

  lemma BigEndianLength(value: nat, width: nat)
    ensures |BigEndian(value, width)| == width
  {
  }

  /** Two concatenations with first parts of one length agree part by part. */
  lemma SplitAt(a: seq<byte>, x: seq<byte>, b: seq<byte>, y: seq<byte>)
    requires a + x == b + y && |a| == |b|
    ensures a == b && x == y
  {
    assert a == (a + x)[..|a|] && b == (b + y)[..|b|];
    assert x == (a + x)[|a|..] && y == (b + y)[|b|..];
  }

  lemma U64Prefix(a: u64, x: seq<byte>, b: u64, y: seq<byte>)
    requires U64Bytes(a) + x == U64Bytes(b) + y
    ensures a == b && x == y
  {
    BigEndianLength(a, 8);
    BigEndianLength(b, 8);
    SplitAt(U64Bytes(a), x, U64Bytes(b), y);
    assert Power256(8) == U64_MAX + 1;
    BigEndianInjective(a, b, 8);
  }

  lemma Associative(a: seq<byte>, b: seq<byte>, c: seq<byte>)
    ensures (a + b) + c == a + (b + c)
  {
  }

  lemma FourParts(out: seq<byte>, a: seq<byte>, b: seq<byte>, c: seq<byte>, d: seq<byte>)
    ensures out + a + b + c + d == out + (a + (b + (c + d)))
  {
  }

  lemma EntriesBlockPrefix(es: seq<Entry>, x: seq<byte>, fs: seq<Entry>, y: seq<byte>)
    requires |es| <= U64_MAX && |fs| <= U64_MAX && EntriesBlock(es) + x == EntriesBlock(fs) + y
    requires forall i :: 0 <= i < |es| ==> |Encode(es[i].key)| <= U64_MAX
    requires forall i :: 0 <= i < |fs| ==> |Encode(fs[i].key)| <= U64_MAX
    ensures es == fs && x == y
  {
    Associative(U64Bytes(|es|), EntriesBytes(es), x);
    Associative(U64Bytes(|fs|), EntriesBytes(fs), y);
    U64Prefix(|es|, EntriesBytes(es) + x, |fs|, EntriesBytes(fs) + y);
    EntriesPrefix(es, x, fs, y);
  }

  /** A length-prefixed block. */
  lemma BlockPrefix(a: seq<byte>, x: seq<byte>, b: seq<byte>, y: seq<byte>)
    requires |a| <= U64_MAX && |b| <= U64_MAX
    requires (U64Bytes(|a|) + a) + x == (U64Bytes(|b|) + b) + y
    ensures a == b && x == y
  {
    Associative(U64Bytes(|a|), a, x);
    Associative(U64Bytes(|b|), b, y);
    U64Prefix(|a|, a + x, |b|, b + y);
    SplitAt(a, x, b, y);
  }

  lemma {:induction false} StringPrefix(s: string, x: seq<byte>, t: string, y: seq<byte>)
    requires |Encode(s)| <= U64_MAX && |Encode(t)| <= U64_MAX
    requires StringBytes(s) + x == StringBytes(t) + y
    ensures s == t && x == y
  {
    BlockPrefix(Encode(s), x, Encode(t), y);
    DecodeEncoded(s);
    DecodeEncoded(t);
  }

  lemma {:induction false} EntryPrefix(e: Entry, x: seq<byte>, f: Entry, y: seq<byte>)
    requires |Encode(e.key)| <= U64_MAX && |Encode(f.key)| <= U64_MAX
    requires EntryBytes(e) + x == EntryBytes(f) + y
    ensures e == f && x == y
  {
    Associative(StringBytes(e.key), U64Bytes(e.count), x);
    Associative(StringBytes(f.key), U64Bytes(f.count), y);
    StringPrefix(e.key, U64Bytes(e.count) + x, f.key, U64Bytes(f.count) + y);
    U64Prefix(e.count, x, f.count, y);
  }

  lemma {:induction false} EntriesPrefix(es: seq<Entry>, x: seq<byte>, fs: seq<Entry>, y: seq<byte>)
    requires |es| == |fs| && EntriesBytes(es) + x == EntriesBytes(fs) + y
    requires forall i :: 0 <= i < |es| ==> |Encode(es[i].key)| <= U64_MAX
    requires forall i :: 0 <= i < |fs| ==> |Encode(fs[i].key)| <= U64_MAX
    ensures es == fs && x == y
  {
    if es == [] {
      assert EntriesBytes(es) + x == x && EntriesBytes(fs) + y == y;
    } else {
      Associative(EntryBytes(es[0]), EntriesBytes(es[1..]), x);
      Associative(EntryBytes(fs[0]), EntriesBytes(fs[1..]), y);
      EntryPrefix(es[0], EntriesBytes(es[1..]) + x, fs[0], EntriesBytes(fs[1..]) + y);
      EntriesPrefix(es[1..], x, fs[1..], y);
      assert es == [es[0]] + es[1..] && fs == [fs[0]] + fs[1..];
    }
  }

  lemma IssuePrefix(a: Issue, x: seq<byte>, b: Issue, y: seq<byte>)
    requires IssueBytes(a) + x == IssueBytes(b) + y
    ensures a == b && x == y
  {
    var p, q := U64Bytes(a.expected) + (U64Bytes(a.actual) + x), U64Bytes(b.expected) + (U64Bytes(b.actual) + y);
    assert IssueBytes(a) + x == U64Bytes(a.at) + ([IssueCode(a.kind)] + p);
    assert IssueBytes(b) + y == U64Bytes(b.at) + ([IssueCode(b.kind)] + q);
    U64Prefix(a.at, [IssueCode(a.kind)] + p, b.at, [IssueCode(b.kind)] + q);
    SplitAt([IssueCode(a.kind)], p, [IssueCode(b.kind)], q);
    assert [IssueCode(a.kind)][0] == [IssueCode(b.kind)][0];
    U64Prefix(a.expected, U64Bytes(a.actual) + x, b.expected, U64Bytes(b.actual) + y);
    U64Prefix(a.actual, x, b.actual, y);
  }

  lemma {:induction false} IssuesInjective(a: seq<Issue>, b: seq<Issue>)
    requires |a| == |b| && IssuesBytes(a) == IssuesBytes(b)
    ensures a == b
  {
    if a != [] {
      IssuePrefix(a[0], IssuesBytes(a[1..]), b[0], IssuesBytes(b[1..]));
      IssuesInjective(a[1..], b[1..]);
      assert a == [a[0]] + a[1..] && b == [b[0]] + b[1..];
    }
  }

  lemma CountersPrefix(s: State, x: seq<byte>, t: State, y: seq<byte>)
    requires CounterBytes(s) + x == CounterBytes(t) + y
    ensures s.sequence == t.sequence && s.revision == t.revision && s.rows == t.rows
    ensures s.accepted == t.accepted && s.rejected == t.rejected && x == y
  {
    var s4, t4 := U64Bytes(s.rejected) + x, U64Bytes(t.rejected) + y;
    var s3, t3 := U64Bytes(s.accepted) + s4, U64Bytes(t.accepted) + t4;
    var s2, t2 := U64Bytes(s.rows) + s3, U64Bytes(t.rows) + t3;
    var s1, t1 := U64Bytes(s.revision) + s2, U64Bytes(t.revision) + t2;
    assert CounterBytes(s) + x == U64Bytes(s.sequence) + s1;
    assert CounterBytes(t) + y == U64Bytes(t.sequence) + t1;
    U64Prefix(s.sequence, s1, t.sequence, t1);
    U64Prefix(s.revision, s2, t.revision, t2);
    U64Prefix(s.rows, s3, t.rows, t3);
    U64Prefix(s.accepted, s4, t.accepted, t4);
    U64Prefix(s.rejected, x, t.rejected, y);
  }

  /** The hash preimage is injective: equal encodings are encodings of the same state. */
  lemma StateBytesInjective(s: State, t: State)
    requires LengthsFit(s) && LengthsFit(t) && StateBytes(s) == StateBytes(t)
    ensures s == t
  {
    var s2, t2 := EntriesBlock(s.refs) + IssuesBlock(s.issues), EntriesBlock(t.refs) + IssuesBlock(t.issues);
    CountersPrefix(s, EntriesBlock(s.kinds) + s2, t, EntriesBlock(t.kinds) + t2);
    EntriesBlockPrefix(s.kinds, s2, t.kinds, t2);
    EntriesBlockPrefix(s.refs, IssuesBlock(s.issues), t.refs, IssuesBlock(t.issues));
    U64Prefix(|s.issues|, IssuesBytes(s.issues), |t.issues|, IssuesBytes(t.issues));
    IssuesInjective(s.issues, t.issues);
  }
}

/**
 * From bytes on disk to memory: a coordinator run writes its rows through
 * `append`, and reopening the file, parsing, validating and restoring every row,
 * gives back the durable state (src/ownership-journal.ts).
 */
module JournalRuns {
  import opened Wrappers
  import opened Utf8
  import opened Json
  import opened JournalText
  import opened JournalFile
  import opened Ownership
  import opened OwnershipRuns
  import opened RowJson
  import opened RowRoundTrip

  // ---------------------------------------------------------------- validateRow

  predicate IsHash(s: Option<string>) {
    s.Some? && |s.value| == 64
    && forall i :: 0 <= i < 64 ==> '0' <= s.value[i] <= '9' || 'a' <= s.value[i] <= 'f'
  }

  /** `assertBoundedStrings` */
  predicate BoundedStrings(v: Json)
    decreases v
  {
    match v
    case Str(s) => |Encode(s)| <= MAX_STRING_BYTES
    case Arr(items) => forall i :: 0 <= i < |items| ==> BoundedStrings(items[i])
    case Obj(fields) => forall i :: 0 <= i < |fields| ==> BoundedStrings(fields[i].value)
    case _ => true
  }

  predicate HeaderValid(f: seq<Field>) {
    TextAt(f, "schema") == Some(SCHEMA) && NatAt(f, "version") == Some(1)
    && NatAt(f, "sequence").Some? && NatAt(f, "sequence").value >= 1
    && IsHash(TextAt(f, "previous_sha256")) && IsHash(TextAt(f, "row_sha256"))
  }

  predicate LaunchValid(read: Json -> Option<Action>, f: seq<Field>) {
    && Get(f, "action").Some? && read(Get(f, "action").value).Some?
    && Get(f, "task").Some? && ReadTask(Get(f, "task").value).Some?
    && TextAt(f, "action_descriptor").Some? && IsHash(TextAt(f, "action_sha256")) && TextAt(f, "action_id").Some?
    && TextAt(f, "assignment_id").Some? && NatAt(f, "run_revision").Some? && FlagAt(f, "acknowledged") == Some(false)
  }

  predicate KindValid(read: Json -> Option<Action>, kind: RowKind, f: seq<Field>) {
    match kind
    case LaunchKind => LaunchValid(read, f)
    case GateKind =>
      TextAt(f, "receipt_id").Some? && TextAt(f, "receipt_id").value != ""
      && Get(f, "gate").Some? && ReadGate(Get(f, "gate").value).Some?
    case ArrivedKind => Get(f, "observation").Some? && ReadObservation(Get(f, "observation").value).Some?
    case CancelledKind => FlagAt(f, "reporter").Some?
    case _ => true
  }

  /** `validateRow` */
  predicate ValidRow(read: Json -> Option<Action>, v: Json) {
    && v.Obj? && HeaderValid(v.fields) && BoundedStrings(v)
    && KindAt(v.fields).Some? && HasKeys(v.fields, KeysOf(KindAt(v.fields).value))
    && KindValid(read, KindAt(v.fields).value, v.fields)
  }

  function ValidWith(read: Json -> Option<Action>): Json -> bool {
    v => ValidRow(read, v)
  }

  // ---------------------------------------------------------------- validation is blind to member order

  lemma BoundedHead(items: seq<Json>)
    requires items != []
    ensures BoundedStrings(Arr(items)) <==> BoundedStrings(items[0]) && BoundedStrings(Arr(items[1..]))
  {
    var rest := items[1..];
    assert forall i :: 0 <= i < |rest| ==> rest[i] == items[i + 1];
    if BoundedStrings(items[0]) && BoundedStrings(Arr(rest)) {
      forall i | 0 <= i < |items| ensures BoundedStrings(items[i]) {
        assert i > 0 ==> items[i] == rest[i - 1];
      }
    }
  }

  lemma BoundedCons(f: Field, rest: seq<Field>)
    ensures BoundedStrings(Obj([f] + rest)) <==> BoundedStrings(f.value) && BoundedStrings(Obj(rest))
  {
    var all := [f] + rest;
    assert all[0] == f && forall i :: 0 <= i < |rest| ==> all[i + 1] == rest[i];
    if BoundedStrings(Obj(all)) {
      forall i | 0 <= i < |rest| ensures BoundedStrings(rest[i].value) {
        assert all[i + 1] == rest[i];
      }
    }
    if BoundedStrings(f.value) && BoundedStrings(Obj(rest)) {
      forall i | 0 <= i < |all| ensures BoundedStrings(all[i].value) {
        assert i > 0 ==> all[i] == rest[i - 1];
      }
    }
  }

  lemma {:induction false} BoundedInserted(f: Field, fields: seq<Field>)
    ensures BoundedStrings(Obj(Insert(f, fields))) <==> BoundedStrings(f.value) && BoundedStrings(Obj(fields))
  {
    if fields == [] || !Less(fields[0].key, f.key) {
      BoundedCons(f, fields);
    } else {
      BoundedInserted(f, fields[1..]);
      BoundedCons(fields[0], Insert(f, fields[1..]));
      assert fields == [fields[0]] + fields[1..];
      BoundedCons(fields[0], fields[1..]);
    }
  }

  lemma {:induction false} BoundedSorted(v: Json)
    ensures BoundedStrings(Sorted(v)) <==> BoundedStrings(v)
    decreases v, 0
  {
    match v
    case Arr(items) => BoundedSortedItems(items);
    case Obj(fields) => BoundedSortedFields(fields);
    case _ =>
  }

  lemma {:induction false} BoundedSortedItems(items: seq<Json>)
    ensures BoundedStrings(Arr(SortedItems(items))) <==> BoundedStrings(Arr(items))
    decreases items, 1
  {
    if items != [] {
      BoundedSorted(items[0]);
      BoundedSortedItems(items[1..]);
      BoundedHead(items);
      BoundedHead(SortedItems(items));
      assert SortedItems(items)[1..] == SortedItems(items[1..]);
    }
  }

  lemma {:induction false} BoundedSortedFields(fields: seq<Field>)
    ensures BoundedStrings(Obj(SortedFields(fields))) <==> BoundedStrings(Obj(fields))
    decreases fields, 1
  {
    if fields != [] {
      var f, rest := fields[0], fields[1..];
      BoundedSorted(f.value);
      BoundedSortedFields(rest);
      BoundedInserted(Field(f.key, Sorted(f.value)), SortedFields(rest));
      assert fields == [f] + rest;
      BoundedCons(f, rest);
    }
  }

  lemma HeaderSorted(f: seq<Field>)
    ensures HeaderValid(SortedFields(f)) <==> HeaderValid(f)
  {
    SortedMember(f, "schema");
    SortedMember(f, "version");
    SortedMember(f, "sequence");
    SortedMember(f, "previous_sha256");
    SortedMember(f, "row_sha256");
  }

  lemma LaunchValidSorted(read: Json -> Option<Action>, f: seq<Field>)
    requires ReadBlind(read)
    ensures LaunchValid(read, SortedFields(f)) <==> LaunchValid(read, f)
  {
    SortedMember(f, "action");
    SortedMember(f, "task");
    SortedMember(f, "action_descriptor");
    SortedMember(f, "action_sha256");
    SortedMember(f, "action_id");
    SortedMember(f, "assignment_id");
    SortedMember(f, "run_revision");
    SortedMember(f, "acknowledged");
    if Get(f, "task").Some? {
      ReadTaskSorted(Get(f, "task").value);
    }
  }

  lemma KindValidSorted(read: Json -> Option<Action>, kind: RowKind, f: seq<Field>)
    requires ReadBlind(read)
    ensures KindValid(read, kind, SortedFields(f)) <==> KindValid(read, kind, f)
  {
    match kind
    case LaunchKind => LaunchValidSorted(read, f);
    case GateKind =>
      SortedMember(f, "receipt_id");
      SortedMember(f, "gate");
      if Get(f, "gate").Some? {
        ReadGateSorted(Get(f, "gate").value);
      }
    case ArrivedKind =>
      SortedMember(f, "observation");
      if Get(f, "observation").Some? {
        ReadObservationSorted(Get(f, "observation").value);
      }
    case CancelledKind => SortedMember(f, "reporter");
    case _ =>
  }

  /** Row validation does not depend on the order of members. */
  lemma ValidationIsOrderBlind(read: Json -> Option<Action>)
    requires ReadBlind(read)
    ensures OrderBlind(ValidWith(read))
  {
    forall v ensures ValidWith(read)(Sorted(v)) == ValidWith(read)(v) {
      if v.Obj? {
        var f := v.fields;
        HeaderSorted(f);
        BoundedSorted(v);
        SortedMember(f, "kind");
        if KindAt(f).Some? {
          HasKeysSorted(f, KeysOf(KindAt(f).value));
          KindValidSorted(read, KindAt(f).value, f);
        }
      }
    }
  }

  // ---------------------------------------------------------------- any encoding that can be read back

  /** The JSON rows an encoder appends, one after the other. */
  function ChainBy(enc: (seq<Json>, Row) -> Json, rows: seq<Row>): seq<Json> {
    if rows == [] then []
    else
      var before := ChainBy(enc, rows[..|rows| - 1]);
      before + [enc(before, rows[|rows| - 1])]
  }

  /** The typed rows of parsed JSON rows; None where one cannot be read. */
  function ReadBy(dec: Json -> Option<Row>, chain: seq<Json>): Option<seq<Row>> {
    if chain == [] then Some([])
    else
      var before, row := ReadBy(dec, chain[..|chain| - 1]), dec(chain[|chain| - 1]);
      if before.Some? && row.Some? then Some(before.value + [row.value]) else None
  }

  /** Each row was accepted when it was appended. */
  predicate WrittenBy(enc: (seq<Json>, Row) -> Json, accepts: (seq<Json>, Row) -> bool, rows: seq<Row>) {
    forall i :: 0 <= i < |rows| ==> accepts(ChainBy(enc, rows[..i]), rows[i])
  }

  lemma WrittenPrefix(enc: (seq<Json>, Row) -> Json, accepts: (seq<Json>, Row) -> bool, rows: seq<Row>, j: nat)
    requires j <= |rows| && WrittenBy(enc, accepts, rows)
    ensures WrittenBy(enc, accepts, rows[..j])
  {
    forall i | 0 <= i < j ensures accepts(ChainBy(enc, rows[..j][..i]), rows[..j][i]) {
      assert rows[..j][..i] == rows[..i];
    }
  }

  lemma {:induction false} ChainPrefix(enc: (seq<Json>, Row) -> Json, rows: seq<Row>, j: nat)
    requires j <= |rows|
    ensures |ChainBy(enc, rows)| == |rows| && ChainBy(enc, rows)[..j] == ChainBy(enc, rows[..j])
    decreases |rows|
  {
    if j == |rows| {
      assert rows[..j] == rows;
      if j > 0 {
        ChainPrefix(enc, rows[..j - 1], 0);
      }
    } else {
      var before := rows[..|rows| - 1];
      ChainPrefix(enc, before, j);
      assert before[..j] == rows[..j];
    }
  }

  lemma {:induction false} SortedAllAppend(chain: seq<Json>, row: Json)
    ensures SortedAll(chain + [row]) == SortedAll(chain) + [Sorted(row)]
  {
    var all := chain + [row];
    if chain == [] {
      assert all[1..] == [];
    } else {
      assert all[1..] == chain[1..] + [row];
      SortedAllAppend(chain[1..], row);
    }
  }

  /** `dec` reads whatever `enc` writes for the row, in any chain and with members sorted. */
  ghost predicate ReadsBack(enc: (seq<Json>, Row) -> Json, dec: Json -> Option<Row>, row: Row) {
    forall chain :: dec(Sorted(enc(chain, row))) == Some(row)
  }

  lemma {:induction false} ReadByBack(enc: (seq<Json>, Row) -> Json, dec: Json -> Option<Row>, rows: seq<Row>)
    requires forall i :: 0 <= i < |rows| ==> ReadsBack(enc, dec, rows[i])
    ensures ReadBy(dec, SortedAll(ChainBy(enc, rows))) == Some(rows)
    decreases |rows|
  {
    if rows != [] {
      var before, row := rows[..|rows| - 1], rows[|rows| - 1];
      ReadByBack(enc, dec, before);
      var chain := ChainBy(enc, before);
      SortedAllAppend(chain, enc(chain, row));
      var all := SortedAll(chain) + [Sorted(enc(chain, row))];
      assert all[..|all| - 1] == SortedAll(chain);
      assert before + [row] == rows;
    }
  }

  ghost predicate Fits(hash: string -> string, valid: Json -> bool, chain: seq<Json>) {
    ChainFits(hash, valid, chain, 0, ZERO_HASH) && |FileBytes(chain)| <= MAX_BYTES
  }

  /** An accepted row keeps a fitting chain fitting. */
  ghost predicate KeepsFitting(hash: string -> string, valid: Json -> bool, enc: (seq<Json>, Row) -> Json,
                               accepts: (seq<Json>, Row) -> bool, row: Row) {
    forall chain :: Fits(hash, valid, chain) && accepts(chain, row) ==> Fits(hash, valid, chain + [enc(chain, row)])
  }

  lemma {:induction false} WrittenFits(hash: string -> string, valid: Json -> bool, enc: (seq<Json>, Row) -> Json,
                                       accepts: (seq<Json>, Row) -> bool, rows: seq<Row>)
    requires WrittenBy(enc, accepts, rows)
    requires forall i :: 0 <= i < |rows| ==> KeepsFitting(hash, valid, enc, accepts, rows[i])
    ensures Fits(hash, valid, ChainBy(enc, rows))
    decreases |rows|
  {
    if rows == [] {
      assert Encode("") == [];
    } else {
      var n := |rows| - 1;
      WrittenPrefix(enc, accepts, rows, n);
      WrittenFits(hash, valid, enc, accepts, rows[..n]);
      assert accepts(ChainBy(enc, rows[..n]), rows[n]);
    }
  }

  // ---------------------------------------------------------------- the journal's encoding

  function RowEncoder(hash: string -> string): (seq<Json>, Row) -> Json {
    (chain, row) => NextRow(hash, chain, KindText(KindOf(row)), PayloadOf(hash, row))
  }

  function RowDecoder(hash: string -> string, read: Json -> Option<Action>): Json -> Option<Row> {
    v => ReadRowOf(hash, read, v)
  }

  /** `append` accepts the row: validation and the size bounds. */
  function RowAccepted(hash: string -> string, read: Json -> Option<Action>): (seq<Json>, Row) -> bool {
    (chain, row) => Accepts(hash, ValidWith(read), chain, KindText(KindOf(row)), PayloadOf(hash, row))
  }

  function ChainOf(hash: string -> string, rows: seq<Row>): seq<Json> {
    ChainBy(RowEncoder(hash), rows)
  }

  predicate Written(hash: string -> string, read: Json -> Option<Action>, rows: seq<Row>) {
    WrittenBy(RowEncoder(hash), RowAccepted(hash, read), rows)
  }

  ghost predicate AllRecordable(read: Json -> Option<Action>, rows: seq<Row>) {
    forall i :: 0 <= i < |rows| ==> Recordable(read, rows[i])
  }

  lemma NextRowBack(hash: string -> string, read: Json -> Option<Action>, row: Row, chain: seq<Json>)
    requires ReadBlind(read) && Recordable(read, row)
    ensures ReadRowOf(hash, read, Sorted(NextRow(hash, chain, KindText(KindOf(row)), PayloadOf(hash, row)))) == Some(row)
  {
    var kind, payload := KindText(KindOf(row)), PayloadOf(hash, row);
    var previous := LastHash(chain, ZERO_HASH);
    var own := Str(hash(Canonical(Obj(PreimageFields(|chain| + 1, previous, kind, payload)))));
    assert NextRow(hash, chain, kind, payload) == Obj(RowFields(hash, row, |chain| + 1, previous, kind, own));
    RowBack(hash, read, row, |chain| + 1, previous, own);
  }

  lemma RowReadsBack(hash: string -> string, read: Json -> Option<Action>, row: Row)
    requires ReadBlind(read) && Recordable(read, row)
    ensures ReadsBack(RowEncoder(hash), RowDecoder(hash, read), row)
  {
    forall chain ensures RowDecoder(hash, read)(Sorted(RowEncoder(hash)(chain, row))) == Some(row) {
      NextRowBack(hash, read, row, chain);
    }
  }

  lemma RowKeepsFitting(hash: string -> string, read: Json -> Option<Action>, row: Row)
    requires Recordable(read, row)
    ensures KeepsFitting(hash, ValidWith(read), RowEncoder(hash), RowAccepted(hash, read), row)
  {
    PayloadWellKeyed(hash, read, row);
    forall chain | Fits(hash, ValidWith(read), chain) && RowAccepted(hash, read)(chain, row)
      ensures Fits(hash, ValidWith(read), chain + [RowEncoder(hash)(chain, row)])
    {
      AppendFits(hash, ValidWith(read), chain, KindText(KindOf(row)), PayloadOf(hash, row));
    }
  }

  /** The file of accepted rows fits all bounds, and its parsed rows read back as the rows. */
  lemma WrittenRowsBack(hash: string -> string, read: Json -> Option<Action>, rows: seq<Row>)
    requires ReadBlind(read) && AllRecordable(read, rows) && Written(hash, read, rows)
    ensures Fits(hash, ValidWith(read), ChainOf(hash, rows))
    ensures ReadBy(RowDecoder(hash, read), SortedAll(ChainOf(hash, rows))) == Some(rows)
  {
    forall i | 0 <= i < |rows|
      ensures KeepsFitting(hash, ValidWith(read), RowEncoder(hash), RowAccepted(hash, read), rows[i])
      ensures ReadsBack(RowEncoder(hash), RowDecoder(hash, read), rows[i])
    {
      RowKeepsFitting(hash, read, rows[i]);
      RowReadsBack(hash, read, rows[i]);
    }
    WrittenFits(hash, ValidWith(read), RowEncoder(hash), RowAccepted(hash, read), rows);
    ReadByBack(RowEncoder(hash), RowDecoder(hash, read), rows);
  }

  // ---------------------------------------------------------------- reopening the file

  /** `HostOwnershipCoordinator.open`: parse the bytes, read each row, restore it. */
  function Reopen(hash: string -> string, read: Json -> Option<Action>, file: seq<byte>): Option<Memory> {
    var parsed := ParseFile(hash, ValidWith(read), file);
    if parsed.None? then None
    else
      var rows := ReadBy(RowDecoder(hash, read), parsed.value);
      if rows.None? then None else RestoreAll(rows.value)
  }

  lemma ReopenIsRestore(hash: string -> string, read: Json -> Option<Action>, rows: seq<Row>)
    requires ReadBlind(read) && AllRecordable(read, rows) && Written(hash, read, rows)
    ensures Reopen(hash, read, FileBytes(ChainOf(hash, rows))) == RestoreAll(rows)
  {
    WrittenRowsBack(hash, read, rows);
    ValidationIsOrderBlind(read);
    ParseOwnFile(hash, ValidWith(read), ChainOf(hash, rows));
  }

  // ---------------------------------------------------------------- the rows of a run

  /** Launches are registered with the actions their descriptors spell. */
  ghost predicate CallsCoherent(read: Json -> Option<Action>, events: seq<Event>) {
    forall i :: 0 <= i < |events| && events[i].Do? && events[i].call.RegisterCall? ==>
      Coherent(read, events[i].call.action)
  }

  lemma RowRecordable(read: Json -> Option<Action>, m: Memory, call: Call)
    requires PlanOf(m, call).Write? && (call.RegisterCall? ==> Coherent(read, call.action))
    ensures Recordable(read, PlanOf(m, call).row)
  {
  }

  lemma {:induction false} RunRecordable(read: Json -> Option<Action>, events: seq<Event>)
    requires CallsCoherent(read, events) && Run(events).Some?
    ensures AllRecordable(read, Run(events).value.rows)
    decreases |events|
  {
    if events != [] {
      var n := |events| - 1;
      RunRecordable(read, events[..n]);
      var s := Run(events[..n]).value;
      if events[n].Do? {
        StepRecordable(read, s, events[n].call, events[n].durable);
      }
    }
  }

  lemma StepRecordable(read: Json -> Option<Action>, s: Store, call: Call, durable: bool)
    requires AllRecordable(read, s.rows) && (call.RegisterCall? ==> Coherent(read, call.action))
    ensures AllRecordable(read, Perform(s, call, durable).rows)
  {
    if PlanOf(s.memory, call).Write? {
      RowRecordable(read, s.memory, call);
    }
  }

  // ---------------------------------------------------------------- the live journal over a run

  /** The chain the live journal holds: a restart replaces it by what parsing its file returns. */
  function LiveChain(hash: string -> string, events: seq<Event>): seq<Json> {
    if events == [] then []
    else
      var n := |events| - 1;
      var chain, before := LiveChain(hash, events[..n]), Run(events[..n]);
      match events[n]
      case Restart => SortedAll(chain)
      case Do(call, durable) =>
        if before.None? || !durable || !PlanOf(before.value.memory, call).Write? then chain
        else chain + [RowEncoder(hash)(chain, PlanOf(before.value.memory, call).row)]
  }

  lemma ChainOfAppend(hash: string -> string, rows: seq<Row>, row: Row)
    ensures ChainOf(hash, rows + [row]) == ChainOf(hash, rows) + [RowEncoder(hash)(ChainOf(hash, rows), row)]
  {
    assert (rows + [row])[..|rows|] == rows;
  }

  /** Over every run, restarts included, the live journal's file is the file of the run's rows. */
  lemma {:induction false} LiveFileIsChain(hash: string -> string, events: seq<Event>)
    requires Run(events).Some?
    ensures var rows := Run(events).value.rows;
            && Alike(LiveChain(hash, events), ChainOf(hash, rows))
            && FileBytes(LiveChain(hash, events)) == FileBytes(ChainOf(hash, rows))
    decreases |events|
  {
    if events != [] {
      var n := |events| - 1;
      LiveFileIsChain(hash, events[..n]);
      var s, chain := Run(events[..n]).value, LiveChain(hash, events[..n]);
      match events[n]
      case Restart => SortedChainAlike(chain);
      case Do(call, durable) =>
        var plan := PlanOf(s.memory, call);
        if durable && plan.Write? {
          AlikeGoesOn(hash, chain, ChainOf(hash, s.rows), KindText(KindOf(plan.row)), PayloadOf(hash, plan.row));
          ChainOfAppend(hash, s.rows, plan.row);
        }
    }
  }

  // ---------------------------------------------------------------- from disk to memory

  /** Whatever the run made durable, `append` accepted; an append it refuses is one that fails. */
  ghost predicate AppendsAccepted(hash: string -> string, read: Json -> Option<Action>, events: seq<Event>) {
    forall k :: 0 <= k <= |events| && Run(events[..k]).Some? ==> Written(hash, read, Run(events[..k]).value.rows)
  }

  /** Reopening the bytes on disk after these events gives back everything durable. */
  ghost predicate FileRestoresAt(hash: string -> string, read: Json -> Option<Action>, events: seq<Event>) {
    Run(events).Some? &&
    var s := Run(events).value;
    Reopen(hash, read, FileBytes(ChainOf(hash, s.rows))) == Some(Durable(s.memory, Launched(s.rows)))
  }

  lemma FileRestoresAsRows(hash: string -> string, read: Json -> Option<Action>, events: seq<Event>)
    requires ReadBlind(read) && CallsCoherent(read, events)
    requires Run(events).Some? ==> Written(hash, read, Run(events).value.rows)
    ensures FileRestoresAt(hash, read, events) <==> RestoresAt(events)
  {
    if Run(events).Some? {
      RunRecordable(read, events);
      ReopenIsRestore(hash, read, Run(events).value.rows);
    }
  }

  lemma FilePrefixRestoresAsRows(hash: string -> string, read: Json -> Option<Action>, events: seq<Event>, k: nat)
    requires ReadBlind(read) && CallsCoherent(read, events) && AppendsAccepted(hash, read, events) && k <= |events|
    ensures FileRestoresAt(hash, read, events[..k]) <==> RestoresAt(events[..k])
  {
    FileRestoresAsRows(hash, read, events[..k]);
  }

  ghost predicate FileRestoresThroughout(hash: string -> string, read: Json -> Option<Action>, events: seq<Event>) {
    forall k :: 0 <= k <= |events| ==> FileRestoresAt(hash, read, events[..k])
  }

  lemma ThroughoutAsRows(hash: string -> string, read: Json -> Option<Action>, events: seq<Event>)
    requires forall k :: 0 <= k <= |events| ==> (FileRestoresAt(hash, read, events[..k]) <==> RestoresAt(events[..k]))
    ensures FileRestoresThroughout(hash, read, events) <==> RestoresThroughout(events)
  {
  }

  /**
   * From the bytes on disk to memory, exactly. For every run, with failed
   * appends, lost launches and restarts: at every point, reopening the file
   * succeeds and rebuilds the live durable state, iff every row was clean when
   * it was appended.
   */
  lemma FileRestoresIffClean(hash: string -> string, read: Json -> Option<Action>, events: seq<Event>)
    requires ReadBlind(read) && CallsCoherent(read, events) && AppendsAccepted(hash, read, events)
    ensures CleanRun(events) <==> FileRestoresThroughout(hash, read, events)
  {
    JournalRestoresIffClean(events);
    forall k | 0 <= k <= |events| ensures FileRestoresAt(hash, read, events[..k]) <==> RestoresAt(events[..k]) {
      FilePrefixRestoresAsRows(hash, read, events, k);
    }
    ThroughoutAsRows(hash, read, events);
  }

  /**
   * A run in which no launch append fails, observations and cancellations name
   * the promoted gate and ids are not empty survives its restarts, and reopening
   * its file rebuilds all of the live state that rows keep.
   */
  lemma FileRebuildsMemory(hash: string -> string, read: Json -> Option<Action>, events: seq<Event>)
    requires ReadBlind(read) && CallsCoherent(read, events) && AppendsAccepted(hash, read, events)
    requires Disciplined(events) && AllNamed(events)
    ensures Run(events).Some?
    ensures var s := Run(events).value;
            Reopen(hash, read, FileBytes(ChainOf(hash, s.rows))) == Some(Durable(s.memory, s.memory.owned.Keys))
  {
    DisciplinedRunRestores(events);
    DisciplinedIsClean(events);
    assert events[..|events|] == events;
    FileRestoresAsRows(hash, read, events);
  }

  /** An accepted cut of the file is the file of a prefix of the rows. */
  lemma TornCut(hash: string -> string, read: Json -> Option<Action>, rows: seq<Row>, k: nat) returns (j: nat)
    requires ReadBlind(read) && AllRecordable(read, rows) && Written(hash, read, rows)
    requires k <= |FileBytes(ChainOf(hash, rows))|
    requires ParseFile(hash, ValidWith(read), FileBytes(ChainOf(hash, rows))[..k]).Some?
    ensures j <= |rows| && FileBytes(ChainOf(hash, rows))[..k] == FileBytes(ChainOf(hash, rows[..j]))
  {
    WrittenRowsBack(hash, read, rows);
    ValidationIsOrderBlind(read);
    j := AcceptedCut(hash, ValidWith(read), ChainOf(hash, rows), k);
    ChainPrefix(RowEncoder(hash), rows, 0);
    ChainPrefix(RowEncoder(hash), rows, j);
  }

  /** A file cut short at any byte is refused, or restores what some prefix of the rows restores. */
  lemma TornFileRestoresPrefix(hash: string -> string, read: Json -> Option<Action>, rows: seq<Row>, k: nat)
    requires ReadBlind(read) && AllRecordable(read, rows) && Written(hash, read, rows)
    requires k <= |FileBytes(ChainOf(hash, rows))|
    ensures var cut := FileBytes(ChainOf(hash, rows))[..k];
            ParseFile(hash, ValidWith(read), cut).None?
            || exists j :: 0 <= j <= |rows| && Reopen(hash, read, cut) == RestoreAll(rows[..j])
  {
    if ParseFile(hash, ValidWith(read), FileBytes(ChainOf(hash, rows))[..k]).Some? {
      var j := TornCut(hash, read, rows, k);
      WrittenPrefix(RowEncoder(hash), RowAccepted(hash, read), rows, j);
      ReopenIsRestore(hash, read, rows[..j]);
    }
  }
}

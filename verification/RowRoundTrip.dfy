/** A journal row written as JSON, members in any order, is read back as itself. */
module RowRoundTrip {
  import opened Wrappers
  import opened Json
  import opened JsonLaws
  import opened JournalFile
  import opened Ownership
  import opened RowJson

  /** All members of a row: header, payload, own hash. */
  function RowFields(hash: string -> string, row: Row, sequence: nat, previous: string, kind: string, own: Json): seq<Field> {
    PreimageFields(sequence, previous, kind, PayloadOf(hash, row)) + [Field("row_sha256", own)]
  }

  /** The descriptor is the text of a JSON action that validates to this action. */
  ghost predicate Coherent(read: Json -> Option<Action>, action: Action) {
    exists j :: Text(j) == action.descriptor && UniqueKeys(j) && read(j).Some?
                && read(j).value.(descriptor := action.descriptor) == action
  }

  /** A row the coordinator can write: journaled tasks, a real action, a gate with members. */
  ghost predicate Recordable(read: Json -> Option<Action>, row: Row) {
    match row
    case Launch(task, action, _, _, _, _) => task.extra == "" && Coherent(read, action)
    case TerminalTombstone(_, task, _) => task.extra == ""
    case BlockedGate(_, gate) => gate.cancellations != []
    case _ => true
  }

  // ---------------------------------------------------------------- keys

  ghost predicate Distinct(keys: seq<string>) {
    forall i, j :: 0 <= i < j < |keys| ==> keys[i] != keys[j]
  }

  /** The fields carry exactly these keys, in this order. */
  ghost predicate Keyed(fields: seq<Field>, keys: seq<string>) {
    |fields| == |keys| && forall i :: 0 <= i < |keys| ==> fields[i].key == keys[i]
  }

  lemma KeyedConcat(a: seq<Field>, ka: seq<string>, b: seq<Field>, kb: seq<string>)
    requires Keyed(a, ka) && Keyed(b, kb)
    ensures Keyed(a + b, ka + kb)
  {
  }

  lemma KeyedDistinct(fields: seq<Field>, keys: seq<string>)
    requires Keyed(fields, keys) && Distinct(keys)
    ensures DistinctKeys(fields) && HasKeys(fields, keys)
  {
    forall i | 0 <= i < |keys| ensures Get(fields, keys[i]).Some? {
      GetAtIndex(fields, i);
    }
  }

  lemma KindKeysDistinct(kind: RowKind)
    ensures Distinct(KeysOf(kind))
  {
    match kind
    case LaunchKind => LaunchKeysDistinct();
    case CancelledKind => CancelledKeysDistinct();
    case TombstoneKind => TombstoneKeysDistinct();
    case _ =>
  }

  lemma LaunchKeysDistinct()
    ensures Distinct(KeysOf(LaunchKind))
  {
  }

  lemma TombstoneKeysDistinct()
    ensures Distinct(KeysOf(TombstoneKind))
  {
  }

  lemma CancelledKeysDistinct()
    ensures Distinct(KeysOf(CancelledKind))
  {
  }

  const HEADER_KEYS := ["schema", "version", "sequence", "previous_sha256", "kind"]

  /** The members between the header and the hash. */
  function PayloadKeys(kind: RowKind): seq<string> {
    match kind
    case LaunchKind =>
      ["task", "action", "action_descriptor", "action_sha256", "action_id", "assignment_id", "run_revision", "acknowledged"]
    case AckKind => CORRELATION_KEYS
    case TombstoneKind => CORRELATION_KEYS + ["task", "status"]
    case ForwardedKind => CORRELATION_KEYS
    case GateKind => ["receipt_id", "gate"]
    case ArrivedKind => ["receipt_id", "latch_id", "observation"]
    case ObservedKind => ["receipt_id", "latch_id"]
    case CancelledKind => ["receipt_id", "latch_id"] + ["task_id", "action_id", "assignment_id", "reporter"]
  }

  const CORRELATION_KEYS := ["task_id", "action_id", "assignment_id", "run_revision"]

  lemma KeysSplit(kind: RowKind)
    ensures KeysOf(kind) == HEADER_KEYS + PayloadKeys(kind) + ["row_sha256"]
  {
  }

  lemma LaunchKeyed(hash: string -> string, row: Row)
    requires row.Launch?
    ensures Keyed(PayloadOf(hash, row), PayloadKeys(LaunchKind))
  {
  }

  lemma CorrelationKeyed(c: Correlation)
    ensures Keyed(CorrelationFields(c), CORRELATION_KEYS)
  {
  }

  lemma PayloadKeyed(hash: string -> string, row: Row)
    ensures Keyed(PayloadOf(hash, row), PayloadKeys(KindOf(row)))
  {
    match row
    case Launch(_, _, _, _, _, _) => LaunchKeyed(hash, row);
    case LaunchAck(c) => CorrelationKeyed(c);
    case TerminalForwarded(c) => CorrelationKeyed(c);
    case TerminalTombstone(c, task, status) =>
      CorrelationKeyed(c);
      KeyedConcat(CorrelationFields(c), CORRELATION_KEYS,
                  [Field("task", Obj(TaskFields(task))), Field("status", Str(status))], ["task", "status"]);
    case BlockedCancelled(receiptId, latchId, c) =>
      KeyedConcat([Field("receipt_id", Str(receiptId)), Field("latch_id", Str(latchId))], ["receipt_id", "latch_id"],
                  CancellationFields(c), ["task_id", "action_id", "assignment_id", "reporter"]);
    case _ =>
  }

  lemma RowKeyed(hash: string -> string, row: Row, sequence: nat, previous: string, kind: string, own: Json)
    ensures DistinctKeys(RowFields(hash, row, sequence, previous, kind, own))
    ensures HasKeys(RowFields(hash, row, sequence, previous, kind, own), KeysOf(KindOf(row)))
  {
    var k := KindOf(row);
    KeysSplit(k);
    PayloadKeyed(hash, row);
    var header := Header(sequence, previous, kind);
    assert Keyed(header, HEADER_KEYS);
    KeyedConcat(header, HEADER_KEYS, PayloadOf(hash, row), PayloadKeys(k));
    KeyedConcat(header + PayloadOf(hash, row), HEADER_KEYS + PayloadKeys(k), [Field("row_sha256", own)], ["row_sha256"]);
    KindKeysDistinct(k);
    KeyedDistinct(RowFields(hash, row, sequence, previous, kind, own), KeysOf(k));
  }

  // ---------------------------------------------------------------- unique keys throughout

  lemma {:induction false} CancellationItemsUnique(cs: seq<Cancellation>)
    ensures UniqueKeys(Arr(CancellationItems(cs)))
  {
    if cs != [] {
      CancellationKeys(cs[0]);
      CancellationItemsUnique(cs[1..]);
      UniqueHead(CancellationItems(cs));
      assert CancellationItems(cs)[1..] == CancellationItems(cs[1..]);
    }
  }

  lemma CoherentJson(read: Json -> Option<Action>, action: Action)
    requires Coherent(read, action)
    ensures Parse(action.descriptor) == Some(ActionJson(action)) && Text(ActionJson(action)) == action.descriptor
    ensures UniqueKeys(ActionJson(action)) && read(ActionJson(action)).Some?
    ensures read(ActionJson(action)).value.(descriptor := action.descriptor) == action
  {
    var j :| Text(j) == action.descriptor && UniqueKeys(j) && read(j).Some?
             && read(j).value.(descriptor := action.descriptor) == action;
    ParseText(j);
  }

  lemma TaskUnique(t: Task)
    ensures UniqueKeys(Obj(TaskFields(t)))
  {
    TaskKeys(t);
  }

  lemma GateUnique(g: Gate)
    ensures UniqueKeys(Obj(GateFields(g)))
  {
    GateKeys(g);
    CancellationItemsUnique(g.cancellations);
  }

  lemma ObservationUnique(o: Observation)
    ensures UniqueKeys(Obj(ObservationFields(o)))
  {
    ObservationKeys(o);
  }

  ghost predicate ValuesUnique(f: seq<Field>) {
    forall i :: 0 <= i < |f| ==> UniqueKeys(f[i].value)
  }

  lemma LaunchUnique(hash: string -> string, read: Json -> Option<Action>, row: Row)
    requires row.Launch? && Recordable(read, row)
    ensures ValuesUnique(PayloadOf(hash, row))
  {
    TaskUnique(row.task);
    CoherentJson(read, row.action);
  }

  lemma PayloadUnique(hash: string -> string, read: Json -> Option<Action>, row: Row)
    requires Recordable(read, row)
    ensures ValuesUnique(PayloadOf(hash, row))
  {
    match row
    case Launch(_, _, _, _, _, _) => LaunchUnique(hash, read, row);
    case TerminalTombstone(_, task, _) => TaskUnique(task);
    case BlockedGate(_, gate) => GateUnique(gate);
    case ObservationArrived(_, _, observation) => ObservationUnique(observation);
    case _ =>
  }

  lemma ValuesUniqueAround(header: seq<Field>, payload: seq<Field>, last: Field)
    requires ValuesUnique(header) && ValuesUnique(payload) && UniqueKeys(last.value)
    ensures ValuesUnique(header + payload + [last])
  {
    var all := header + payload + [last];
    forall i | 0 <= i < |all| ensures UniqueKeys(all[i].value) {
      if i < |header| {
        assert all[i] == header[i];
      } else if i < |header| + |payload| {
        assert all[i] == payload[i - |header|];
      }
    }
  }

  /** The payload of a recordable row repeats no key, at any depth. */
  lemma PayloadWellKeyed(hash: string -> string, read: Json -> Option<Action>, row: Row)
    requires Recordable(read, row)
    ensures WellKeyed(PayloadOf(hash, row))
  {
    RowKeyed(hash, row, 0, "", "", Null);
    PayloadUnique(hash, read, row);
    assert ValuesUnique(Header(0, "", ""));
    ValuesUniqueAround(Header(0, "", ""), PayloadOf(hash, row), Field("row_sha256", Null));
  }

  // ---------------------------------------------------------------- reading back

  /** A member of the payload, found in the whole row. */
  lemma PayloadMember(f: seq<Field>, p: seq<Field>, i: nat, key: string, v: Json)
    requires DistinctKeys(f) && 5 + |p| <= |f| && f[5..5 + |p|] == p && i < |p| && p[i] == Field(key, v)
    ensures Get(f, key) == Some(v)
  {
    assert f[5..5 + |p|][i] == f[5 + i];
    MemberAt(f, 5 + i, key, v);
  }

  function LaunchPayload(task: Json, action: Json, descriptor: Json, sha: Json, actionId: Json, assignmentId: Json,
                         revision: Json, acknowledged: Json): seq<Field> {
    [Field("task", task), Field("action", action), Field("action_descriptor", descriptor), Field("action_sha256", sha),
     Field("action_id", actionId), Field("assignment_id", assignmentId), Field("run_revision", revision),
     Field("acknowledged", acknowledged)]
  }

  lemma LaunchFacts(f: seq<Field>, task: Json, action: Json, descriptor: Json, sha: Json, actionId: Json,
                    assignmentId: Json, revision: Json, acknowledged: Json)
    requires DistinctKeys(f) && |f| == 14
    requires f[5..13] == LaunchPayload(task, action, descriptor, sha, actionId, assignmentId, revision, acknowledged)
    ensures Get(f, "task") == Some(task) && Get(f, "action") == Some(action)
    ensures Get(f, "action_descriptor") == Some(descriptor) && Get(f, "action_sha256") == Some(sha)
    ensures Get(f, "action_id") == Some(actionId) && Get(f, "assignment_id") == Some(assignmentId)
    ensures Get(f, "run_revision") == Some(revision) && Get(f, "acknowledged") == Some(acknowledged)
  {
    var p := LaunchPayload(task, action, descriptor, sha, actionId, assignmentId, revision, acknowledged);
    PayloadMember(f, p, 0, "task", task);
    PayloadMember(f, p, 1, "action", action);
    PayloadMember(f, p, 2, "action_descriptor", descriptor);
    PayloadMember(f, p, 3, "action_sha256", sha);
    PayloadMember(f, p, 4, "action_id", actionId);
    PayloadMember(f, p, 5, "assignment_id", assignmentId);
    PayloadMember(f, p, 6, "run_revision", revision);
    PayloadMember(f, p, 7, "acknowledged", acknowledged);
  }

  lemma LaunchBack(hash: string -> string, read: Json -> Option<Action>, row: Row, f: seq<Field>)
    requires row.Launch? && Recordable(read, row)
    requires DistinctKeys(f) && |f| == 14 && f[5..13] == PayloadOf(hash, row)
    ensures ReadLaunch(hash, read, f) == Some(row)
  {
    LaunchFacts(f, Obj(TaskFields(row.task)), ActionJson(row.action), Str(row.action.descriptor),
                Str(hash(row.action.descriptor)), Str(row.actionId), Str(row.assignmentId), Num(row.runRevision),
                Bool(row.acknowledged));
    ReadTaskBack(row.task);
    CoherentJson(read, row.action);
  }

  /** The four correlation members, wherever they stand. */
  lemma CorrelationBack(c: Correlation, f: seq<Field>, at: nat)
    requires DistinctKeys(f) && at + 4 <= |f| && f[at..at + 4] == CorrelationFields(c)
    ensures ReadCorrelation(f) == Some(c)
  {
    var p := f[at..at + 4];
    assert forall i :: 0 <= i < 4 ==> p[i] == f[at + i];
    MemberAt(f, at, "task_id", Str(c.taskId));
    MemberAt(f, at + 1, "action_id", Str(c.actionId));
    MemberAt(f, at + 2, "assignment_id", Str(c.assignmentId));
    MemberAt(f, at + 3, "run_revision", Num(c.runRevision));
  }

  lemma CancellationBack(c: Cancellation, f: seq<Field>, at: nat)
    requires DistinctKeys(f) && at + 4 <= |f| && f[at..at + 4] == CancellationFields(c)
    ensures ReadCancellationFields(f) == Some(c)
  {
    var p := f[at..at + 4];
    assert forall i :: 0 <= i < 4 ==> p[i] == f[at + i];
    MemberAt(f, at, "task_id", Str(c.taskId));
    MemberAt(f, at + 1, "action_id", Str(c.actionId));
    MemberAt(f, at + 2, "assignment_id", Str(c.assignmentId));
    MemberAt(f, at + 3, "reporter", Bool(c.reporter));
  }

  lemma CorrelationRowBack(hash: string -> string, read: Json -> Option<Action>, row: Row, f: seq<Field>)
    requires row.LaunchAck? || row.TerminalForwarded?
    requires DistinctKeys(f) && |f| == 10 && f[5..9] == PayloadOf(hash, row)
    ensures ReadMembers(hash, read, KindOf(row), f) == Some(row)
  {
    CorrelationBack(row.correlation, f, 5);
  }

  lemma TombstoneBack(hash: string -> string, row: Row, f: seq<Field>)
    requires row.TerminalTombstone? && row.finalTask.extra == ""
    requires DistinctKeys(f) && |f| == 12 && f[5..11] == PayloadOf(hash, row)
    ensures ReadTombstone(f) == Some(row)
  {
    var p := PayloadOf(hash, row);
    assert f[5..9] == p[..4] == CorrelationFields(row.correlation);
    CorrelationBack(row.correlation, f, 5);
    PayloadMember(f, p, 4, "task", Obj(TaskFields(row.finalTask)));
    PayloadMember(f, p, 5, "status", Str(row.status));
    ReadTaskBack(row.finalTask);
  }

  lemma GateRowBack(hash: string -> string, row: Row, f: seq<Field>)
    requires row.BlockedGate? && row.gate.cancellations != []
    requires DistinctKeys(f) && |f| == 8 && f[5..7] == PayloadOf(hash, row)
    ensures ReadGateRow(f) == Some(row)
  {
    var p := PayloadOf(hash, row);
    PayloadMember(f, p, 0, "receipt_id", Str(row.receiptId));
    PayloadMember(f, p, 1, "gate", Obj(GateFields(row.gate)));
    ReadGateBack(row.gate);
  }

  lemma ArrivedBack(hash: string -> string, row: Row, f: seq<Field>)
    requires row.ObservationArrived?
    requires DistinctKeys(f) && |f| == 9 && f[5..8] == PayloadOf(hash, row)
    ensures ReadArrived(f) == Some(row)
  {
    var p := PayloadOf(hash, row);
    PayloadMember(f, p, 0, "receipt_id", Str(row.receiptId));
    PayloadMember(f, p, 1, "latch_id", Str(row.latchId));
    PayloadMember(f, p, 2, "observation", Obj(ObservationFields(row.observation)));
    ReadObservationBack(row.observation);
  }

  lemma ObservedBack(hash: string -> string, row: Row, f: seq<Field>)
    requires row.ObservationObserved?
    requires DistinctKeys(f) && |f| == 8 && f[5..7] == PayloadOf(hash, row)
    ensures ReadObserved(f) == Some(row)
  {
    var p := PayloadOf(hash, row);
    PayloadMember(f, p, 0, "receipt_id", Str(row.receiptId));
    PayloadMember(f, p, 1, "latch_id", Str(row.latchId));
  }

  lemma CancelledBack(hash: string -> string, row: Row, f: seq<Field>)
    requires row.BlockedCancelled?
    requires DistinctKeys(f) && |f| == 12 && f[5..11] == PayloadOf(hash, row)
    ensures ReadCancelled(f) == Some(row)
  {
    var p := PayloadOf(hash, row);
    PayloadMember(f, p, 0, "receipt_id", Str(row.receiptId));
    PayloadMember(f, p, 1, "latch_id", Str(row.latchId));
    assert f[7..11] == p[2..] == CancellationFields(row.cancellation);
    CancellationBack(row.cancellation, f, 7);
  }

  lemma MembersBack(hash: string -> string, read: Json -> Option<Action>, row: Row, f: seq<Field>)
    requires Recordable(read, row)
    requires DistinctKeys(f) && |f| == |PayloadOf(hash, row)| + 6 && f[5..|f| - 1] == PayloadOf(hash, row)
    ensures ReadMembers(hash, read, KindOf(row), f) == Some(row)
  {
    match row
    case Launch(_, _, _, _, _, _) => LaunchBack(hash, read, row, f);
    case LaunchAck(_) => CorrelationRowBack(hash, read, row, f);
    case TerminalTombstone(_, _, _) => TombstoneBack(hash, row, f);
    case TerminalForwarded(_) => CorrelationRowBack(hash, read, row, f);
    case BlockedGate(_, _) => GateRowBack(hash, row, f);
    case ObservationArrived(_, _, _) => ArrivedBack(hash, row, f);
    case ObservationObserved(_, _) => ObservedBack(hash, row, f);
    case BlockedCancelled(_, _, _) => CancelledBack(hash, row, f);
  }

  /** A row read from its JSON, members in any order, is the row that was written. */
  lemma RowBack(hash: string -> string, read: Json -> Option<Action>, row: Row, sequence: nat, previous: string, own: Json)
    requires ReadBlind(read) && Recordable(read, row)
    ensures var v := Obj(RowFields(hash, row, sequence, previous, KindText(KindOf(row)), own));
            ReadRowOf(hash, read, v) == Some(row) && ReadRowOf(hash, read, Sorted(v)) == Some(row)
  {
    var kind, payload := KindText(KindOf(row)), PayloadOf(hash, row);
    var f := RowFields(hash, row, sequence, previous, kind, own);
    RowKeyed(hash, row, sequence, previous, kind, own);
    assert f[5..|f| - 1] == payload;
    MembersBack(hash, read, row, f);
    assert f[4] == Field("kind", Str(kind));
    MemberAt(f, 4, "kind", Str(kind));
    KindRoundTrip(KindOf(row));
    ReadRowSorted(hash, read, Obj(f));
  }
}

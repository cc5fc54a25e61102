/**
 * Journal rows as JSON (src/ownership-journal.ts): the members `append` writes
 * for each row kind, and the typed row `validateRow` and `restore` read back.
 * `read` stands for `validateBackgroundAction`.
 */
module RowJson {
  import opened Wrappers
  import opened Json
  import opened JsonLaws
  import opened Ownership

  const MAX_STRING_BYTES := 16 * 1024

  // ---------------------------------------------------------------- writing

  function OptText(s: Option<string>): Json {
    if s.None? then Null else Str(s.value)
  }

  function OptFlag(b: Option<bool>): Json {
    if b.None? then Null else Bool(b.value)
  }

  function OptNat(n: Option<nat>): Json {
    if n.None? then Null else Num(n.value)
  }

  /** `journalTask` */
  function TaskFields(t: Task): seq<Field> {
    [Field("id", Str(t.id)), Field("name", OptText(t.name)), Field("command", Str(t.command)),
     Field("status", Str(t.status)), Field("outputPath", Str(t.outputPath)), Field("isAgent", OptFlag(t.isAgent)),
     Field("notifyOnCompletion", OptFlag(t.notifyOnCompletion)),
     Field("triggerOnCompletion", OptFlag(t.triggerOnCompletion)), Field("timeoutSeconds", OptNat(t.timeoutSeconds))]
  }

  function CancellationFields(c: Cancellation): seq<Field> {
    [Field("task_id", Str(c.taskId)), Field("action_id", Str(c.actionId)),
     Field("assignment_id", Str(c.assignmentId)), Field("reporter", Bool(c.reporter))]
  }

  function CancellationItems(cs: seq<Cancellation>): seq<Json> {
    if cs == [] then [] else [Obj(CancellationFields(cs[0]))] + CancellationItems(cs[1..])
  }

  const GATE_SCHEMA := "autopilot.child_control_blocked_gate.v1"

  function GateFields(g: Gate): seq<Field> {
    [Field("schema", Str(GATE_SCHEMA)), Field("latch_id", Str(g.latchId)), Field("run_id", Str(g.runId)),
     Field("cancellations", Arr(CancellationItems(g.cancellations)))]
  }

  const OBSERVATION_SCHEMA := "autopilot.blocked_result_observed.v1"

  function ObservationFields(o: Observation): seq<Field> {
    [Field("schema", Str(OBSERVATION_SCHEMA)), Field("token", Str(o.token)), Field("run_id", Str(o.runId)),
     Field("assignment_id", Str(o.assignmentId)), Field("attempt", Num(o.attempt)),
     Field("receipt_id", Str(o.receiptId)), Field("tool_call_id", Str(o.toolCallId))]
  }

  function CorrelationFields(c: Correlation): seq<Field> {
    [Field("task_id", Str(c.taskId)), Field("action_id", Str(c.actionId)),
     Field("assignment_id", Str(c.assignmentId)), Field("run_revision", Num(c.runRevision))]
  }

  /** The action whose exact text is the descriptor. */
  function ActionJson(action: Action): Json {
    if Parse(action.descriptor).None? then Null else Parse(action.descriptor).value
  }

  datatype RowKind =
    | LaunchKind | AckKind | TombstoneKind | ForwardedKind | GateKind | ArrivedKind | ObservedKind | CancelledKind

  function KindOf(row: Row): RowKind {
    match row
    case Launch(_, _, _, _, _, _) => LaunchKind
    case LaunchAck(_) => AckKind
    case TerminalTombstone(_, _, _) => TombstoneKind
    case TerminalForwarded(_) => ForwardedKind
    case BlockedGate(_, _) => GateKind
    case ObservationArrived(_, _, _) => ArrivedKind
    case ObservationObserved(_, _) => ObservedKind
    case BlockedCancelled(_, _, _) => CancelledKind
  }

  function KindText(kind: RowKind): string {
    match kind
    case LaunchKind => "launch"
    case AckKind => "launch-ack"
    case TombstoneKind => "terminal-tombstone"
    case ForwardedKind => "terminal-forwarded"
    case GateKind => "blocked-gate"
    case ArrivedKind => "blocked-observation-arrived"
    case ObservedKind => "blocked-observation-observed"
    case CancelledKind => "blocked-cancelled"
  }

  function KindNamed(s: string): Option<RowKind> {
    if s == "launch" then Some(LaunchKind)
    else if s == "launch-ack" then Some(AckKind)
    else if s == "terminal-tombstone" then Some(TombstoneKind)
    else if s == "terminal-forwarded" then Some(ForwardedKind)
    else if s == "blocked-gate" then Some(GateKind)
    else if s == "blocked-observation-arrived" then Some(ArrivedKind)
    else if s == "blocked-observation-observed" then Some(ObservedKind)
    else if s == "blocked-cancelled" then Some(CancelledKind)
    else None
  }

  lemma KindRoundTrip(kind: RowKind)
    ensures KindNamed(KindText(kind)) == Some(kind)
  {
  }

  function PayloadOf(hash: string -> string, row: Row): seq<Field> {
    match row
    case Launch(task, action, actionId, assignmentId, runRevision, acknowledged) =>
      [Field("task", Obj(TaskFields(task))), Field("action", ActionJson(action)),
       Field("action_descriptor", Str(action.descriptor)), Field("action_sha256", Str(hash(action.descriptor))),
       Field("action_id", Str(actionId)), Field("assignment_id", Str(assignmentId)),
       Field("run_revision", Num(runRevision)), Field("acknowledged", Bool(acknowledged))]
    case LaunchAck(c) => CorrelationFields(c)
    case TerminalTombstone(c, task, status) =>
      CorrelationFields(c) + [Field("task", Obj(TaskFields(task))), Field("status", Str(status))]
    case TerminalForwarded(c) => CorrelationFields(c)
    case BlockedGate(receiptId, gate) => [Field("receipt_id", Str(receiptId)), Field("gate", Obj(GateFields(gate)))]
    case ObservationArrived(receiptId, latchId, observation) =>
      [Field("receipt_id", Str(receiptId)), Field("latch_id", Str(latchId)),
       Field("observation", Obj(ObservationFields(observation)))]
    case ObservationObserved(receiptId, latchId) =>
      [Field("receipt_id", Str(receiptId)), Field("latch_id", Str(latchId))]
    case BlockedCancelled(receiptId, latchId, c) =>
      [Field("receipt_id", Str(receiptId)), Field("latch_id", Str(latchId))] + CancellationFields(c)
  }

  // ---------------------------------------------------------------- reading

  function TextAt(f: seq<Field>, key: string): Option<string> {
    var v := Get(f, key);
    if v.Some? && v.value.Str? then Some(v.value.s) else None
  }

  function NatAt(f: seq<Field>, key: string): Option<nat> {
    var v := Get(f, key);
    if v.Some? && v.value.Num? then Some(v.value.n) else None
  }

  function FlagAt(f: seq<Field>, key: string): Option<bool> {
    var v := Get(f, key);
    if v.Some? && v.value.Bool? then Some(v.value.b) else None
  }

  function OptTextAt(f: seq<Field>, key: string): Option<Option<string>> {
    if Get(f, key) == Some(Null) then Some(None)
    else
      var s := TextAt(f, key);
      if s.None? then None else Some(s)
  }

  function OptFlagAt(f: seq<Field>, key: string): Option<Option<bool>> {
    if Get(f, key) == Some(Null) then Some(None)
    else
      var b := FlagAt(f, key);
      if b.None? then None else Some(b)
  }

  function OptNatAt(f: seq<Field>, key: string): Option<Option<nat>> {
    if Get(f, key) == Some(Null) then Some(None)
    else
      var n := NatAt(f, key);
      if n.None? then None else Some(n)
  }

  /** `taskFromRow` */
  function ReadTask(v: Json): Option<Task> {
    if !v.Obj? || |v.fields| != 9 then None
    else
      var f := v.fields;
      var id, name, command, status, output :=
        TextAt(f, "id"), OptTextAt(f, "name"), TextAt(f, "command"), TextAt(f, "status"), TextAt(f, "outputPath");
      var agent, notify, trigger, timeout :=
        OptFlagAt(f, "isAgent"), OptFlagAt(f, "notifyOnCompletion"), OptFlagAt(f, "triggerOnCompletion"),
        OptNatAt(f, "timeoutSeconds");
      if id.Some? && name.Some? && command.Some? && status.Some? && output.Some?
         && agent.Some? && notify.Some? && trigger.Some? && timeout.Some?
      then
        Some(Task(id.value, name.value, command.value, status.value, output.value,
                  agent.value, notify.value, trigger.value, timeout.value, ""))
      else None
  }

  function ReadCancellationFields(f: seq<Field>): Option<Cancellation> {
    var task, action, assignment, reporter :=
      TextAt(f, "task_id"), TextAt(f, "action_id"), TextAt(f, "assignment_id"), FlagAt(f, "reporter");
    if task.Some? && action.Some? && assignment.Some? && reporter.Some?
    then Some(Cancellation(task.value, action.value, assignment.value, reporter.value)) else None
  }

  function ReadCancellations(items: seq<Json>): Option<seq<Cancellation>> {
    if items == [] then Some([])
    else
      var first := if items[0].Obj? && |items[0].fields| == 4 then ReadCancellationFields(items[0].fields) else None;
      var more := ReadCancellations(items[1..]);
      if first.Some? && more.Some? then Some([first.value] + more.value) else None
  }

  /** `gateFromRow` */
  function ReadGate(v: Json): Option<Gate> {
    if !v.Obj? || |v.fields| != 4 then None
    else
      var f := v.fields;
      var latch, run, list := TextAt(f, "latch_id"), TextAt(f, "run_id"), Get(f, "cancellations");
      if TextAt(f, "schema") != Some(GATE_SCHEMA) || latch.None? || run.None? || list.None? || !list.value.Arr? then None
      else
        var cs := ReadCancellations(list.value.items);
        if cs.None? || cs.value == [] then None else Some(Gate(latch.value, run.value, cs.value))
  }

  /** `observationFromRow` */
  function ReadObservation(v: Json): Option<Observation> {
    if !v.Obj? || |v.fields| != 7 then None
    else
      var f := v.fields;
      var token, run, assignment, attempt, receipt, call :=
        TextAt(f, "token"), TextAt(f, "run_id"), TextAt(f, "assignment_id"), NatAt(f, "attempt"),
        TextAt(f, "receipt_id"), TextAt(f, "tool_call_id");
      if TextAt(f, "schema") == Some(OBSERVATION_SCHEMA) && token.Some? && run.Some? && assignment.Some?
         && attempt.Some? && receipt.Some? && call.Some?
      then Some(Observation(token.value, run.value, assignment.value, attempt.value, receipt.value, call.value))
      else None
  }

  function ReadCorrelation(f: seq<Field>): Option<Correlation> {
    var task, action, assignment, revision :=
      TextAt(f, "task_id"), TextAt(f, "action_id"), TextAt(f, "assignment_id"), NatAt(f, "run_revision");
    if task.Some? && action.Some? && assignment.Some? && revision.Some?
    then Some(Correlation(task.value, action.value, assignment.value, revision.value)) else None
  }

  /** `actionFromDescriptor`: the descriptor is the exact text of a valid action. */
  function ActionFrom(read: Json -> Option<Action>, descriptor: string): Option<Action> {
    var parsed := Parse(descriptor);
    if parsed.None? || Text(parsed.value) != descriptor || read(parsed.value).None? then None
    else Some(read(parsed.value).value.(descriptor := descriptor))
  }

  function ReadLaunch(hash: string -> string, read: Json -> Option<Action>, f: seq<Field>): Option<Row> {
    var task := if Get(f, "task").Some? then ReadTask(Get(f, "task").value) else None;
    var stored, descriptor := Get(f, "action"), TextAt(f, "action_descriptor");
    var action := if descriptor.Some? then ActionFrom(read, descriptor.value) else None;
    var actionId, assignmentId, revision, acknowledged :=
      TextAt(f, "action_id"), TextAt(f, "assignment_id"), NatAt(f, "run_revision"), FlagAt(f, "acknowledged");
    if task.Some? && stored.Some? && read(stored.value).Some? && action.Some? && actionId.Some? && assignmentId.Some?
       && revision.Some? && acknowledged.Some?
       && Canonical(stored.value) == Canonical(Parse(descriptor.value).value)
       && TextAt(f, "action_sha256") == Some(hash(descriptor.value))
    then Some(Launch(task.value, action.value, actionId.value, assignmentId.value, revision.value, acknowledged.value))
    else None
  }

  function ReadTombstone(f: seq<Field>): Option<Row> {
    var c, status := ReadCorrelation(f), TextAt(f, "status");
    var task := if Get(f, "task").Some? then ReadTask(Get(f, "task").value) else None;
    if c.Some? && status.Some? && task.Some? then Some(TerminalTombstone(c.value, task.value, status.value)) else None
  }

  function ReadGateRow(f: seq<Field>): Option<Row> {
    var receipt := TextAt(f, "receipt_id");
    var gate := if Get(f, "gate").Some? then ReadGate(Get(f, "gate").value) else None;
    if receipt.Some? && gate.Some? then Some(BlockedGate(receipt.value, gate.value)) else None
  }

  function ReadArrived(f: seq<Field>): Option<Row> {
    var receipt, latch := TextAt(f, "receipt_id"), TextAt(f, "latch_id");
    var o := if Get(f, "observation").Some? then ReadObservation(Get(f, "observation").value) else None;
    if receipt.Some? && latch.Some? && o.Some? then Some(ObservationArrived(receipt.value, latch.value, o.value)) else None
  }

  function ReadObserved(f: seq<Field>): Option<Row> {
    var receipt, latch := TextAt(f, "receipt_id"), TextAt(f, "latch_id");
    if receipt.Some? && latch.Some? then Some(ObservationObserved(receipt.value, latch.value)) else None
  }

  function ReadCancelled(f: seq<Field>): Option<Row> {
    var receipt, latch, c := TextAt(f, "receipt_id"), TextAt(f, "latch_id"), ReadCancellationFields(f);
    if receipt.Some? && latch.Some? && c.Some? then Some(BlockedCancelled(receipt.value, latch.value, c.value)) else None
  }

  function ReadAck(f: seq<Field>): Option<Row> {
    var c := ReadCorrelation(f);
    if c.Some? then Some(LaunchAck(c.value)) else None
  }

  function ReadForwarded(f: seq<Field>): Option<Row> {
    var c := ReadCorrelation(f);
    if c.Some? then Some(TerminalForwarded(c.value)) else None
  }

  /** The closed member list of each row kind. */
  function KeysOf(kind: RowKind): seq<string> {
    match kind
    case LaunchKind =>
      ["schema", "version", "sequence", "previous_sha256", "kind", "task", "action", "action_descriptor",
       "action_sha256", "action_id", "assignment_id", "run_revision", "acknowledged", "row_sha256"]
    case AckKind =>
      ["schema", "version", "sequence", "previous_sha256", "kind", "task_id", "action_id", "assignment_id",
       "run_revision", "row_sha256"]
    case TombstoneKind =>
      ["schema", "version", "sequence", "previous_sha256", "kind", "task_id", "action_id", "assignment_id",
       "run_revision", "task", "status", "row_sha256"]
    case ForwardedKind =>
      ["schema", "version", "sequence", "previous_sha256", "kind", "task_id", "action_id", "assignment_id",
       "run_revision", "row_sha256"]
    case GateKind => ["schema", "version", "sequence", "previous_sha256", "kind", "receipt_id", "gate", "row_sha256"]
    case ArrivedKind =>
      ["schema", "version", "sequence", "previous_sha256", "kind", "receipt_id", "latch_id", "observation", "row_sha256"]
    case ObservedKind =>
      ["schema", "version", "sequence", "previous_sha256", "kind", "receipt_id", "latch_id", "row_sha256"]
    case CancelledKind =>
      ["schema", "version", "sequence", "previous_sha256", "kind", "receipt_id", "latch_id", "task_id", "action_id",
       "assignment_id", "reporter", "row_sha256"]
  }

  /** `assertExactKeys`, for members with distinct keys. */
  predicate HasKeys(f: seq<Field>, keys: seq<string>) {
    |f| == |keys| && forall i :: 0 <= i < |keys| ==> Get(f, keys[i]).Some?
  }

  function ReadMembers(hash: string -> string, read: Json -> Option<Action>, kind: RowKind, f: seq<Field>): Option<Row> {
    match kind
    case LaunchKind => ReadLaunch(hash, read, f)
    case AckKind => ReadAck(f)
    case TombstoneKind => ReadTombstone(f)
    case ForwardedKind => ReadForwarded(f)
    case GateKind => ReadGateRow(f)
    case ArrivedKind => ReadArrived(f)
    case ObservedKind => ReadObserved(f)
    case CancelledKind => ReadCancelled(f)
  }

  function KindAt(f: seq<Field>): Option<RowKind> {
    var text := TextAt(f, "kind");
    if text.None? then None else KindNamed(text.value)
  }

  /** The typed row of a JSON row; None where reading a member throws. */
  function ReadRowOf(hash: string -> string, read: Json -> Option<Action>, v: Json): Option<Row> {
    if !v.Obj? || KindAt(v.fields).None? || !HasKeys(v.fields, KeysOf(KindAt(v.fields).value)) then None
    else ReadMembers(hash, read, KindAt(v.fields).value, v.fields)
  }

  // ---------------------------------------------------------------- member order does not matter

  lemma {:induction false} SortedLength(fields: seq<Field>)
    ensures |SortedFields(fields)| == |fields|
  {
    if fields != [] {
      SortedLength(fields[1..]);
      InsertLength(Field(fields[0].key, Sorted(fields[0].value)), SortedFields(fields[1..]));
    }
  }

  lemma InsertLength(f: Field, fields: seq<Field>)
    ensures |Insert(f, fields)| == |fields| + 1
  {
  }

  lemma SortedMember(f: seq<Field>, key: string)
    ensures TextAt(SortedFields(f), key) == TextAt(f, key)
    ensures NatAt(SortedFields(f), key) == NatAt(f, key)
    ensures FlagAt(SortedFields(f), key) == FlagAt(f, key)
    ensures Get(SortedFields(f), key) == Some(Null) <==> Get(f, key) == Some(Null)
    ensures Get(SortedFields(f), key).Some? <==> Get(f, key).Some?
    ensures Get(f, key).Some? ==> Get(SortedFields(f), key).value == Sorted(Get(f, key).value)
  {
    GetSorted(f, key);
  }

  lemma ReadTaskSorted(v: Json)
    ensures ReadTask(Sorted(v)) == ReadTask(v)
  {
    if v.Obj? {
      var f := v.fields;
      SortedLength(f);
      SortedMember(f, "id");
      SortedMember(f, "name");
      SortedMember(f, "command");
      SortedMember(f, "status");
      SortedMember(f, "outputPath");
      SortedMember(f, "isAgent");
      SortedMember(f, "notifyOnCompletion");
      SortedMember(f, "triggerOnCompletion");
      SortedMember(f, "timeoutSeconds");
    }
  }

  lemma CancellationFieldsSorted(f: seq<Field>)
    ensures ReadCancellationFields(SortedFields(f)) == ReadCancellationFields(f)
  {
    SortedMember(f, "task_id");
    SortedMember(f, "action_id");
    SortedMember(f, "assignment_id");
    SortedMember(f, "reporter");
  }

  lemma {:induction false} CancellationsSorted(items: seq<Json>)
    ensures ReadCancellations(SortedItems(items)) == ReadCancellations(items)
  {
    if items != [] {
      CancellationsSorted(items[1..]);
      assert SortedItems(items)[1..] == SortedItems(items[1..]);
      if items[0].Obj? {
        SortedLength(items[0].fields);
        CancellationFieldsSorted(items[0].fields);
      }
    }
  }

  lemma ReadGateSorted(v: Json)
    ensures ReadGate(Sorted(v)) == ReadGate(v)
  {
    if v.Obj? {
      var f := v.fields;
      SortedLength(f);
      SortedMember(f, "schema");
      SortedMember(f, "latch_id");
      SortedMember(f, "run_id");
      SortedMember(f, "cancellations");
      if Get(f, "cancellations").Some? && Get(f, "cancellations").value.Arr? {
        CancellationsSorted(Get(f, "cancellations").value.items);
      }
    }
  }

  lemma ReadObservationSorted(v: Json)
    ensures ReadObservation(Sorted(v)) == ReadObservation(v)
  {
    if v.Obj? {
      var f := v.fields;
      SortedLength(f);
      SortedMember(f, "schema");
      SortedMember(f, "token");
      SortedMember(f, "run_id");
      SortedMember(f, "assignment_id");
      SortedMember(f, "attempt");
      SortedMember(f, "receipt_id");
      SortedMember(f, "tool_call_id");
    }
  }

  lemma ReadCorrelationSorted(f: seq<Field>)
    ensures ReadCorrelation(SortedFields(f)) == ReadCorrelation(f)
  {
    SortedMember(f, "task_id");
    SortedMember(f, "action_id");
    SortedMember(f, "assignment_id");
    SortedMember(f, "run_revision");
  }

  /** Validating an action does not depend on the order of its members. */
  ghost predicate ReadBlind(read: Json -> Option<Action>) {
    forall v :: read(Sorted(v)).Some? <==> read(v).Some?
  }

  lemma ReadLaunchSorted(hash: string -> string, read: Json -> Option<Action>, f: seq<Field>)
    requires ReadBlind(read)
    ensures ReadLaunch(hash, read, SortedFields(f)) == ReadLaunch(hash, read, f)
  {
    SortedMember(f, "task");
    SortedMember(f, "action");
    SortedMember(f, "action_descriptor");
    SortedMember(f, "action_sha256");
    SortedMember(f, "action_id");
    SortedMember(f, "assignment_id");
    SortedMember(f, "run_revision");
    SortedMember(f, "acknowledged");
    if Get(f, "task").Some? {
      ReadTaskSorted(Get(f, "task").value);
    }
    if Get(f, "action").Some? {
      SortedIdempotent(Get(f, "action").value);
    }
  }

  lemma ReadTombstoneSorted(f: seq<Field>)
    ensures ReadTombstone(SortedFields(f)) == ReadTombstone(f)
  {
    ReadCorrelationSorted(f);
    SortedMember(f, "status");
    SortedMember(f, "task");
    if Get(f, "task").Some? {
      ReadTaskSorted(Get(f, "task").value);
    }
  }

  lemma ReadBlockedSorted(f: seq<Field>)
    ensures ReadGateRow(SortedFields(f)) == ReadGateRow(f) && ReadArrived(SortedFields(f)) == ReadArrived(f)
    ensures ReadObserved(SortedFields(f)) == ReadObserved(f) && ReadCancelled(SortedFields(f)) == ReadCancelled(f)
  {
    SortedMember(f, "receipt_id");
    SortedMember(f, "latch_id");
    SortedMember(f, "gate");
    SortedMember(f, "observation");
    CancellationFieldsSorted(f);
    if Get(f, "gate").Some? {
      ReadGateSorted(Get(f, "gate").value);
    }
    if Get(f, "observation").Some? {
      ReadObservationSorted(Get(f, "observation").value);
    }
  }

  lemma ReadMembersSorted(hash: string -> string, read: Json -> Option<Action>, kind: RowKind, f: seq<Field>)
    requires ReadBlind(read)
    ensures ReadMembers(hash, read, kind, SortedFields(f)) == ReadMembers(hash, read, kind, f)
  {
    match kind
    case LaunchKind => ReadLaunchSorted(hash, read, f);
    case AckKind => ReadCorrelationSorted(f);
    case TombstoneKind => ReadTombstoneSorted(f);
    case ForwardedKind => ReadCorrelationSorted(f);
    case GateKind => ReadBlockedSorted(f);
    case ArrivedKind => ReadBlockedSorted(f);
    case ObservedKind => ReadBlockedSorted(f);
    case CancelledKind => ReadBlockedSorted(f);
  }

  lemma HasKeysSorted(f: seq<Field>, keys: seq<string>)
    ensures HasKeys(SortedFields(f), keys) <==> HasKeys(f, keys)
  {
    SortedLength(f);
    forall i | 0 <= i < |keys| ensures Get(SortedFields(f), keys[i]).Some? <==> Get(f, keys[i]).Some? {
      SortedMember(f, keys[i]);
    }
  }

  /** Reading a row does not depend on the order of its members. */
  lemma ReadRowSorted(hash: string -> string, read: Json -> Option<Action>, v: Json)
    requires ReadBlind(read)
    ensures ReadRowOf(hash, read, Sorted(v)) == ReadRowOf(hash, read, v)
  {
    if v.Obj? {
      SortedMember(v.fields, "kind");
      if KindAt(v.fields).Some? {
        HasKeysSorted(v.fields, KeysOf(KindAt(v.fields).value));
        ReadMembersSorted(hash, read, KindAt(v.fields).value, v.fields);
      }
    }
  }

  // ---------------------------------------------------------------- reading back what was written

  lemma MemberAt(f: seq<Field>, i: nat, key: string, v: Json)
    requires DistinctKeys(f) && i < |f| && f[i] == Field(key, v)
    ensures Get(f, key) == Some(v)
  {
    GetAtIndex(f, i);
  }

  lemma TaskKeys(t: Task)
    ensures DistinctKeys(TaskFields(t))
  {
  }

  lemma TaskTexts(t: Task, f: seq<Field>)
    requires f == TaskFields(t) && DistinctKeys(f)
    ensures TextAt(f, "id") == Some(t.id) && OptTextAt(f, "name") == Some(t.name)
    ensures TextAt(f, "command") == Some(t.command) && TextAt(f, "status") == Some(t.status)
    ensures TextAt(f, "outputPath") == Some(t.outputPath)
  {
    MemberAt(f, 0, "id", Str(t.id));
    MemberAt(f, 1, "name", OptText(t.name));
    MemberAt(f, 2, "command", Str(t.command));
    MemberAt(f, 3, "status", Str(t.status));
    MemberAt(f, 4, "outputPath", Str(t.outputPath));
  }

  lemma TaskFlags(t: Task, f: seq<Field>)
    requires f == TaskFields(t) && DistinctKeys(f)
    ensures OptFlagAt(f, "isAgent") == Some(t.isAgent)
    ensures OptFlagAt(f, "notifyOnCompletion") == Some(t.notifyOnCompletion)
    ensures OptFlagAt(f, "triggerOnCompletion") == Some(t.triggerOnCompletion)
    ensures OptNatAt(f, "timeoutSeconds") == Some(t.timeoutSeconds)
  {
    MemberAt(f, 5, "isAgent", OptFlag(t.isAgent));
    MemberAt(f, 6, "notifyOnCompletion", OptFlag(t.notifyOnCompletion));
    MemberAt(f, 7, "triggerOnCompletion", OptFlag(t.triggerOnCompletion));
    MemberAt(f, 8, "timeoutSeconds", OptNat(t.timeoutSeconds));
  }

  lemma ReadTaskBack(t: Task)
    requires t.extra == ""
    ensures ReadTask(Obj(TaskFields(t))) == Some(t)
  {
    TaskKeys(t);
    TaskTexts(t, TaskFields(t));
    TaskFlags(t, TaskFields(t));
  }

  lemma CancellationKeys(c: Cancellation)
    ensures DistinctKeys(CancellationFields(c))
  {
  }

  lemma ReadCancellationBack(c: Cancellation)
    ensures ReadCancellationFields(CancellationFields(c)) == Some(c)
  {
    var f := CancellationFields(c);
    CancellationKeys(c);
    MemberAt(f, 0, "task_id", Str(c.taskId));
    MemberAt(f, 1, "action_id", Str(c.actionId));
    MemberAt(f, 2, "assignment_id", Str(c.assignmentId));
    MemberAt(f, 3, "reporter", Bool(c.reporter));
  }

  lemma {:induction false} ReadCancellationsBack(cs: seq<Cancellation>)
    ensures ReadCancellations(CancellationItems(cs)) == Some(cs)
  {
    if cs != [] {
      ReadCancellationBack(cs[0]);
      ReadCancellationsBack(cs[1..]);
      var items := CancellationItems(cs);
      assert items[0] == Obj(CancellationFields(cs[0])) && items[1..] == CancellationItems(cs[1..]);
      assert [cs[0]] + cs[1..] == cs;
    }
  }

  lemma GateKeys(g: Gate)
    ensures DistinctKeys(GateFields(g))
  {
  }

  lemma ReadGateBack(g: Gate)
    requires g.cancellations != []
    ensures ReadGate(Obj(GateFields(g))) == Some(g)
  {
    var f := GateFields(g);
    GateKeys(g);
    MemberAt(f, 0, "schema", Str(GATE_SCHEMA));
    MemberAt(f, 1, "latch_id", Str(g.latchId));
    MemberAt(f, 2, "run_id", Str(g.runId));
    MemberAt(f, 3, "cancellations", Arr(CancellationItems(g.cancellations)));
    ReadCancellationsBack(g.cancellations);
  }

  lemma ObservationKeys(o: Observation)
    ensures DistinctKeys(ObservationFields(o))
  {
  }

  lemma ReadObservationBack(o: Observation)
    ensures ReadObservation(Obj(ObservationFields(o))) == Some(o)
  {
    var f := ObservationFields(o);
    ObservationKeys(o);
    MemberAt(f, 0, "schema", Str(OBSERVATION_SCHEMA));
    MemberAt(f, 1, "token", Str(o.token));
    MemberAt(f, 2, "run_id", Str(o.runId));
    MemberAt(f, 3, "assignment_id", Str(o.assignmentId));
    MemberAt(f, 4, "attempt", Num(o.attempt));
    MemberAt(f, 5, "receipt_id", Str(o.receiptId));
    MemberAt(f, 6, "tool_call_id", Str(o.toolCallId));
  }
}

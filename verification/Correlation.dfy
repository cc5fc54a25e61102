/**
 * Placeholder correlation (src/generated/child-control-bridge.ts): a prepared
 * call waits under a nonce written into a placeholder, and consuming the
 * placeholder hands the call out once.
 */
module Correlation {
  import opened Wrappers
  import opened Json
  import opened Pointer
  import opened Placeholder

  datatype Metadata = Metadata(profileId: string, placeholder: Json, pointer: string)

  datatype PendingCall = PendingCall(metadata: Metadata, rawPayload: Json)

  /** An argument object: which object it is, and what it holds when presented. */
  datatype Argument = Argument(identity: nat, value: Json)

  /** The three collections of a correlation state. */
  datatype Memory = Memory(
    pending: map<string, PendingCall>,
    consumedNonceByHolder: map<nat, string>,
    usedToolCallIds: set<string>)

  const NOTHING := Memory(map[], map[], {})

  datatype Outcome = Done(call: PendingCall) | Tamper | ConsumedNonce | UnknownNonce | DuplicateToolCall

  // ---------------------------------------------------------------- the marker

  predicate IsNonce(s: string) {
    |s| == 64 && forall i :: 0 <= i < |s| ==> '0' <= s[i] <= '9' || 'a' <= s[i] <= 'f'
  }

  predicate IsMarker(s: Option<string>) {
    s.Some? && SENTINEL <= s.value
  }

  /** `findPlaceholderMarker`: a string itself, or the first marker inside. */
  function FindMarker(v: Json): Option<string>
    decreases v, 0
  {
    match v
    case Str(s) => Some(s)
    case Arr(items) => FindInItems(items)
    case Obj(fields) => FindInFields(fields)
    case _ => None
  }

  function FindInItems(items: seq<Json>): Option<string>
    decreases items, 0
  {
    if items == [] then None
    else
      var found := FindMarker(items[0]);
      if IsMarker(found) then found else FindInItems(items[1..])
  }

  function FindInFields(fields: seq<Field>): Option<string>
    decreases fields, 0
  {
    if fields == [] then None
    else
      var found := FindMarker(fields[0].value);
      if IsMarker(found) then found else FindInFields(fields[1..])
  }

  /** `placeholderNonce` */
  function NonceIn(v: Json): Option<string> {
    var marker := FindMarker(v);
    if IsMarker(marker) then Some(marker.value[|SENTINEL|..]) else None
  }

  /** `sameJsonShape`: equal up to the order of members. */
  predicate SameShape(left: Json, right: Json)
    decreases left
  {
    match (left, right)
    case (Arr(a), Arr(b)) => |a| == |b| && forall i :: 0 <= i < |a| ==> SameShape(a[i], b[i])
    case (Obj(f), Obj(g)) =>
      |f| == |g|
      && forall i :: 0 <= i < |f| ==> Get(g, f[i].key).Some? && SameShape(f[i].value, Get(g, f[i].key).value)
    case _ => left == right
  }

  // ---------------------------------------------------------------- prepare and consume

  function FindMetadata(table: seq<Metadata>, profileId: string): Option<Metadata> {
    if table == [] then None
    else if table[0].profileId == profileId then Some(table[0])
    else FindMetadata(table[1..], profileId)
  }

  /** The placeholder that carries a nonce. */
  function Expected(metadata: Metadata, nonce: string): Option<Json> {
    SetMarker(metadata.placeholder, metadata.pointer, SENTINEL + nonce)
  }

  function PreparedPlaceholder(table: seq<Metadata>, profileId: string, nonce: string): Option<Json> {
    var metadata := FindMetadata(table, profileId);
    if metadata.None? then None else Expected(metadata.value, nonce)
  }

  function Prepared(m: Memory, table: seq<Metadata>, profileId: string, rawPayload: Json, nonce: string): Memory {
    if PreparedPlaceholder(table, profileId, nonce).None? then m
    else m.(pending := m.pending[nonce := PendingCall(FindMetadata(table, profileId).value, rawPayload)])
  }

  function Judge(m: Memory, toolCallId: string, arg: Argument): Outcome {
    if !arg.value.Obj? then Tamper
    else
      var nonce := NonceIn(arg.value);
      if nonce.None? || !IsNonce(nonce.value) then Tamper
      else if arg.identity in m.consumedNonceByHolder then
        if m.consumedNonceByHolder[arg.identity] != nonce.value then Tamper else ConsumedNonce
      else if nonce.value !in m.pending then UnknownNonce
      else
        var call := m.pending[nonce.value];
        var expected := Expected(call.metadata, nonce.value);
        if expected.None? || !SameShape(arg.value, expected.value) then Tamper
        else if toolCallId in m.usedToolCallIds then DuplicateToolCall
        else Done(call)
  }

  function Consumed(m: Memory, toolCallId: string, arg: Argument): Memory {
    if !Judge(m, toolCallId, arg).Done? then m
    else
      var nonce := NonceIn(arg.value).value;
      Memory(m.pending - {nonce}, m.consumedNonceByHolder[arg.identity := nonce], m.usedToolCallIds + {toolCallId})
  }

  class CorrelationState {
    var pending: map<string, PendingCall>
    var consumedNonceByHolder: map<nat, string>
    var usedToolCallIds: set<string>

    function State(): Memory
      reads this
    {
      Memory(pending, consumedNonceByHolder, usedToolCallIds)
    }

    constructor ()
      ensures State() == NOTHING
    {
      pending := map[];
      consumedNonceByHolder := map[];
      usedToolCallIds := {};
    }

    /** `prepareCorrelatedPlaceholder`; the nonce comes from the random source. */
    method Prepare(table: seq<Metadata>, profileId: string, rawPayload: Json, nonce: string) returns (placeholder: Option<Json>)
      modifies this
      ensures placeholder == PreparedPlaceholder(table, profileId, nonce)
      ensures State() == Prepared(old(State()), table, profileId, rawPayload, nonce)
    {
      var metadata := FindMetadata(table, profileId);
      if metadata.None? {
        return None;
      }
      placeholder := Expected(metadata.value, nonce);
      if placeholder.None? {
        return;
      }
      pending := pending[nonce := PendingCall(metadata.value, rawPayload)];
    }

    /** `consumeCorrelatedPlaceholder` */
    method Consume(toolCallId: string, arg: Argument) returns (outcome: Outcome)
      modifies this
      ensures outcome == Judge(old(State()), toolCallId, arg)
      ensures State() == Consumed(old(State()), toolCallId, arg)
    {
      if !arg.value.Obj? {
        return Tamper;
      }
      var nonce := NonceIn(arg.value);
      if nonce.None? || !IsNonce(nonce.value) {
        return Tamper;
      }
      if arg.identity in consumedNonceByHolder {
        return if consumedNonceByHolder[arg.identity] != nonce.value then Tamper else ConsumedNonce;
      }
      if nonce.value !in pending {
        return UnknownNonce;
      }
      var call := pending[nonce.value];
      var expected := Expected(call.metadata, nonce.value);
      if expected.None? || !SameShape(arg.value, expected.value) {
        return Tamper;
      }
      if toolCallId in usedToolCallIds {
        return DuplicateToolCall;
      }
      pending := pending - {nonce.value};
      consumedNonceByHolder := consumedNonceByHolder[arg.identity := nonce.value];
      usedToolCallIds := usedToolCallIds + {toolCallId};
      outcome := Done(call);
    }
  }

  // ---------------------------------------------------------------- runs

  datatype Event =
    | PrepareCall(profileId: string, rawPayload: Json, nonce: string)
    | ConsumeCall(toolCallId: string, arg: Argument)

  function Step(table: seq<Metadata>, m: Memory, e: Event): Memory {
    match e
    case PrepareCall(profileId, rawPayload, nonce) => Prepared(m, table, profileId, rawPayload, nonce)
    case ConsumeCall(toolCallId, arg) => Consumed(m, toolCallId, arg)
  }

  function Run(table: seq<Metadata>, events: seq<Event>): Memory {
    if events == [] then NOTHING else Step(table, Run(table, events[..|events| - 1]), events[|events| - 1])
  }

  /** Every preparation drew a nonce of its own. */
  ghost predicate FreshNonces(events: seq<Event>) {
    forall i, j :: 0 <= i < j < |events| && events[i].PrepareCall? && events[j].PrepareCall? ==>
      events[i].nonce != events[j].nonce
  }

  /** Event `i` is a consume that hands a call out. */
  ghost predicate Succeeds(table: seq<Metadata>, events: seq<Event>, i: nat) {
    i < |events| && events[i].ConsumeCall? && Judge(Run(table, events[..i]), events[i].toolCallId, events[i].arg).Done?
  }

  ghost function CallAt(table: seq<Metadata>, events: seq<Event>, i: nat): PendingCall
    requires Succeeds(table, events, i)
  {
    Judge(Run(table, events[..i]), events[i].toolCallId, events[i].arg).call
  }

  /** The preparation `e` put `call` under `nonce`. */
  ghost predicate Prepares(table: seq<Metadata>, e: Event, nonce: string, call: PendingCall) {
    e.PrepareCall? && e.nonce == nonce && e.rawPayload == call.rawPayload
    && FindMetadata(table, e.profileId) == Some(call.metadata)
  }

  lemma RunStep(table: seq<Metadata>, events: seq<Event>, k: nat)
    requires k < |events|
    ensures Run(table, events[..k + 1]) == Step(table, Run(table, events[..k]), events[k])
  {
    assert events[..k + 1][..k] == events[..k];
  }

  /** Whatever is pending was prepared under that nonce. */
  lemma {:induction false} PendingWasPrepared(table: seq<Metadata>, events: seq<Event>, k: nat, nonce: string)
    returns (j: nat)
    requires k <= |events| && nonce in Run(table, events[..k]).pending
    ensures j < k && Prepares(table, events[j], nonce, Run(table, events[..k]).pending[nonce])
  {
    assert events[..0] == [] && k > 0;
    RunStep(table, events, k - 1);
    var before := Run(table, events[..k - 1]);
    var e := events[k - 1];
    if e.PrepareCall? && e.nonce == nonce && PreparedPlaceholder(table, e.profileId, nonce).Some? {
      j := k - 1;
    } else {
      j := PendingWasPrepared(table, events, k - 1, nonce);
    }
  }

  /** A consume that succeeds returns the payload and profile prepared under its nonce. */
  lemma ConsumeReturnsPrepared(table: seq<Metadata>, events: seq<Event>, i: nat) returns (j: nat)
    requires Succeeds(table, events, i)
    ensures j < i && NonceIn(events[i].arg.value).Some?
    ensures Prepares(table, events[j], NonceIn(events[i].arg.value).value, CallAt(table, events, i))
  {
    j := PendingWasPrepared(table, events, i, NonceIn(events[i].arg.value).value);
  }

  /** After a success its nonce is gone and its tool-call id is used, for good. */
  lemma {:induction false} SpentForGood(table: seq<Metadata>, events: seq<Event>, i: nat, k: nat)
    requires FreshNonces(events) && Succeeds(table, events, i) && i < k <= |events|
    ensures NonceIn(events[i].arg.value).value !in Run(table, events[..k]).pending
    ensures events[i].toolCallId in Run(table, events[..k]).usedToolCallIds
  {
    var nonce := NonceIn(events[i].arg.value).value;
    RunStep(table, events, k - 1);
    if k - 1 > i {
      SpentForGood(table, events, i, k - 1);
      var j := ConsumeReturnsPrepared(table, events, i);
    }
  }

  /** No nonce and no tool-call id succeeds twice. */
  lemma ExactlyOnce(table: seq<Metadata>, events: seq<Event>, i: nat, j: nat)
    requires FreshNonces(events) && i < j && Succeeds(table, events, i) && Succeeds(table, events, j)
    ensures NonceIn(events[i].arg.value) != NonceIn(events[j].arg.value)
    ensures events[i].toolCallId != events[j].toolCallId
  {
    SpentForGood(table, events, i, j);
  }

  /** A consume that fails changes nothing. */
  lemma FailureChangesNothing(table: seq<Metadata>, events: seq<Event>, i: nat)
    requires i < |events| && events[i].ConsumeCall? && !Succeeds(table, events, i)
    ensures Run(table, events[..i + 1]) == Run(table, events[..i])
  {
    RunStep(table, events, i);
  }

  /** A prepared call keeps waiting until it is handed out. */
  lemma {:induction false} WaitsUntilConsumed(table: seq<Metadata>, events: seq<Event>, i: nat, k: nat, call: PendingCall)
    requires FreshNonces(events) && i < k <= |events|
    requires events[i].PrepareCall? && Prepares(table, events[i], events[i].nonce, call)
    requires PreparedPlaceholder(table, events[i].profileId, events[i].nonce).Some?
    requires forall j :: i < j < k && Succeeds(table, events, j) ==> NonceIn(events[j].arg.value) != Some(events[i].nonce)
    ensures events[i].nonce in Run(table, events[..k]).pending
    ensures Run(table, events[..k]).pending[events[i].nonce] == call
  {
    RunStep(table, events, k - 1);
    if k - 1 > i {
      WaitsUntilConsumed(table, events, i, k - 1, call);
      assert Succeeds(table, events, k - 1) ==> NonceIn(events[k - 1].arg.value) != Some(events[i].nonce);
    }
  }
}

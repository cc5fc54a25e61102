/**
 * Preparing and consuming meet: the placeholder handed out, presented unchanged,
 * is accepted for as long as its call waits; and placeholders generated from
 * contract items have the shape this needs.
 */
module CorrelationLaws {
  import opened Wrappers
  import opened Json
  import opened JsonLaws
  import opened Pointer
  import opened Contracts
  import opened Placeholder
  import opened RepeatedNames
  import opened Correlation

  /** No string in the value looks like a marker. */
  predicate NoSentinel(v: Json)
    decreases v
  {
    match v
    case Str(s) => !(SENTINEL <= s)
    case Arr(items) => forall i :: 0 <= i < |items| ==> NoSentinel(items[i])
    case Obj(fields) => forall i :: 0 <= i < |fields| ==> NoSentinel(fields[i].value)
    case _ => true
  }

  // ---------------------------------------------------------------- finding the marker

  lemma {:induction false} CleanHasNoMarker(v: Json)
    requires NoSentinel(v)
    ensures !IsMarker(FindMarker(v))
    decreases v, 0
  {
    match v
    case Arr(items) => CleanItemsHaveNone(items);
    case Obj(fields) => CleanFieldsHaveNone(fields);
    case _ =>
  }

  lemma {:induction false} CleanItemsHaveNone(items: seq<Json>)
    requires forall i :: 0 <= i < |items| ==> NoSentinel(items[i])
    ensures FindInItems(items).None?
    decreases items, 0
  {
    if items != [] {
      CleanHasNoMarker(items[0]);
      CleanItemsHaveNone(items[1..]);
    }
  }

  lemma {:induction false} CleanFieldsHaveNone(fields: seq<Field>)
    requires forall i :: 0 <= i < |fields| ==> NoSentinel(fields[i].value)
    ensures FindInFields(fields).None?
    decreases fields, 0
  {
    if fields != [] {
      CleanHasNoMarker(fields[0].value);
      CleanFieldsHaveNone(fields[1..]);
    }
  }

  lemma {:induction false} FindPut(fields: seq<Field>, key: string, v: Json)
    requires forall i :: 0 <= i < |fields| ==> NoSentinel(fields[i].value)
    requires Get(fields, key).Some? && IsMarker(FindMarker(v))
    ensures FindInFields(Put(fields, key, v)) == FindMarker(v)
    decreases |fields|
  {
    if fields[0].key != key {
      CleanHasNoMarker(fields[0].value);
      FindPut(fields[1..], key, v);
      assert ([fields[0]] + Put(fields[1..], key, v))[1..] == Put(fields[1..], key, v);
    }
  }

  lemma {:induction false} FindUpdated(items: seq<Json>, k: nat, v: Json)
    requires k < |items| && (forall i :: 0 <= i < |items| ==> NoSentinel(items[i])) && IsMarker(FindMarker(v))
    ensures FindInItems(items[k := v]) == FindMarker(v)
    decreases |items|
  {
    if k > 0 {
      CleanHasNoMarker(items[0]);
      FindUpdated(items[1..], k - 1, v);
      assert items[k := v][1..] == items[1..][k - 1 := v];
    }
  }

  lemma {:induction false} GetIsMember(fields: seq<Field>, key: string)
    requires Get(fields, key).Some?
    ensures exists i :: 0 <= i < |fields| && fields[i] == Field(key, Get(fields, key).value)
  {
    if fields[0].key != key {
      GetIsMember(fields[1..], key);
      var i :| 0 <= i < |fields[1..]| && fields[1..][i] == Field(key, Get(fields[1..], key).value);
      assert fields[i + 1] == Field(key, Get(fields, key).value);
    } else {
      assert fields[0] == Field(key, Get(fields, key).value);
    }
  }

  /** In a clean template the marker written at the slot is the one that is found. */
  lemma {:induction false} WrittenMarkerIsFound(v: Json, path: seq<string>, marker: string)
    requires NoSentinel(v) && SetAt(v, path, marker).Some? && SENTINEL <= marker
    ensures FindMarker(SetAt(v, path, marker).value) == Some(marker)
    decreases |path|
  {
    if path != [] {
      var child := Child(v, path[0]).value;
      var below := SetAt(child, path[1..], marker).value;
      if v.Obj? {
        GetIsMember(v.fields, path[0]);
        WrittenMarkerIsFound(child, path[1..], marker);
        FindPut(v.fields, path[0], below);
      } else {
        WrittenMarkerIsFound(child, path[1..], marker);
        FindUpdated(v.items, Offset(path[0]).value, below);
      }
    }
  }

  // ---------------------------------------------------------------- shapes

  lemma {:induction false} SameShapeAsItself(v: Json)
    requires UniqueKeys(v)
    ensures SameShape(v, v)
    decreases v
  {
    match v
    case Arr(items) =>
      forall i | 0 <= i < |items| ensures SameShape(items[i], items[i]) {
        SameShapeAsItself(items[i]);
      }
    case Obj(fields) =>
      forall i | 0 <= i < |fields|
        ensures Get(fields, fields[i].key).Some? && SameShape(fields[i].value, Get(fields, fields[i].key).value)
      {
        GetAtIndex(fields, i);
        SameShapeAsItself(fields[i].value);
      }
    case _ =>
  }

  lemma {:induction false} PutKeys(fields: seq<Field>, key: string, v: Json)
    requires Get(fields, key).Some?
    ensures |Put(fields, key, v)| == |fields|
    ensures forall k :: 0 <= k < |fields| ==> Put(fields, key, v)[k].key == fields[k].key
  {
    if fields[0].key != key {
      PutKeys(fields[1..], key, v);
    }
  }

  lemma {:induction false} PutValues(fields: seq<Field>, key: string, v: Json, i: nat)
    requires Get(fields, key).Some? && i < |fields|
    ensures |Put(fields, key, v)| == |fields|
    ensures Put(fields, key, v)[i].value == fields[i].value || Put(fields, key, v)[i].value == v
  {
    PutKeys(fields, key, v);
    if fields[0].key != key && i > 0 {
      PutValues(fields[1..], key, v, i - 1);
    }
  }

  lemma {:induction false} WritingKeepsKeys(v: Json, path: seq<string>, marker: string)
    requires UniqueKeys(v) && SetAt(v, path, marker).Some?
    ensures UniqueKeys(SetAt(v, path, marker).value)
    decreases |path|
  {
    if path != [] {
      var child := Child(v, path[0]).value;
      var below := SetAt(child, path[1..], marker).value;
      if v.Obj? {
        GetIsMember(v.fields, path[0]);
        WritingKeepsKeys(child, path[1..], marker);
        var after := Put(v.fields, path[0], below);
        PutKeys(v.fields, path[0], below);
        forall i | 0 <= i < |after| ensures UniqueKeys(after[i].value) {
          PutValues(v.fields, path[0], below, i);
        }
      } else {
        WritingKeepsKeys(child, path[1..], marker);
      }
    }
  }

  // ---------------------------------------------------------------- the round trip

  /** A template the bridge can correlate: an object, clean, with distinct keys. */
  predicate Correlatable(metadata: Metadata) {
    metadata.placeholder.Obj? && NoSentinel(metadata.placeholder) && UniqueKeys(metadata.placeholder)
  }

  /** The placeholder carries exactly its nonce. */
  lemma PlaceholderCarriesNonce(metadata: Metadata, nonce: string)
    requires Correlatable(metadata) && Expected(metadata, nonce).Some?
    ensures NonceIn(Expected(metadata, nonce).value) == Some(nonce)
    ensures UniqueKeys(Expected(metadata, nonce).value)
  {
    var path := Segments(metadata.pointer).value;
    WrittenMarkerIsFound(metadata.placeholder, path, SENTINEL + nonce);
    WritingKeepsKeys(metadata.placeholder, path, SENTINEL + nonce);
    assert (SENTINEL + nonce)[|SENTINEL|..] == nonce;
  }

  /**
   * At any point of a run after a preparation whose call was not handed out: its
   * placeholder, in an object and under a tool-call id not used before, is
   * accepted and returns the prepared call.
   */
  lemma PreparedIsConsumable(table: seq<Metadata>, events: seq<Event>, i: nat, call: PendingCall,
                             toolCallId: string, identity: nat)
    requires FreshNonces(events) && i < |events| && events[i].PrepareCall? && IsNonce(events[i].nonce)
    requires Prepares(table, events[i], events[i].nonce, call) && Correlatable(call.metadata)
    requires Expected(call.metadata, events[i].nonce).Some? && Expected(call.metadata, events[i].nonce).value.Obj?
    requires forall j :: i < j < |events| && Succeeds(table, events, j) ==>
               NonceIn(events[j].arg.value) != Some(events[i].nonce)
    requires identity !in Run(table, events).consumedNonceByHolder && toolCallId !in Run(table, events).usedToolCallIds
    ensures Judge(Run(table, events), toolCallId, Argument(identity, Expected(call.metadata, events[i].nonce).value))
            == Done(call)
  {
    assert events[..|events|] == events;
    WaitsUntilConsumed(table, events, i, |events|, call);
    PlaceholderCarriesNonce(call.metadata, events[i].nonce);
    SameShapeAsItself(Expected(call.metadata, events[i].nonce).value);
  }

  // ---------------------------------------------------------------- generated placeholders

  predicate CleanType(typ: Type)
    decreases typ, 0
  {
    match typ
    case EnumType(values) => values != [] ==> !(SENTINEL <= values[0])
    case ShapeType(items) => CleanItems(items)
    case _ => true
  }

  /** No constant and no first enum value looks like a marker. */
  predicate CleanItem(item: Item)
    decreases item, 1
  {
    CleanType(item.typ) && CleanItems(item.items) && (item.constant.Some? ==> !(SENTINEL <= item.constant.value))
  }

  predicate CleanItems(items: seq<Item>)
    decreases items, 0
  {
    forall k :: 0 <= k < |items| ==> CleanItem(items[k])
  }

  predicate Good(v: Json) {
    NoSentinel(v) && UniqueKeys(v)
  }

  lemma {:induction false} GeneratedFieldsAreGood(items: seq<Item>)
    requires CleanItems(items) && ShapedFields(items).Ok?
    ensures DistinctKeys(ShapedFields(items).value.fields)
    ensures forall f :: f in ShapedFields(items).value.fields ==> Good(f.value)
    decreases items, 0
  {
    FieldsDistinct(items);
    if items != [] {
      var before, item := items[..|items| - 1], items[|items| - 1];
      GeneratedFieldsAreGood(before);
      if !item.kind.RecordItem? && item.required {
        GeneratedItemIsGood(item);
        FieldsDistinct(before);
        PutKeepsDistinct(ShapedFields(before).value.fields, item.name, ShapedItem(item).value.value);
      }
    }
  }

  lemma {:induction false} GeneratedTypeIsGood(typ: Type, maxBytes: Option<nat>)
    requires CleanType(typ) && ShapedType(typ, maxBytes).Ok?
    ensures Good(ShapedType(typ, maxBytes).value.value)
    decreases typ, 0
  {
    match typ
    case ShapeType(items) => GeneratedFieldsAreGood(items);
    case TextType => assert SENTINEL[0] == '_';
    case _ =>
  }

  lemma {:induction false} GeneratedItemIsGood(item: Item)
    requires !item.kind.RecordItem? && CleanItem(item) && ShapedItem(item).Ok?
    ensures Good(ShapedItem(item).value.value)
    decreases item, 1
  {
    match item.kind
    case FieldItem =>
      if item.constant.None? {
        GeneratedTypeIsGood(item.typ, item.maxBytes);
      }
    case ListItem => GeneratedTypeIsGood(item.typ, item.itemMaxBytes);
    case GroupItem => GeneratedFieldsAreGood(item.items);
  }

  /**
   * What the generator writes for a contract with a slot is a template the bridge
   * can correlate, names repeated or not, and it can be prepared under every
   * nonce exactly when the marker the generator tries (`tried`) can be written.
   */
  lemma GeneratedIsCorrelatable(items: seq<Item>, profileId: string, nonce: string, tried: string)
    requires CleanItems(items) && HasSlot(items)
    ensures var shaped := ShapedItems(items).value;
            var pointer := PointerText(shaped.path.value);
            var metadata := Metadata(profileId, shaped.value, pointer);
            && Correlatable(metadata)
            && (Expected(metadata, nonce).Some? <==> SetMarker(shaped.value, pointer, tried).Some?)
            && (Expected(metadata, nonce).Some? ==> Expected(metadata, nonce).value.Obj?)
  {
    var shaped := ShapedItems(items).value;
    GeneratedFieldsAreGood(items);
    SlotIsFirst(items);
    SegmentsOfPointer(shaped.path.value);
    SetThenGet(shaped.value, shaped.path.value, SENTINEL + nonce);
    SetThenGet(shaped.value, shaped.path.value, tried);
  }
}

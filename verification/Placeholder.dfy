/**
 * The placeholder generated from contract items (codegen/src/emit.rs), the slot
 * that carries the correlation nonce, and when a placeholder meets the schema
 * generated from the same items.
 */
module Placeholder {
  import opened Wrappers
  import opened Json
  import opened Pointer
  import opened Contracts

  const SENTINEL := "__autopilot_child_control_placeholder__:"

  const MARKER_LENGTH: nat := |SENTINEL| + 64

  predicate CanHoldNonce(maxBytes: Option<nat>) {
    maxBytes.None? || maxBytes.value >= MARKER_LENGTH
  }

  // ---------------------------------------------------------------- the placeholder as a function

  /** A placeholder value and the path of its nonce slot. */
  datatype Shaped = Shaped(value: Json, path: Option<seq<string>>)

  datatype ShapedMembers = ShapedMembers(fields: seq<Field>, path: Option<seq<string>>)

  function ShapedType(typ: Type, maxBytes: Option<nat>): Result<Shaped>
    decreases typ, 0
  {
    match typ
    case EnumType(values) => if values == [] then Err("empty enum") else Ok(Shaped(Str(values[0]), None))
    case ShapeType(items) => ShapedItems(items)
    case BoolType => Ok(Shaped(Bool(false), None))
    case IntType => Ok(Shaped(Num(0), None))
    case ObjectType => Ok(Shaped(Obj([]), None))
    case JsonType => Ok(Shaped(Obj([]), None))
    case TextType => Ok(Shaped(Str("x"), if CanHoldNonce(maxBytes) then Some([]) else None))
  }

  function ShapedItem(item: Item): Result<Shaped>
    requires !item.kind.RecordItem?
    decreases item, 1
  {
    match item.kind
    case FieldItem =>
      if item.constant.Some? then
        var constant := ConstantValue(item.typ, item.constant.value);
        if constant.Err? then Err(constant.error) else Ok(Shaped(constant.value, None))
      else ShapedType(item.typ, item.maxBytes)
    case ListItem =>
      var element := ShapedType(item.typ, item.itemMaxBytes);
      if element.Err? then element
      else
        var path := if element.value.path.None? then None else Some(["0"] + element.value.path.value);
        Ok(Shaped(Arr([element.value.value]), path))
    case GroupItem => ShapedItems(item.items)
  }

  /** Required members in order; the slot is the first one found. */
  function ShapedFields(items: seq<Item>): Result<ShapedMembers>
    decreases items, 0
  {
    if items == [] then Ok(ShapedMembers([], None))
    else
      var item := items[|items| - 1];
      var before := ShapedFields(items[..|items| - 1]);
      if before.Err? || item.kind.RecordItem? || !item.required then before
      else
        var shaped := ShapedItem(item);
        if shaped.Err? then Err(shaped.error)
        else
          var path :=
            if before.value.path.Some? then before.value.path
            else if shaped.value.path.Some? then Some([item.name] + shaped.value.path.value)
            else None;
          Ok(ShapedMembers(Put(before.value.fields, item.name, shaped.value.value), path))
  }

  function ShapedItems(items: seq<Item>): Result<Shaped>
    decreases items, 1
  {
    var members := ShapedFields(items);
    if members.Err? then Err(members.error) else Ok(Shaped(Obj(members.value.fields), members.value.path))
  }

  // ---------------------------------------------------------------- repeated names

  /** The last property of that name, or the last required one. */
  function LastOf(items: seq<Item>, name: string, required: bool): (last: Option<Item>)
    ensures last.Some? ==> !last.value.kind.RecordItem? && last.value.name == name && last.value in items
    ensures last.Some? && required ==> last.value.required
  {
    if items == [] then None
    else
      var item := items[|items| - 1];
      if !item.kind.RecordItem? && item.name == name && (required ==> item.required) then Some(item)
      else LastOf(items[..|items| - 1], name, required)
  }

  /** The first required item with a slot: its path becomes the path of the whole. */
  function FirstSlot(items: seq<Item>): (first: Option<Item>)
    ensures first.Some? ==> !first.value.kind.RecordItem? && first.value.required && first.value in items
    ensures first.Some? ==> ShapedItem(first.value).Ok? && ShapedItem(first.value).value.path.Some?
  {
    if items == [] then None
    else
      var before, item := FirstSlot(items[..|items| - 1]), items[|items| - 1];
      if before.Some? then before
      else if !item.kind.RecordItem? && item.required && ShapedItem(item).Ok? && ShapedItem(item).value.path.Some?
      then Some(item) else None
  }

  predicate HasSlot(items: seq<Item>) {
    ShapedFields(items).Ok? && ShapedFields(items).value.path.Some?
  }

  // ---------------------------------------------------------------- when a placeholder fits its schema

  /** Bounds on a value of the type admit the short value the placeholder uses. */
  ghost predicate TypeFits(typ: Type, low: Option<nat>, high: Option<nat>)
    decreases typ, 0
  {
    match typ
    case EnumType(values) => values != [] && InBounds(|values[0]|, low, high)
    case ShapeType(items) => FitsItems(items)
    case TextType => InBounds(1, low, high)
    case _ => true
  }

  /** A constant is scalar, one of the enum's values, and within the bounds. */
  predicate ConstantFits(typ: Type, text: string, low: Option<nat>, high: Option<nat>) {
    match typ
    case EnumType(values) => text in values && InBounds(|text|, low, high)
    case TextType => InBounds(|text|, low, high)
    case ShapeType(_) => false
    case ObjectType => false
    case _ => true
  }

  /** Constants and length bounds of a nullable item do not bind: they sit beside its `anyOf`. */
  ghost predicate FitsItem(item: Item)
    requires !item.kind.RecordItem?
    decreases item, 1
  {
    var low := if item.nullable then None else item.minBytes;
    var high := if item.nullable then None else item.maxBytes;
    match item.kind
    case FieldItem =>
      if item.constant.Some? then ConstantFits(item.typ, item.constant.value, low, high) else TypeFits(item.typ, low, high)
    case ListItem =>
      && TypeFits(item.typ, None, item.itemMaxBytes)
      && InBounds(1, item.minItems, item.maxItems)
      && (item.nullable || (item.constant.None? && InBounds(1, item.minBytes, item.maxBytes)))
    case GroupItem => item.constant.None? && FitsItems(item.items)
  }

  /** Of each required name, the last required item fits; the placeholder holds no other. */
  ghost predicate FitsItems(items: seq<Item>)
    decreases items, 0
  {
    forall name :: LastOf(items, name, true).Some? ==> FitsItem(LastOf(items, name, true).value)
  }

  /** The same where the slot is, whose text then has the marker's length instead of one. */
  ghost predicate MarkedTypeFits(typ: Type, low: Option<nat>, high: Option<nat>, length: nat)
    decreases typ, 0
  {
    match typ
    case ShapeType(items) => MarkedItemsFit(items, length)
    case TextType => InBounds(length, low, high)
    case _ => TypeFits(typ, low, high)
  }

  ghost predicate MarkedItemFits(item: Item, length: nat)
    requires !item.kind.RecordItem?
    decreases item, 1
  {
    var low := if item.nullable then None else item.minBytes;
    var high := if item.nullable then None else item.maxBytes;
    match item.kind
    case FieldItem => item.constant.None? && MarkedTypeFits(item.typ, low, high, length)
    case ListItem =>
      && MarkedTypeFits(item.typ, None, item.itemMaxBytes, length)
      && InBounds(1, item.minItems, item.maxItems)
      && (item.nullable || (item.constant.None? && InBounds(1, item.minBytes, item.maxBytes)))
    case GroupItem => item.constant.None? && MarkedItemsFit(item.items, length)
  }

  /** The first required item with a slot carries the marker; the other names keep their short values. */
  ghost predicate MarkedItemsFit(items: seq<Item>, length: nat)
    decreases items, 0
  {
    var first := FirstSlot(items);
    && first.Some? && MarkedItemFits(first.value, length)
    && forall name :: name != first.value.name && LastOf(items, name, true).Some? ==>
         FitsItem(LastOf(items, name, true).value)
  }

  // ---------------------------------------------------------------- conditions on names

  ghost predicate UnambiguousType(typ: Type)
    decreases typ, 0
  {
    typ.ShapeType? ==> Unambiguous(typ.items)
  }

  ghost predicate UnambiguousItem(item: Item)
    decreases item, 1
  {
    if item.kind.GroupItem? then Unambiguous(item.items) else UnambiguousType(item.typ)
  }

  /** At every level, no optional item follows a required one of its name. */
  ghost predicate Unambiguous(items: seq<Item>)
    decreases items, 0
  {
    forall name :: LastOf(items, name, true).Some? ==>
      LastOf(items, name, false) == LastOf(items, name, true) && UnambiguousItem(LastOf(items, name, true).value)
  }

  predicate SlotKeptInType(typ: Type)
    decreases typ, 0
  {
    typ.ShapeType? ==> SlotKept(typ.items)
  }

  predicate SlotKeptInItem(item: Item)
    decreases item, 1
  {
    if item.kind.GroupItem? then SlotKept(item.items) else SlotKeptInType(item.typ)
  }

  /** At every level down to the slot, no later item takes over the name of the item that holds it. */
  predicate SlotKept(items: seq<Item>)
    decreases items, 0
  {
    var first := FirstSlot(items);
    first.Some? ==> LastOf(items, first.value.name, false) == first && SlotKeptInItem(first.value)
  }

  predicate NameFree(items: seq<Item>, name: string) {
    forall k :: 0 <= k < |items| && !items[k].kind.RecordItem? ==> items[k].name != name
  }

  predicate DistinctType(typ: Type)
    decreases typ, 0
  {
    typ.ShapeType? ==> DistinctItems(typ.items)
  }

  predicate DistinctItem(item: Item)
    decreases item, 1
  {
    DistinctType(item.typ) && DistinctItems(item.items)
  }

  /** At every level, the properties have distinct names. */
  predicate DistinctItems(items: seq<Item>)
    decreases items, 0
  {
    items == []
    || var item := items[|items| - 1];
    && DistinctItems(items[..|items| - 1])
    && (item.kind.RecordItem? || NameFree(items[..|items| - 1], item.name))
    && DistinctItem(item)
  }
}

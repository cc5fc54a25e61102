/**
 * Schema and placeholder agree: two generators walk the same items, and the
 * value of one validates against the schema of the other exactly when the
 * items' constants and bounds admit it, with or without the nonce marker, as
 * long as no repeated name sets the two apart.
 */
module PlaceholderLaws {
  import opened Wrappers
  import opened Json
  import opened Pointer
  import opened Contracts
  import opened Placeholder
  import opened RepeatedNames

  // ---------------------------------------------------------------- shape of generated schemas

  /** A schema without alternatives, constant or length bounds. */
  predicate Plain(schema: Schema) {
    schema.anyOf == [] && schema.constant.None? && schema.minLength.None? && schema.maxLength.None?
  }

  lemma TypeSchemaIsPlain(typ: Type, closed: bool)
    requires SchemaForType(typ, false, closed).Ok?
    ensures Plain(SchemaForType(typ, false, closed).value)
  {
  }

  /** The second alternative of a nullable schema accepts nothing. */
  lemma NullableIsSchema(schema: Schema, v: Json)
    ensures Valid(Nullable(schema, true), v) <==> Valid(schema, v)
  {
    var both := Nullable(schema, true);
    assert both.anyOf[0] == schema && both.anyOf[1] == Typed(NullWord);
    assert !Valid(Typed(NullWord), v);
    if Valid(schema, v) {
      assert Valid(both.anyOf[0], v);
    }
  }

  /** Constant and bounds beside an `anyOf` are not looked at. */
  lemma DecoratedNullable(schema: Schema, item: Item, constant: Json, v: Json)
    ensures Valid(Decorated(Nullable(schema, true), item, constant), v) <==> Valid(schema, v)
  {
    var both := Nullable(schema, true);
    var decorated := Decorated(both, item, constant);
    assert decorated.anyOf == both.anyOf;
    NullableIsSchema(schema, v);
  }

  // ---------------------------------------------------------------- agreement without the marker

  lemma {:induction false} AgreeItems(items: seq<Item>, closed: bool, low: Option<nat>, high: Option<nat>)
    requires Unambiguous(items) && SchemaForItems(items, closed).Ok? && ShapedItems(items).Ok?
    ensures Valid(Bounded(SchemaForItems(items, closed).value, low, high), ShapedItems(items).value.value) <==> FitsItems(items)
    ensures forall name :: LastOf(items, name, true).Some? ==>
              (LastAccepts(items, closed, name) <==> FitsItem(LastOf(items, name, true).value))
    decreases items, 1
  {
    ObjectIffLastAccepts(items, closed, low, high);
    forall name | LastOf(items, name, true).Some?
      ensures LastAccepts(items, closed, name) <==> FitsItem(LastOf(items, name, true).value)
    {
      FieldLookup(items, name);
      PropertyLookup(items, closed, name);
      AgreeItem(LastOf(items, name, true).value, closed);
    }
  }

  lemma {:induction false} AgreeType(typ: Type, maxBytes: Option<nat>, closed: bool, low: Option<nat>, high: Option<nat>)
    requires UnambiguousType(typ) && SchemaForType(typ, false, closed).Ok? && ShapedType(typ, maxBytes).Ok?
    ensures Valid(Bounded(SchemaForType(typ, false, closed).value, low, high), ShapedType(typ, maxBytes).value.value)
            <==> TypeFits(typ, low, high)
    decreases typ, 0
  {
    match typ
    case ShapeType(items) => AgreeItems(items, closed, low, high);
    case EnumType(values) =>
      var schema := Bounded(SchemaForType(typ, false, closed).value, low, high);
      assert values[0] in values && schema.choices == Some(values);
    case ObjectType =>
      var schema := Bounded(SchemaForType(typ, false, closed).value, low, high);
      assert ValidFields([], []);
      assert ValidObject(schema, Obj([]));
    case _ =>
  }

  lemma {:induction false} AgreeItem(item: Item, closed: bool)
    requires !item.kind.RecordItem? && UnambiguousItem(item) && SchemaForItem(item, closed).Ok? && ShapedItem(item).Ok?
    ensures Valid(SchemaForItem(item, closed).value, ShapedItem(item).value.value) <==> FitsItem(item)
    decreases item, 1
  {
    match item.kind
    case FieldItem =>
      if item.constant.Some? {
        AgreeConstant(item, closed);
      } else {
        AgreeField(item, closed);
      }
    case ListItem => AgreeList(item, closed);
    case GroupItem => AgreeGroup(item, closed);
  }

  /** A constant against the schema of its type, with or without the `const` keyword. */
  lemma ConstantAgainstType(typ: Type, text: string, closed: bool, constant: Option<Json>, low: Option<nat>, high: Option<nat>)
    requires SchemaForType(typ, false, closed).Ok? && ConstantValue(typ, text).Ok?
    requires constant.None? || constant == Some(ConstantValue(typ, text).value)
    ensures Valid(Bounded(SchemaForType(typ, false, closed).value.(constant := constant), low, high),
                  ConstantValue(typ, text).value)
            <==> ConstantFits(typ, text, low, high)
  {
  }

  lemma AgreeConstant(item: Item, closed: bool)
    requires item.kind.FieldItem? && item.constant.Some? && SchemaForItem(item, closed).Ok? && ShapedItem(item).Ok?
    ensures Valid(SchemaForItem(item, closed).value, ShapedItem(item).value.value) <==> FitsItem(item)
  {
    var base := SchemaForType(item.typ, false, closed).value;
    var text := item.constant.value;
    var constant := ConstantValue(item.typ, text).value;
    TypeSchemaIsPlain(item.typ, closed);
    if item.nullable {
      DecoratedNullable(base, item, constant, constant);
      ConstantAgainstType(item.typ, text, closed, None, None, None);
      assert Bounded(base.(constant := None), None, None) == base;
    } else {
      ConstantAgainstType(item.typ, text, closed, Some(constant), item.minBytes, item.maxBytes);
      assert Decorated(base, item, constant) ==
             Bounded(base.(constant := Some(constant)), item.minBytes, item.maxBytes);
    }
  }

  lemma {:induction false} AgreeField(item: Item, closed: bool)
    requires item.kind.FieldItem? && item.constant.None? && UnambiguousItem(item)
    requires SchemaForItem(item, closed).Ok? && ShapedItem(item).Ok?
    ensures Valid(SchemaForItem(item, closed).value, ShapedItem(item).value.value) <==> FitsItem(item)
    decreases item, 0
  {
    var base := SchemaForType(item.typ, false, closed).value;
    var v := ShapedItem(item).value.value;
    TypeSchemaIsPlain(item.typ, closed);
    if item.nullable {
      DecoratedNullable(base, item, Null, v);
      AgreeType(item.typ, item.maxBytes, closed, None, None);
      assert Bounded(base, None, None) == base;
    } else {
      AgreeType(item.typ, item.maxBytes, closed, item.minBytes, item.maxBytes);
      assert Decorated(base, item, Null) == Bounded(base, item.minBytes, item.maxBytes);
    }
  }

  /** The array schema of a list item, before `nullable` and decoration. */
  function ArraySchema(item: Item, element: Schema): Schema {
    var bounded := if item.itemMaxBytes.Some? then element.(maxLength := item.itemMaxBytes) else element;
    Typed(ArrayWord).(items := Some(bounded), minItems := item.minItems, maxItems := item.maxItems, unique := item.unique)
  }

  /** A one-element array against an array schema with constant and length bounds. */
  lemma OneElement(item: Item, element: Schema, constant: Option<Json>, low: Option<nat>, high: Option<nat>, v: Json)
    requires Plain(element) && (constant.Some? ==> !constant.value.Arr?)
    ensures Valid(Bounded(ArraySchema(item, element).(constant := constant), low, high), Arr([v]))
            <==> constant.None? && InBounds(1, low, high) && InBounds(1, item.minItems, item.maxItems)
                 && Valid(Bounded(element, None, item.itemMaxBytes), v)
  {
    var bounded := if item.itemMaxBytes.Some? then element.(maxLength := item.itemMaxBytes) else element;
    assert bounded == Bounded(element, None, item.itemMaxBytes);
    var schema := Bounded(ArraySchema(item, element).(constant := constant), low, high);
    assert schema.items == Some(bounded);
    assert [v][0] == v;
    assert ValidArray(schema, Arr([v])) <==> LengthFits(schema, 1) && Valid(bounded, v);
  }

  /** A one-element list against the schema of its item. */
  lemma SingletonAgrees(item: Item, element: Schema, closed: bool, v: Json)
    requires item.kind.ListItem? && SchemaForItem(item, closed).Ok? && SchemaForType(item.typ, false, closed) == Ok(element)
    ensures Valid(SchemaForItem(item, closed).value, Arr([v]))
            <==> && Valid(Bounded(element, None, item.itemMaxBytes), v)
                 && InBounds(1, item.minItems, item.maxItems)
                 && (item.nullable || (item.constant.None? && InBounds(1, item.minBytes, item.maxBytes)))
  {
    var whole := ArraySchema(item, element);
    var constant := if item.constant.None? then Null else ConstantValue(item.typ, item.constant.value).value;
    TypeSchemaIsPlain(item.typ, closed);
    if item.nullable {
      DecoratedNullable(whole, item, constant, Arr([v]));
      OneElement(item, element, None, None, None, v);
      assert Bounded(whole.(constant := None), None, None) == whole;
    } else {
      var fixed := if item.constant.None? then None else Some(constant);
      OneElement(item, element, fixed, item.minBytes, item.maxBytes, v);
      assert Decorated(whole, item, constant) == Bounded(whole.(constant := fixed), item.minBytes, item.maxBytes);
    }
  }

  lemma {:induction false} AgreeList(item: Item, closed: bool)
    requires item.kind.ListItem? && UnambiguousItem(item) && SchemaForItem(item, closed).Ok? && ShapedItem(item).Ok?
    ensures Valid(SchemaForItem(item, closed).value, ShapedItem(item).value.value) <==> FitsItem(item)
    decreases item, 0
  {
    var element := SchemaForType(item.typ, false, closed).value;
    AgreeType(item.typ, item.itemMaxBytes, closed, None, item.itemMaxBytes);
    SingletonAgrees(item, element, closed, ShapedType(item.typ, item.itemMaxBytes).value.value);
  }

  lemma {:induction false} AgreeGroup(item: Item, closed: bool)
    requires item.kind.GroupItem? && UnambiguousItem(item) && SchemaForItem(item, closed).Ok? && ShapedItem(item).Ok?
    ensures Valid(SchemaForItem(item, closed).value, ShapedItem(item).value.value) <==> FitsItem(item)
    decreases item, 0
  {
    var base := SchemaForItems(item.items, closed).value;
    AgreeItems(item.items, closed, item.minBytes, item.maxBytes);
    if item.constant.None? {
      assert Decorated(base, item, Null) == Bounded(base, item.minBytes, item.maxBytes);
    }
  }

  // ---------------------------------------------------------------- the slot

  lemma {:induction false} SlotInFields(items: seq<Item>)
    requires SlotKept(items) && HasSlot(items)
    ensures GetAt(Obj(ShapedFields(items).value.fields), ShapedFields(items).value.path.value) == Some(Str("x"))
    ensures ShapedFields(items).value.path.value != []
    decreases items, 0
  {
    SlotIsFirst(items);
    var first := FirstSlot(items).value;
    LastIsLastRequired(items, first.name);
    FieldLookup(items, first.name);
    SlotInItem(first);
    var path := ShapedItem(first).value.path.value;
    assert ([first.name] + path)[1..] == path;
  }

  lemma {:induction false} SlotInItem(item: Item)
    requires !item.kind.RecordItem? && SlotKeptInItem(item) && ShapedItem(item).Ok? && ShapedItem(item).value.path.Some?
    ensures GetAt(ShapedItem(item).value.value, ShapedItem(item).value.path.value) == Some(Str("x"))
    decreases item, 1
  {
    match item.kind
    case FieldItem => SlotInType(item.typ, item.maxBytes);
    case ListItem =>
      var element := ShapedType(item.typ, item.itemMaxBytes).value;
      SlotInType(item.typ, item.itemMaxBytes);
      assert (["0"] + element.path.value)[1..] == element.path.value;
      assert Offset("0") == Some(0) by {
        assert "0"[1..] == "";
      }
    case GroupItem => SlotInFields(item.items);
  }

  lemma {:induction false} SlotInType(typ: Type, maxBytes: Option<nat>)
    requires SlotKeptInType(typ) && ShapedType(typ, maxBytes).Ok? && ShapedType(typ, maxBytes).value.path.Some?
    ensures GetAt(ShapedType(typ, maxBytes).value.value, ShapedType(typ, maxBytes).value.path.value) == Some(Str("x"))
    decreases typ, 0
  {
    if typ.ShapeType? {
      SlotInFields(typ.items);
    }
  }

  // ---------------------------------------------------------------- agreement with the marker

  lemma {:induction false} MarkItems(items: seq<Item>, closed: bool, low: Option<nat>, high: Option<nat>, marker: string)
    requires Unambiguous(items) && SlotKept(items) && SchemaForItems(items, closed).Ok? && HasSlot(items)
    ensures Marked(Bounded(SchemaForItems(items, closed).value, low, high), ShapedItems(items).value.value,
                   ShapedItems(items).value.path.value, marker)
            <==> MarkedItemsFit(items, |marker|)
    decreases items, 1
  {
    ObjectMarkedIff(items, closed, low, high, marker);
    SlotIsFirst(items);
    var first := FirstSlot(items).value;
    LastIsLastRequired(items, first.name);
    PropertyLookup(items, closed, first.name);
    MarkItem(first, closed, marker);
    AgreeItems(items, closed, low, high);
  }

  lemma {:induction false} MarkType(typ: Type, maxBytes: Option<nat>, closed: bool, low: Option<nat>, high: Option<nat>, marker: string)
    requires UnambiguousType(typ) && SlotKeptInType(typ) && SchemaForType(typ, false, closed).Ok? && ShapedType(typ, maxBytes).Ok?
    requires ShapedType(typ, maxBytes).value.path.Some?
    ensures Marked(Bounded(SchemaForType(typ, false, closed).value, low, high), ShapedType(typ, maxBytes).value.value,
                   ShapedType(typ, maxBytes).value.path.value, marker)
            <==> MarkedTypeFits(typ, low, high, |marker|)
    decreases typ, 0
  {
    if typ.ShapeType? {
      MarkItems(typ.items, closed, low, high, marker);
    }
  }

  lemma {:induction false} MarkItem(item: Item, closed: bool, marker: string)
    requires !item.kind.RecordItem? && UnambiguousItem(item) && SlotKeptInItem(item) && SchemaForItem(item, closed).Ok? && ShapedItem(item).Ok?
    requires ShapedItem(item).value.path.Some?
    ensures Marked(SchemaForItem(item, closed).value, ShapedItem(item).value.value, ShapedItem(item).value.path.value, marker)
            <==> MarkedItemFits(item, |marker|)
    decreases item, 1
  {
    match item.kind
    case FieldItem => MarkField(item, closed, marker);
    case ListItem => MarkList(item, closed, marker);
    case GroupItem => MarkGroup(item, closed, marker);
  }

  lemma {:induction false} MarkField(item: Item, closed: bool, marker: string)
    requires item.kind.FieldItem? && UnambiguousItem(item) && SlotKeptInItem(item) && SchemaForItem(item, closed).Ok? && ShapedItem(item).Ok?
    requires ShapedItem(item).value.path.Some?
    ensures Marked(SchemaForItem(item, closed).value, ShapedItem(item).value.value, ShapedItem(item).value.path.value, marker)
            <==> MarkedItemFits(item, |marker|)
    decreases item, 0
  {
    var base := SchemaForType(item.typ, false, closed).value;
    var shaped := ShapedItem(item).value;
    TypeSchemaIsPlain(item.typ, closed);
    if item.nullable {
      MarkType(item.typ, item.maxBytes, closed, None, None, marker);
      assert Bounded(base, None, None) == base;
      if SetAt(shaped.value, shaped.path.value, marker).Some? {
        DecoratedNullable(base, item, Null, SetAt(shaped.value, shaped.path.value, marker).value);
      }
    } else {
      MarkType(item.typ, item.maxBytes, closed, item.minBytes, item.maxBytes, marker);
      assert Decorated(base, item, Null) == Bounded(base, item.minBytes, item.maxBytes);
    }
  }

  lemma {:induction false} MarkGroup(item: Item, closed: bool, marker: string)
    requires item.kind.GroupItem? && UnambiguousItem(item) && SlotKeptInItem(item) && SchemaForItem(item, closed).Ok? && ShapedItem(item).Ok?
    requires ShapedItem(item).value.path.Some?
    ensures Marked(SchemaForItem(item, closed).value, ShapedItem(item).value.value, ShapedItem(item).value.path.value, marker)
            <==> MarkedItemFits(item, |marker|)
    decreases item, 0
  {
    var base := SchemaForItems(item.items, closed).value;
    MarkItems(item.items, closed, item.minBytes, item.maxBytes, marker);
    if item.constant.None? {
      assert Decorated(base, item, Null) == Bounded(base, item.minBytes, item.maxBytes);
    } else {
      SlotInFields(item.items);
    }
  }

  /** The path of a list element goes through index 0. */
  lemma SetInSingleton(v: Json, path: seq<string>, marker: string)
    ensures SetAt(Arr([v]), ["0"] + path, marker) ==
            if SetAt(v, path, marker).None? then None else Some(Arr([SetAt(v, path, marker).value]))
  {
    assert (["0"] + path)[1..] == path;
    assert Offset("0") == Some(0) by {
      assert "0"[1..] == "";
    }
    if SetAt(v, path, marker).Some? {
      assert [v][0 := SetAt(v, path, marker).value] == [SetAt(v, path, marker).value];
    }
  }

  lemma {:induction false} MarkList(item: Item, closed: bool, marker: string)
    requires item.kind.ListItem? && UnambiguousItem(item) && SlotKeptInItem(item) && SchemaForItem(item, closed).Ok? && ShapedItem(item).Ok?
    requires ShapedItem(item).value.path.Some?
    ensures Marked(SchemaForItem(item, closed).value, ShapedItem(item).value.value, ShapedItem(item).value.path.value, marker)
            <==> MarkedItemFits(item, |marker|)
    decreases item, 0
  {
    var element := SchemaForType(item.typ, false, closed).value;
    var shaped := ShapedType(item.typ, item.itemMaxBytes).value;
    TypeSchemaIsPlain(item.typ, closed);
    MarkType(item.typ, item.itemMaxBytes, closed, None, item.itemMaxBytes, marker);
    SetInSingleton(shaped.value, shaped.path.value, marker);
    if SetAt(shaped.value, shaped.path.value, marker).Some? {
      SingletonAgrees(item, element, closed, SetAt(shaped.value, shaped.path.value, marker).value);
    }
  }

  // ---------------------------------------------------------------- what fits can carry the marker

  lemma {:induction false} FittingItemsMarked(items: seq<Item>, length: nat)
    requires SlotKept(items) && FitsItems(items) && HasSlot(items) && length == MARKER_LENGTH
    ensures MarkedItemsFit(items, length)
    decreases items, 0
  {
    SlotIsFirst(items);
    var first := FirstSlot(items).value;
    LastIsLastRequired(items, first.name);
    FittingItemMarked(first, length);
  }

  lemma {:induction false} FittingItemMarked(item: Item, length: nat)
    requires !item.kind.RecordItem? && SlotKeptInItem(item) && FitsItem(item) && ShapedItem(item).Ok? && ShapedItem(item).value.path.Some?
    requires length == MARKER_LENGTH
    ensures MarkedItemFits(item, length)
    decreases item, 1
  {
    match item.kind
    case FieldItem =>
      if item.nullable {
        FittingTypeMarked(item.typ, item.maxBytes, None, None, length);
      } else {
        FittingTypeMarked(item.typ, item.maxBytes, item.minBytes, item.maxBytes, length);
      }
    case ListItem => FittingTypeMarked(item.typ, item.itemMaxBytes, None, item.itemMaxBytes, length);
    case GroupItem => FittingItemsMarked(item.items, length);
  }

  /** A slot is offered only where the upper bound leaves room for the marker. */
  lemma {:induction false} FittingTypeMarked(typ: Type, maxBytes: Option<nat>, low: Option<nat>, high: Option<nat>, length: nat)
    requires SlotKeptInType(typ) && TypeFits(typ, low, high) && (high.None? || high == maxBytes) && length == MARKER_LENGTH
    requires ShapedType(typ, maxBytes).Ok? && ShapedType(typ, maxBytes).value.path.Some?
    ensures MarkedTypeFits(typ, low, high, length)
    decreases typ, 0
  {
    if typ.ShapeType? {
      FittingItemsMarked(typ.items, length);
    }
  }

  // ---------------------------------------------------------------- distinct names

  lemma {:induction false} DistinctMember(items: seq<Item>, item: Item)
    requires DistinctItems(items) && item in items
    ensures DistinctItem(item)
    ensures !item.kind.RecordItem? ==> LastOf(items, item.name, false) == Some(item)
    decreases |items|
  {
    var before, last := items[..|items| - 1], items[|items| - 1];
    if item in before {
      DistinctMember(before, item);
      var k :| 0 <= k < |before| && before[k] == item;
    }
  }

  lemma {:induction false} DistinctIsUnambiguous(items: seq<Item>)
    requires DistinctItems(items)
    ensures Unambiguous(items) && SlotKept(items)
    decreases items, 0
  {
    forall name | LastOf(items, name, true).Some?
      ensures LastOf(items, name, false) == LastOf(items, name, true)
              && UnambiguousItem(LastOf(items, name, true).value)
    {
      var last := LastOf(items, name, true).value;
      DistinctMember(items, last);
      DistinctItemIsUnambiguous(last);
    }
    if FirstSlot(items).Some? {
      DistinctMember(items, FirstSlot(items).value);
      DistinctItemIsUnambiguous(FirstSlot(items).value);
    }
  }

  lemma {:induction false} DistinctItemIsUnambiguous(item: Item)
    requires DistinctItem(item)
    ensures UnambiguousItem(item) && SlotKeptInItem(item)
    decreases item, 1
  {
    DistinctIsUnambiguous(item.items);
    if item.typ.ShapeType? {
      DistinctIsUnambiguous(item.typ.items);
    }
  }

  /** What fits also has a placeholder. */
  lemma {:induction false} FittingFieldsShape(items: seq<Item>, closed: bool)
    requires DistinctItems(items) && PropertiesOf(items, closed).Ok? && FitsItems(items)
    ensures ShapedFields(items).Ok?
    decreases items, 0
  {
    if items != [] {
      var before, item := items[..|items| - 1], items[|items| - 1];
      FittingBefore(items);
      FittingFieldsShape(before, closed);
      if !item.kind.RecordItem? && item.required {
        assert LastOf(items, item.name, true) == Some(item);
        FittingItemShapes(item, closed);
      }
    }
  }

  lemma FittingBefore(items: seq<Item>)
    requires items != [] && DistinctItems(items) && FitsItems(items)
    ensures FitsItems(items[..|items| - 1])
  {
    var before, item := items[..|items| - 1], items[|items| - 1];
    forall name | LastOf(before, name, true).Some? ensures LastOf(items, name, true) == LastOf(before, name, true) {
      var last := LastOf(before, name, true).value;
      var k :| 0 <= k < |before| && before[k] == last;
    }
  }

  lemma {:induction false} FittingItemShapes(item: Item, closed: bool)
    requires !item.kind.RecordItem? && DistinctItem(item) && SchemaForItem(item, closed).Ok? && FitsItem(item)
    ensures ShapedItem(item).Ok?
    decreases item, 1
  {
    match item.kind
    case FieldItem =>
      if item.constant.None? {
        FittingTypeShapes(item.typ, item.maxBytes, closed);
      }
    case ListItem => FittingTypeShapes(item.typ, item.itemMaxBytes, closed);
    case GroupItem => FittingFieldsShape(item.items, closed);
  }

  lemma {:induction false} FittingTypeShapes(typ: Type, maxBytes: Option<nat>, closed: bool)
    requires DistinctType(typ) && SchemaForType(typ, false, closed).Ok?
    requires exists low, high :: TypeFits(typ, low, high)
    ensures ShapedType(typ, maxBytes).Ok?
    decreases typ, 0
  {
    if typ.ShapeType? {
      FittingFieldsShape(typ.items, closed);
    }
  }

  // ---------------------------------------------------------------- the main results

  /**
   * The generated placeholder validates exactly when constants and bounds admit
   * it, as long as no optional item follows a required one of its name.
   */
  lemma PlaceholderValidIffFits(items: seq<Item>, closed: bool)
    requires Unambiguous(items) && SchemaForItems(items, closed).Ok? && ShapedItems(items).Ok?
    ensures Valid(SchemaForItems(items, closed).value, ShapedItems(items).value.value) <==> FitsItems(items)
  {
    AgreeItems(items, closed, None, None);
    var schema := SchemaForItems(items, closed).value;
    assert Bounded(schema, None, None) == schema;
  }

  /**
   * With the marker, if besides no later item takes over the slot's name: the
   * write succeeds, and the value then validates exactly when the items fit with
   * the slot's text taken at the marker's length.
   */
  lemma MarkedValidIffFits(items: seq<Item>, closed: bool, marker: string)
    requires Unambiguous(items) && SlotKept(items) && SchemaForItems(items, closed).Ok? && HasSlot(items)
    ensures var shaped := ShapedItems(items).value;
            var pointer := PointerText(shaped.path.value);
            && SetMarker(shaped.value, pointer, marker).Some?
            && (Valid(SchemaForItems(items, closed).value, SetMarker(shaped.value, pointer, marker).value)
                <==> MarkedItemsFit(items, |marker|))
  {
    var shaped := ShapedItems(items).value;
    var schema := SchemaForItems(items, closed).value;
    MarkItems(items, closed, None, None, marker);
    assert Bounded(schema, None, None) == schema;
    SlotInFields(items);
    SegmentsOfPointer(shaped.path.value);
    SetThenGet(shaped.value, shaped.path.value, marker);
  }

  /**
   * Items that fit also fit with the marker: the pointer leads to a text leaf
   * that is no constant, and with the marker written there the placeholder
   * validates. Distinct names meet both conditions on names, and what fits then
   * also has a placeholder.
   */
  lemma MarkedPlaceholderMeetsSchema(items: seq<Item>, closed: bool, nonce: string)
    requires Unambiguous(items) && SchemaForItems(items, closed).Ok? && FitsItems(items) && |nonce| == 64
    ensures DistinctItems(items) ==> ShapedItems(items).Ok? && SlotKept(items)
    ensures HasSlot(items) && SlotKept(items) ==>
              var shaped := ShapedItems(items).value;
              var pointer := PointerText(shaped.path.value);
              && Segments(pointer) == shaped.path
              && GetAt(shaped.value, shaped.path.value) == Some(Str("x"))
              && SetMarker(shaped.value, pointer, SENTINEL + nonce).Some?
              && Valid(SchemaForItems(items, closed).value, SetMarker(shaped.value, pointer, SENTINEL + nonce).value)
  {
    if DistinctItems(items) {
      FittingFieldsShape(items, closed);
      DistinctIsUnambiguous(items);
    }
    if HasSlot(items) && SlotKept(items) {
      MarkedValidIffFits(items, closed, SENTINEL + nonce);
      FittingItemsMarked(items, MARKER_LENGTH);
      SlotInFields(items);
      SegmentsOfPointer(ShapedItems(items).value.path.value);
    }
  }

  // ---------------------------------------------------------------- repeated names that do harm

  const TEXT_A := Item(FieldItem, "a", TextType, [], true, false, None, None, None, None, None, None, false)
  const FLAG_A := TEXT_A.(typ := BoolType)
  const GROUP_A := TEXT_A.(kind := GroupItem, items := [TEXT_A.(name := "b")])

  /** Two properties of one name: what each side keeps. */
  lemma PairOfOneName(first: Item, second: Item, closed: bool)
    requires !first.kind.RecordItem? && !second.kind.RecordItem? && first.name == second.name && first.required
    requires SchemaForItem(first, closed).Ok? && SchemaForItem(second, closed).Ok?
    requires ShapedItem(first).Ok? && ShapedItem(second).Ok?
    ensures var items := [first, second];
            && SchemaForItems(items, closed).Ok? && ShapedItems(items).Ok?
            && (ShapedItem(first).value.path.Some? ==> FirstSlot(items) == Some(first))
            && LastOf(items, first.name, false) == Some(second)
            && LastOf(items, first.name, true) == Some(if second.required then second else first)
            && forall name, required :: name != first.name ==> LastOf(items, name, required).None?
  {
    var items := [first, second];
    assert items[..1] == [first] && [first][..0] == [];
    assert PropertiesOf([], closed) == Ok(Properties([], []));
    assert PropertiesOf([first], closed).Ok? && ShapedFields([first]).Ok?;
    assert FirstSlot([]).None?;
    assert FirstSlot([first]) == if ShapedItem(first).value.path.Some? then Some(first) else None;
    forall name, required | name != first.name ensures LastOf(items, name, required).None? {
      assert LastOf([], name, required).None?;
      assert LastOf([first], name, required).None?;
    }
    assert LastOf([first], first.name, true) == Some(first);
  }

  lemma OneNameFits(items: seq<Item>, name: string)
    requires LastOf(items, name, true).Some?
    requires forall other, required :: other != name ==> LastOf(items, other, required).None?
    ensures FitsItems(items) <==> FitsItem(LastOf(items, name, true).value)
    ensures LastOf(items, name, false) == LastOf(items, name, true) && UnambiguousItem(LastOf(items, name, true).value)
            ==> Unambiguous(items)
  {
  }

  /** The schema keeps the later item, the placeholder the required one. */
  lemma DuplicateNamesDisagree(closed: bool) returns (items: seq<Item>)
    ensures FitsItems(items) && SchemaForItems(items, closed).Ok? && ShapedItems(items).Ok?
    ensures !Valid(SchemaForItems(items, closed).value, ShapedItems(items).value.value)
  {
    var flag := TEXT_A.(typ := BoolType, required := false);
    items := [TEXT_A, flag];
    assert SchemaForItem(TEXT_A, closed) == Ok(Typed(StringWord)) && SchemaForItem(flag, closed) == Ok(Typed(BooleanWord));
    PairOfOneName(TEXT_A, flag, closed);
    OneNameFits(items, "a");
    ValidIffLastAccepts(items, closed);
    assert !LastAccepts(items, closed, "a");
  }

  /** The later item takes over the name of the slot: the unmarked placeholder passes, the marked one does not. */
  lemma LaterItemTakesSlot(closed: bool, marker: string) returns (items: seq<Item>)
    ensures Unambiguous(items) && FitsItems(items) && SchemaForItems(items, closed).Ok? && HasSlot(items)
    ensures var schema, shaped := SchemaForItems(items, closed).value, ShapedItems(items).value;
            var marked := SetMarker(shaped.value, PointerText(shaped.path.value), marker);
            Valid(schema, shaped.value) && marked.Some? && !Valid(schema, marked.value)
  {
    items := [TEXT_A, FLAG_A];
    assert SchemaForItem(TEXT_A, closed) == Ok(Typed(StringWord)) && SchemaForItem(FLAG_A, closed) == Ok(Typed(BooleanWord));
    PairOfOneName(TEXT_A, FLAG_A, closed);
    OneNameFits(items, "a");
    SlotIsFirst(items);
    PlaceholderValidIffFits(items, closed);
    MarkedValidIffLastAccepts(items, closed, marker);
    assert WrittenSlot(items, marker) == Some(Str(marker));
    assert !MarkedLastAccepts(items, closed, marker);
  }

  /** The later item has no place for the slot's path: the marker cannot be written. */
  lemma LaterItemHidesSlot(closed: bool, marker: string) returns (items: seq<Item>)
    ensures Unambiguous(items) && FitsItems(items) && SchemaForItems(items, closed).Ok? && HasSlot(items)
    ensures var shaped := ShapedItems(items).value;
            && Valid(SchemaForItems(items, closed).value, shaped.value)
            && SetMarker(shaped.value, PointerText(shaped.path.value), marker).None?
  {
    items := [GROUP_A, FLAG_A];
    assert GROUP_A.items[..0] == [];
    assert SchemaForItem(FLAG_A, closed) == Ok(Typed(BooleanWord));
    assert PropertiesOf(GROUP_A.items, closed).Ok?;
    assert ShapedFields(GROUP_A.items) == Ok(ShapedMembers(Put([], "b", Str("x")), Some(["b"] + [])));
    PairOfOneName(GROUP_A, FLAG_A, closed);
    OneNameFits(items, "a");
    SlotIsFirst(items);
    PlaceholderValidIffFits(items, closed);
    MarkedValidIffLastAccepts(items, closed, marker);
    assert WrittenSlot(items, marker).None?;
  }
}

/**
 * Contract items and the JSON schema generated from them
 * (codegen/src/contracts.rs), with the generator's own schema validator
 * (codegen/src/emit.rs). A type name is modelled by what it resolves to.
 */
module Contracts {
  import opened Wrappers
  import opened Json
  import opened KernelState

  datatype Type =
    | EnumType(values: seq<string>)
    | ShapeType(items: seq<Item>)
    | BoolType
    | IntType
    | ObjectType
    | JsonType
    | TextType

  datatype ItemKind = FieldItem | ListItem | GroupItem | RecordItem

  datatype Item = Item(
    kind: ItemKind,
    name: string,
    typ: Type,
    items: seq<Item>,
    required: bool,
    nullable: bool,
    constant: Option<string>,
    minBytes: Option<nat>,
    maxBytes: Option<nat>,
    itemMaxBytes: Option<nat>,
    minItems: Option<nat>,
    maxItems: Option<nat>,
    unique: bool)

  // ---------------------------------------------------------------- schemas

  datatype TypeWord = StringWord | IntegerWord | BooleanWord | ObjectWord | ArrayWord | NullWord

  /**
   * The keywords the generator writes; `additional` is `additionalProperties`. An
   * empty `anyOf` stands for its absence: the generator writes two alternatives.
   */
  datatype Schema = Schema(
    anyOf: seq<Schema>,
    constant: Option<Json>,
    choices: Option<seq<string>>,
    word: Option<TypeWord>,
    minLength: Option<nat>,
    maxLength: Option<nat>,
    minItems: Option<nat>,
    maxItems: Option<nat>,
    items: Option<Schema>,
    hasProperties: bool,
    properties: seq<Property>,
    required: seq<string>,
    additional: Option<bool>,
    unique: bool)

  datatype Property = Property(name: string, schema: Schema)

  const ANYTHING := Schema([], None, None, None, None, None, None, None, None, false, [], [], None, false)

  function Typed(word: TypeWord): Schema {
    ANYTHING.(word := Some(word))
  }

  function Nullable(schema: Schema, nullable: bool): Schema {
    if nullable then ANYTHING.(anyOf := [schema, Typed(NullWord)]) else schema
  }

  function ParseU64(text: string): Result<nat> {
    var digits := if text != "" && text[0] == '+' then text[1..] else text;
    if digits == "" || exists i :: 0 <= i < |digits| && !IsDigit(digits[i]) then Err("invalid integer constant")
    else
      var n := ReadDigits(digits, 0).value;
      if n > U64_MAX then Err("invalid integer constant") else Ok(n)
  }

  /** A constant as the type's JSON value: both generators read it this way. */
  function ConstantValue(typ: Type, text: string): Result<Json> {
    match typ
    case BoolType =>
      if text == "true" then Ok(Bool(true)) else if text == "false" then Ok(Bool(false)) else Err("invalid bool constant")
    case IntType =>
      var n := ParseU64(text);
      if n.Err? then Err(n.error) else Ok(Num(n.value))
    case _ => Ok(Str(text))
  }

  /** `properties.insert` */
  function PutProperty(properties: seq<Property>, name: string, schema: Schema): seq<Property> {
    if properties == [] then [Property(name, schema)]
    else if properties[0].name == name then [Property(name, schema)] + properties[1..]
    else [properties[0]] + PutProperty(properties[1..], name, schema)
  }

  datatype Properties = Properties(properties: seq<Property>, required: seq<string>)

  function SchemaForType(typ: Type, nullable: bool, closed: bool): Result<Schema>
    decreases typ, 0
  {
    var schema :=
      match typ
      case EnumType(values) => Ok(Typed(StringWord).(choices := Some(values)))
      case ShapeType(items) => SchemaForItems(items, closed)
      case BoolType => Ok(Typed(BooleanWord))
      case IntType => Ok(Typed(IntegerWord))
      case ObjectType => Ok(Typed(ObjectWord).(additional := Some(true)))
      case JsonType => Ok(ANYTHING)
      case TextType => Ok(Typed(StringWord));
    if schema.Err? then schema else Ok(Nullable(schema.value, nullable))
  }

  function ListSchema(item: Item, closed: bool): Result<Schema>
    decreases item, 0
  {
    var element := SchemaForType(item.typ, false, closed);
    if element.Err? then element
    else
      var bounded := if item.itemMaxBytes.Some? then element.value.(maxLength := item.itemMaxBytes) else element.value;
      Ok(Nullable(
           Typed(ArrayWord).(items := Some(bounded), minItems := item.minItems, maxItems := item.maxItems,
                             unique := item.unique),
           item.nullable))
  }

  /** One property: the schema of its kind, then constant and length bounds on top. */
  function SchemaForItem(item: Item, closed: bool): Result<Schema>
    requires !item.kind.RecordItem?
    decreases item, 1
  {
    var base :=
      match item.kind
      case FieldItem => SchemaForType(item.typ, item.nullable, closed)
      case ListItem => ListSchema(item, closed)
      case GroupItem => SchemaForItems(item.items, closed);
    if base.Err? then base
    else
      var constant := if item.constant.None? then Ok(Null) else ConstantValue(item.typ, item.constant.value);
      if constant.Err? then Err(constant.error) else Ok(Decorated(base.value, item, constant.value))
  }

  function Decorated(schema: Schema, item: Item, constant: Json): Schema {
    var fixed := if item.constant.Some? then schema.(constant := Some(constant)) else schema;
    var atLeast := if item.minBytes.Some? then fixed.(minLength := item.minBytes) else fixed;
    if item.maxBytes.Some? then atLeast.(maxLength := item.maxBytes) else atLeast
  }

  function PropertiesOf(items: seq<Item>, closed: bool): Result<Properties>
    decreases items, 0
  {
    if items == [] then Ok(Properties([], []))
    else
      var item := items[|items| - 1];
      var before := PropertiesOf(items[..|items| - 1], closed);
      if before.Err? || item.kind.RecordItem? then before
      else
        var schema := SchemaForItem(item, closed);
        if schema.Err? then Err(schema.error)
        else
          Ok(Properties(
               PutProperty(before.value.properties, item.name, schema.value),
               before.value.required + if item.required then [item.name] else []))
  }

  function SchemaForItems(items: seq<Item>, closed: bool): Result<Schema>
    decreases items, 1
  {
    var parts := PropertiesOf(items, closed);
    if parts.Err? then Err(parts.error)
    else
      Ok(Typed(ObjectWord).(additional := Some(!closed), hasProperties := true,
                            properties := parts.value.properties, required := parts.value.required))
  }

  // ---------------------------------------------------------------- validation

  predicate InBounds(length: nat, low: Option<nat>, high: Option<nat>) {
    (low.Some? ==> low.value <= length) && (high.Some? ==> length <= high.value)
  }

  /** `validate_schema_length` looks at the length and the item bounds alike. */
  predicate LengthFits(schema: Schema, length: nat) {
    InBounds(length, schema.minLength, schema.maxLength) && InBounds(length, schema.minItems, schema.maxItems)
  }

  function IndexOfProperty(properties: seq<Property>, name: string): (k: nat)
    ensures k <= |properties|
    ensures k < |properties| ==> properties[k].name == name
    ensures forall j :: 0 <= j < k ==> properties[j].name != name
  {
    if properties == [] || properties[0].name == name then 0 else 1 + IndexOfProperty(properties[1..], name)
  }

  /** `validate_placeholder_schema` */
  predicate Valid(schema: Schema, v: Json)
    decreases schema, 2
  {
    if schema.anyOf != [] then exists k :: 0 <= k < |schema.anyOf| && Valid(schema.anyOf[k], v)
    else
      && (schema.constant.Some? ==> schema.constant.value == v)
      && (schema.choices.Some? ==> v.Str? && v.s in schema.choices.value)
      && match schema.word {
           case None => true
           case Some(StringWord) => v.Str? && LengthFits(schema, |v.s|)
           case Some(IntegerWord) => v.Num?
           case Some(BooleanWord) => v.Bool?
           case Some(ObjectWord) => ValidObject(schema, v)
           case Some(ArrayWord) => ValidArray(schema, v)
           case Some(NullWord) => false
         }
  }

  predicate ValidObject(schema: Schema, v: Json)
    decreases schema, 1
  {
    && v.Obj?
    && (schema.hasProperties || schema.additional != Some(false))
    && (forall k :: 0 <= k < |schema.required| ==> Get(v.fields, schema.required[k]).Some?)
    && (schema.additional == Some(false) ==>
          forall k :: 0 <= k < |v.fields| ==>
            IndexOfProperty(schema.properties, v.fields[k].key) < |schema.properties|)
    && ValidFields(schema.properties, v.fields)
  }

  predicate ValidFields(properties: seq<Property>, fields: seq<Field>)
    decreases properties, 0
  {
    forall k :: 0 <= k < |fields| ==>
      var j := IndexOfProperty(properties, fields[k].key);
      j < |properties| ==> Valid(properties[j].schema, fields[k].value)
  }

  predicate ValidArray(schema: Schema, v: Json)
    decreases schema, 1
  {
    && v.Arr?
    && LengthFits(schema, |v.items|)
    && schema.items.Some?
    && (forall k :: 0 <= k < |v.items| ==> Valid(schema.items.value, v.items[k]))
    && (schema.unique ==> forall j, k :: 0 <= j < k < |v.items| ==> v.items[j] != v.items[k])
  }
}

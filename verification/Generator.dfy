/**
 * The generator's loops (codegen/src/contracts.rs, codegen/src/emit.rs): one
 * pass over the items filling the property map, one filling the placeholder and
 * keeping the first slot as pointer text.
 */
module Generator {
  import opened Wrappers
  import opened Json
  import opened Pointer
  import opened Contracts
  import opened Placeholder

  lemma {:induction false} PropertiesErrorStays(items: seq<Item>, closed: bool, k: nat)
    requires k <= |items| && PropertiesOf(items[..k], closed).Err?
    ensures PropertiesOf(items, closed) == PropertiesOf(items[..k], closed)
    decreases |items|
  {
    if k == |items| {
      assert items[..k] == items;
    } else {
      var before := items[..|items| - 1];
      assert before[..k] == items[..k];
      PropertiesErrorStays(before, closed, k);
    }
  }

  /** `json_schema_for_items` */
  method JsonSchemaForItems(items: seq<Item>, closed: bool) returns (r: Result<Schema>)
    ensures r == SchemaForItems(items, closed)
  {
    var properties: seq<Property> := [];
    var required: seq<string> := [];
    assert items[..0] == [];
    for k := 0 to |items|
      invariant PropertiesOf(items[..k], closed) == Ok(Properties(properties, required))
    {
      var item := items[k];
      assert items[..k + 1][..k] == items[..k];
      if !item.kind.RecordItem? {
        var schema := SchemaForItem(item, closed);
        if schema.Err? {
          PropertiesErrorStays(items, closed, k + 1);
          return Err(schema.error);
        }
        properties := PutProperty(properties, item.name, schema.value);
        required := required + if item.required then [item.name] else [];
      }
    }
    assert items[..|items|] == items;
    r := Ok(Typed(ObjectWord).(additional := Some(!closed), hasProperties := true, properties := properties,
                               required := required));
  }

  datatype Template = Template(value: Json, slot: Option<string>)

  function SlotText(path: Option<seq<string>>): Option<string> {
    if path.None? then None else Some(PointerText(path.value))
  }

  /** The placeholder with its slot written as pointer text. */
  function TemplateOf(shaped: Result<Shaped>): Result<Template> {
    if shaped.Err? then Err(shaped.error) else Ok(Template(shaped.value.value, SlotText(shaped.value.path)))
  }

  lemma {:induction false} ShapedErrorStays(items: seq<Item>, k: nat)
    requires k <= |items| && ShapedFields(items[..k]).Err?
    ensures ShapedFields(items) == ShapedFields(items[..k])
    decreases |items|
  {
    if k == |items| {
      assert items[..k] == items;
    } else {
      var before := items[..|items| - 1];
      assert before[..k] == items[..k];
      ShapedErrorStays(before, k);
    }
  }

  lemma PointerExtends(name: string, path: seq<string>)
    ensures PointerText([name] + path) == "/" + EscapeSegment(name) + PointerText(path)
  {
    assert ([name] + path)[1..] == path;
    assert EscapePath([name] + path)[1..] == EscapePath(path);
  }

  /** `placeholder_for_items` */
  method PlaceholderForItems(items: seq<Item>) returns (r: Result<Template>)
    ensures r == TemplateOf(ShapedItems(items))
  {
    var value: seq<Field> := [];
    var slot: Option<string> := None;
    ghost var path: Option<seq<string>> := None;
    assert items[..0] == [];
    for k := 0 to |items|
      invariant ShapedFields(items[..k]) == Ok(ShapedMembers(value, path))
      invariant slot == SlotText(path)
    {
      var item := items[k];
      assert items[..k + 1][..k] == items[..k];
      if !item.kind.RecordItem? && item.required {
        var template := TemplateOf(ShapedItem(item));
        if template.Err? {
          ShapedErrorStays(items, k + 1);
          return Err(template.error);
        }
        if slot.None? && template.value.slot.Some? {
          ghost var child := ShapedItem(item).value.path.value;
          PointerExtends(item.name, child);
          slot := Some("/" + EscapeSegment(item.name) + template.value.slot.value);
          path := Some([item.name] + child);
        }
        value := Put(value, item.name, template.value.value);
      }
    }
    assert items[..|items|] == items;
    r := Ok(Template(Obj(value), slot));
  }
}

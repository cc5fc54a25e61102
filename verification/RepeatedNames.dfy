/**
 * Items whose names repeat: the schema keeps the last item of a name, the
 * placeholder the last required one, and the slot stays where the first item
 * with a slot put it (codegen/src/contracts.rs, codegen/src/emit.rs). Which
 * placeholders validate then, marked or not, for all items.
 */
module RepeatedNames {
  import opened Wrappers
  import opened Json
  import opened JsonLaws
  import opened Pointer
  import opened Contracts
  import opened Placeholder

  function Bounded(schema: Schema, low: Option<nat>, high: Option<nat>): Schema {
    schema.(minLength := low, maxLength := high)
  }

  // ---------------------------------------------------------------- last items

  lemma {:induction false} LastRequiredIsNamed(items: seq<Item>, name: string)
    requires LastOf(items, name, true).Some?
    ensures LastOf(items, name, false).Some?
  {
    var item := items[|items| - 1];
    if item.kind.RecordItem? || item.name != name {
      LastRequiredIsNamed(items[..|items| - 1], name);
    }
  }

  /** If the last item of a name is required, it is the last required one. */
  lemma {:induction false} LastIsLastRequired(items: seq<Item>, name: string)
    requires LastOf(items, name, false).Some? && LastOf(items, name, false).value.required
    ensures LastOf(items, name, true) == LastOf(items, name, false)
  {
    var item := items[|items| - 1];
    if item.kind.RecordItem? || item.name != name {
      LastIsLastRequired(items[..|items| - 1], name);
    }
  }

  lemma {:induction false} RequiredItemHasLast(items: seq<Item>, item: Item)
    requires item in items && !item.kind.RecordItem? && item.required
    ensures LastOf(items, item.name, true).Some?
  {
    var last := items[|items| - 1];
    if last.kind.RecordItem? || last.name != item.name || !last.required {
      RequiredItemHasLast(items[..|items| - 1], item);
    }
  }

  // ---------------------------------------------------------------- lookup on both sides

  function SchemaAt(properties: seq<Property>, name: string): Option<Schema> {
    var j := IndexOfProperty(properties, name);
    if j < |properties| then Some(properties[j].schema) else None
  }

  lemma SchemaAtNext(properties: seq<Property>, name: string)
    requires properties != []
    ensures SchemaAt(properties, name) ==
            if properties[0].name == name then Some(properties[0].schema) else SchemaAt(properties[1..], name)
  {
  }

  lemma {:induction false} PutPropertyLookup(properties: seq<Property>, put: string, schema: Schema, name: string)
    ensures SchemaAt(PutProperty(properties, put, schema), name) ==
            if name == put then Some(schema) else SchemaAt(properties, name)
  {
    var after := PutProperty(properties, put, schema);
    SchemaAtNext(after, name);
    if properties != [] {
      SchemaAtNext(properties, name);
      if properties[0].name == put {
        assert after[1..] == properties[1..];
      } else {
        assert after[1..] == PutProperty(properties[1..], put, schema);
        PutPropertyLookup(properties[1..], put, schema, name);
      }
    }
  }

  /** The schema of a name is that of its last item. */
  lemma {:induction false} PropertyLookup(items: seq<Item>, closed: bool, name: string)
    requires PropertiesOf(items, closed).Ok?
    ensures var found, last := SchemaAt(PropertiesOf(items, closed).value.properties, name), LastOf(items, name, false);
            && (found.Some? <==> last.Some?)
            && (found.Some? ==> SchemaForItem(last.value, closed) == Ok(found.value))
  {
    if items != [] {
      var before, item := items[..|items| - 1], items[|items| - 1];
      PropertyLookup(before, closed, name);
      if !item.kind.RecordItem? {
        PutPropertyLookup(PropertiesOf(before, closed).value.properties, item.name, SchemaForItem(item, closed).value, name);
      }
    }
  }

  /** The value of a name is that of its last required item. */
  lemma {:induction false} FieldLookup(items: seq<Item>, name: string)
    requires ShapedFields(items).Ok?
    ensures var got, last := Get(ShapedFields(items).value.fields, name), LastOf(items, name, true);
            && (got.Some? <==> last.Some?)
            && (got.Some? ==> ShapedItem(last.value).Ok? && ShapedItem(last.value).value.value == got.value)
  {
    if items != [] {
      var before, item := items[..|items| - 1], items[|items| - 1];
      FieldLookup(before, name);
      if !item.kind.RecordItem? && item.required {
        GetPut(ShapedFields(before).value.fields, item.name, ShapedItem(item).value.value, name);
      }
    }
  }

  lemma {:induction false} RequiredPresent(items: seq<Item>, closed: bool, k: nat)
    requires PropertiesOf(items, closed).Ok? && k < |PropertiesOf(items, closed).value.required|
    ensures LastOf(items, PropertiesOf(items, closed).value.required[k], true).Some?
  {
    if items != [] {
      var before, item := items[..|items| - 1], items[|items| - 1];
      if k < |PropertiesOf(before, closed).value.required| {
        RequiredPresent(before, closed, k);
      }
    }
  }

  lemma {:induction false} PutKeepsDistinct(fields: seq<Field>, key: string, v: Json)
    requires DistinctKeys(fields)
    ensures DistinctKeys(Put(fields, key, v))
    ensures forall f :: f in Put(fields, key, v) ==> f == Field(key, v) || f in fields
  {
    if fields != [] && fields[0].key != key {
      var rest := fields[1..];
      assert forall i :: 0 <= i < |rest| ==> rest[i] == fields[i + 1];
      PutKeepsDistinct(rest, key, v);
      var put := Put(fields, key, v);
      assert put[1..] == Put(rest, key, v);
      forall i | 1 <= i < |put| ensures put[i].key != fields[0].key {
        assert put[i] in Put(rest, key, v);
      }
    }
  }

  lemma {:induction false} FieldsDistinct(items: seq<Item>)
    requires ShapedFields(items).Ok?
    ensures DistinctKeys(ShapedFields(items).value.fields)
    decreases |items|
  {
    if items != [] {
      var before, item := items[..|items| - 1], items[|items| - 1];
      FieldsDistinct(before);
      if !item.kind.RecordItem? && item.required {
        PutKeepsDistinct(ShapedFields(before).value.fields, item.name, ShapedItem(item).value.value);
      }
    }
  }

  lemma {:induction false} GetIndex(fields: seq<Field>, name: string) returns (k: nat)
    requires Get(fields, name).Some?
    ensures k < |fields| && fields[k].key == name && Some(fields[k].value) == Get(fields, name)
  {
    if fields[0].key == name {
      k := 0;
    } else {
      var j := GetIndex(fields[1..], name);
      k := j + 1;
    }
  }

  // ---------------------------------------------------------------- objects, name by name

  /** The schema of the last item of the name accepts what the members hold under it. */
  predicate Accepts(items: seq<Item>, closed: bool, fields: seq<Field>, name: string) {
    var got, kept := Get(fields, name), LastOf(items, name, false);
    got.Some? ==> kept.Some? && SchemaForItem(kept.value, closed).Ok?
                  && Valid(SchemaForItem(kept.value, closed).value, got.value)
  }

  /** The members have exactly the names of the placeholder. */
  ghost predicate NamedAlike(items: seq<Item>, fields: seq<Field>) {
    DistinctKeys(fields) && forall name :: Get(fields, name).Some? <==> LastOf(items, name, true).Some?
  }

  lemma FieldsByName(items: seq<Item>, closed: bool, fields: seq<Field>)
    requires PropertiesOf(items, closed).Ok? && NamedAlike(items, fields)
    ensures ValidFields(PropertiesOf(items, closed).value.properties, fields)
            <==> forall name :: Accepts(items, closed, fields, name)
  {
    var properties := PropertiesOf(items, closed).value.properties;
    if ValidFields(properties, fields) {
      forall name ensures Accepts(items, closed, fields, name) {
        PropertyLookup(items, closed, name);
        if Get(fields, name).Some? {
          LastRequiredIsNamed(items, name);
          var k := GetIndex(fields, name);
          assert IndexOfProperty(properties, fields[k].key) < |properties|;
        }
      }
    }
    if forall name :: Accepts(items, closed, fields, name) {
      forall k | 0 <= k < |fields|
        ensures var j := IndexOfProperty(properties, fields[k].key);
                j < |properties| ==> Valid(properties[j].schema, fields[k].value)
      {
        assert Accepts(items, closed, fields, fields[k].key);
        PropertyLookup(items, closed, fields[k].key);
        GetAtIndex(fields, k);
      }
    }
  }

  /** Every required name is present, and every name present is known. */
  lemma NamesMatch(items: seq<Item>, closed: bool, fields: seq<Field>)
    requires PropertiesOf(items, closed).Ok? && NamedAlike(items, fields)
    ensures var p := PropertiesOf(items, closed).value;
            && (forall k :: 0 <= k < |p.required| ==> Get(fields, p.required[k]).Some?)
            && (forall k :: 0 <= k < |fields| ==> IndexOfProperty(p.properties, fields[k].key) < |p.properties|)
  {
    var p := PropertiesOf(items, closed).value;
    forall k | 0 <= k < |p.required| ensures Get(fields, p.required[k]).Some? {
      RequiredPresent(items, closed, k);
    }
    forall k | 0 <= k < |fields| ensures IndexOfProperty(p.properties, fields[k].key) < |p.properties| {
      GetAtIndex(fields, k);
      LastRequiredIsNamed(items, fields[k].key);
      PropertyLookup(items, closed, fields[k].key);
    }
  }

  /** An object schema accepts exactly the members its properties accept; length bounds do not bind it. */
  lemma ObjectIsFields(p: Properties, closed: bool, fields: seq<Field>, low: Option<nat>, high: Option<nat>)
    requires forall k :: 0 <= k < |p.required| ==> Get(fields, p.required[k]).Some?
    requires forall k :: 0 <= k < |fields| ==> IndexOfProperty(p.properties, fields[k].key) < |p.properties|
    ensures Valid(Bounded(Typed(ObjectWord).(additional := Some(!closed), hasProperties := true,
                                             properties := p.properties, required := p.required), low, high),
                  Obj(fields))
            <==> ValidFields(p.properties, fields)
  {
  }

  lemma ObjectByName(items: seq<Item>, closed: bool, fields: seq<Field>, low: Option<nat>, high: Option<nat>)
    requires SchemaForItems(items, closed).Ok? && NamedAlike(items, fields)
    ensures Valid(Bounded(SchemaForItems(items, closed).value, low, high), Obj(fields))
            <==> forall name :: Accepts(items, closed, fields, name)
  {
    var p := PropertiesOf(items, closed).value;
    NamesMatch(items, closed, fields);
    FieldsByName(items, closed, fields);
    ObjectIsFields(p, closed, fields, low, high);
  }

  lemma ShapedNamedAlike(items: seq<Item>)
    requires ShapedFields(items).Ok?
    ensures NamedAlike(items, ShapedFields(items).value.fields)
  {
    FieldsDistinct(items);
    forall name ensures Get(ShapedFields(items).value.fields, name).Some? <==> LastOf(items, name, true).Some? {
      FieldLookup(items, name);
    }
  }

  // ---------------------------------------------------------------- the unmarked placeholder

  /** The schema of the last item of the name accepts the placeholder of the last required one. */
  predicate LastAccepts(items: seq<Item>, closed: bool, name: string) {
    var shown, kept := LastOf(items, name, true), LastOf(items, name, false);
    shown.Some? ==>
      && kept.Some? && SchemaForItem(kept.value, closed).Ok? && ShapedItem(shown.value).Ok?
      && Valid(SchemaForItem(kept.value, closed).value, ShapedItem(shown.value).value.value)
  }

  lemma AcceptsIsLast(items: seq<Item>, closed: bool, name: string)
    requires ShapedFields(items).Ok?
    ensures Accepts(items, closed, ShapedFields(items).value.fields, name) <==> LastAccepts(items, closed, name)
  {
    FieldLookup(items, name);
  }

  lemma ObjectIffLastAccepts(items: seq<Item>, closed: bool, low: Option<nat>, high: Option<nat>)
    requires SchemaForItems(items, closed).Ok? && ShapedItems(items).Ok?
    ensures Valid(Bounded(SchemaForItems(items, closed).value, low, high), ShapedItems(items).value.value)
            <==> forall name :: LastAccepts(items, closed, name)
  {
    var fields := ShapedFields(items).value.fields;
    ShapedNamedAlike(items);
    ObjectByName(items, closed, fields, low, high);
    forall name ensures Accepts(items, closed, fields, name) <==> LastAccepts(items, closed, name) {
      AcceptsIsLast(items, closed, name);
    }
  }

  /** For all items: the placeholder validates exactly when, name by name, last accepts last required. */
  lemma ValidIffLastAccepts(items: seq<Item>, closed: bool)
    requires SchemaForItems(items, closed).Ok? && ShapedItems(items).Ok?
    ensures Valid(SchemaForItems(items, closed).value, ShapedItems(items).value.value)
            <==> forall name :: LastAccepts(items, closed, name)
  {
    ObjectIffLastAccepts(items, closed, None, None);
    var schema := SchemaForItems(items, closed).value;
    assert Bounded(schema, None, None) == schema;
  }

  // ---------------------------------------------------------------- the marked placeholder

  /** The slot is that of the first item that has one. */
  lemma {:induction false} SlotIsFirst(items: seq<Item>)
    requires ShapedFields(items).Ok?
    ensures HasSlot(items) <==> FirstSlot(items).Some?
    ensures HasSlot(items) ==>
              ShapedFields(items).value.path.value ==
              [FirstSlot(items).value.name] + ShapedItem(FirstSlot(items).value).value.path.value
  {
    if items != [] {
      SlotIsFirst(items[..|items| - 1]);
    }
  }

  /**
   * What lands under the slot's name when the marker is written: the path of the
   * first item is followed in the placeholder of the last required one.
   */
  function WrittenSlot(items: seq<Item>, marker: string): Option<Json> {
    var first := FirstSlot(items);
    if first.None? then None
    else
      var shown := LastOf(items, first.value.name, true);
      if shown.None? || ShapedItem(shown.value).Err? then None
      else SetAt(ShapedItem(shown.value).value.value, ShapedItem(first.value).value.path.value, marker)
  }

  /** The write succeeds, and the last item of the slot's name and of every other name accept what is there. */
  ghost predicate MarkedLastAccepts(items: seq<Item>, closed: bool, marker: string) {
    var first, written := FirstSlot(items), WrittenSlot(items, marker);
    && first.Some? && written.Some?
    && var kept := LastOf(items, first.value.name, false);
    && kept.Some? && SchemaForItem(kept.value, closed).Ok?
    && Valid(SchemaForItem(kept.value, closed).value, written.value)
    && forall name :: name != first.value.name ==> LastAccepts(items, closed, name)
  }

  lemma WriteInFields(items: seq<Item>, marker: string)
    requires HasSlot(items)
    ensures var f, written := ShapedFields(items).value, WrittenSlot(items, marker);
            SetAt(Obj(f.fields), f.path.value, marker) ==
            if written.None? then None else Some(Obj(Put(f.fields, FirstSlot(items).value.name, written.value)))
  {
    SlotIsFirst(items);
    var first := FirstSlot(items).value;
    RequiredItemHasLast(items, first);
    FieldLookup(items, first.name);
    var path := ShapedItem(first).value.path.value;
    assert ([first.name] + path)[1..] == path;
  }

  lemma MarkedByName(items: seq<Item>, closed: bool, name: string, v: Json, other: string)
    requires ShapedFields(items).Ok?
    ensures other != name ==>
              (Accepts(items, closed, Put(ShapedFields(items).value.fields, name, v), other)
               <==> LastAccepts(items, closed, other))
    ensures Get(Put(ShapedFields(items).value.fields, name, v), name) == Some(v)
  {
    GetPut(ShapedFields(items).value.fields, name, v, other);
    GetPut(ShapedFields(items).value.fields, name, v, name);
    AcceptsIsLast(items, closed, other);
  }

  lemma MarkedNamedAlike(items: seq<Item>, name: string, v: Json)
    requires ShapedFields(items).Ok? && LastOf(items, name, true).Some?
    ensures NamedAlike(items, Put(ShapedFields(items).value.fields, name, v))
  {
    var fields := ShapedFields(items).value.fields;
    ShapedNamedAlike(items);
    PutKeepsDistinct(fields, name, v);
    forall other ensures Get(Put(fields, name, v), other).Some? <==> LastOf(items, other, true).Some? {
      GetPut(fields, name, v, other);
    }
  }

  /** With `v` under one name: that name's last item accepts it, and the other names accept as before. */
  lemma ReplacedByName(items: seq<Item>, closed: bool, name: string, v: Json, low: Option<nat>, high: Option<nat>)
    requires SchemaForItems(items, closed).Ok? && ShapedFields(items).Ok? && LastOf(items, name, true).Some?
    ensures var kept := LastOf(items, name, false);
            Valid(Bounded(SchemaForItems(items, closed).value, low, high),
                  Obj(Put(ShapedFields(items).value.fields, name, v)))
            <==> && kept.Some? && SchemaForItem(kept.value, closed).Ok?
                 && Valid(SchemaForItem(kept.value, closed).value, v)
                 && forall other :: other != name ==> LastAccepts(items, closed, other)
  {
    var marked := Put(ShapedFields(items).value.fields, name, v);
    MarkedNamedAlike(items, name, v);
    ObjectByName(items, closed, marked, low, high);
    forall other | other != name ensures Accepts(items, closed, marked, other) <==> LastAccepts(items, closed, other) {
      MarkedByName(items, closed, name, v, other);
    }
    MarkedByName(items, closed, name, v, name);
    assert Accepts(items, closed, marked, name) <==>
           var kept := LastOf(items, name, false);
           kept.Some? && SchemaForItem(kept.value, closed).Ok? && Valid(SchemaForItem(kept.value, closed).value, v);
  }

  /** Writing the marker along `path` succeeds and leaves a value the schema accepts. */
  predicate Marked(schema: Schema, v: Json, path: seq<string>, marker: string) {
    SetAt(v, path, marker).Some? && Valid(schema, SetAt(v, path, marker).value)
  }

  lemma ObjectMarkedIff(items: seq<Item>, closed: bool, low: Option<nat>, high: Option<nat>, marker: string)
    requires SchemaForItems(items, closed).Ok? && HasSlot(items)
    ensures Marked(Bounded(SchemaForItems(items, closed).value, low, high), ShapedItems(items).value.value,
                   ShapedItems(items).value.path.value, marker)
            <==> MarkedLastAccepts(items, closed, marker)
  {
    SlotIsFirst(items);
    WriteInFields(items, marker);
    var first, written := FirstSlot(items).value, WrittenSlot(items, marker);
    if written.Some? {
      ReplacedByName(items, closed, first.name, written.value, low, high);
    }
  }

  /**
   * What the generator checks, for all items: the marker can be written where
   * the slot points exactly when the path leads on in the last required item of
   * its name, and the marked placeholder passes exactly when, beyond that, the
   * last item of each name accepts what is under it.
   */
  lemma MarkedValidIffLastAccepts(items: seq<Item>, closed: bool, marker: string)
    requires SchemaForItems(items, closed).Ok? && HasSlot(items)
    ensures var shaped := ShapedItems(items).value;
            var marked := SetMarker(shaped.value, PointerText(shaped.path.value), marker);
            && (marked.Some? <==> WrittenSlot(items, marker).Some?)
            && (marked.Some? && Valid(SchemaForItems(items, closed).value, marked.value)
                <==> MarkedLastAccepts(items, closed, marker))
  {
    var shaped := ShapedItems(items).value;
    SlotIsFirst(items);
    WriteInFields(items, marker);
    ObjectMarkedIff(items, closed, None, None, marker);
    var schema := SchemaForItems(items, closed).value;
    assert Bounded(schema, None, None) == schema;
    SegmentsOfPointer(shaped.path.value);
  }
}

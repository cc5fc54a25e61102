/** Canonical JSON text is unambiguous, has no line break, and forgets only member order. */
module JsonLaws {
  import opened Wrappers
  import opened Json

  // ---------------------------------------------------------------- reading back strings and numbers

  lemma ReadEscaped(c: char, rest: string)
    requires Escape(c)[0] == '\\'
    ensures ReadEscape(Escape(c)[1..] + rest) == Got(c, rest)
  {
    var t := Escape(c)[1..] + rest;
    if |Escape(c)| == 2 {
      assert t[1..] == rest;
    } else {
      assert t[5..] == rest;
      assert "u00" <= t;
    }
  }

  lemma ReadCharText(c: char, rest: string)
    ensures ReadChar(Escape(c) + rest) == Got(c, rest) && Escape(c)[0] != '"'
  {
    var t := Escape(c) + rest;
    if Escape(c)[0] == '\\' {
      ReadEscaped(c, rest);
      assert t[1..] == Escape(c)[1..] + rest;
    } else {
      assert t[1..] == rest;
    }
  }

  lemma EscapeAllSplit(s: string, tail: string)
    requires s != ""
    ensures EscapeAll(s) + tail == Escape(s[0]) + (EscapeAll(s[1..]) + tail)
  {
  }

  lemma {:induction false} ReadQuotedChars(s: string, rest: string)
    ensures ReadChars(EscapeAll(s) + ("\"" + rest)) == Got(s, rest)
  {
    var tail := "\"" + rest;
    if s == "" {
      assert EscapeAll(s) + tail == tail;
      assert tail[1..] == rest;
    } else {
      calc {
        ReadChars(EscapeAll(s) + tail);
        { EscapeAllSplit(s, tail); }
        ReadChars(Escape(s[0]) + (EscapeAll(s[1..]) + tail));
        { ReadAfterChar(s[0], EscapeAll(s[1..]) + tail); ReadQuotedChars(s[1..], rest); }
        Got([s[0]] + s[1..], rest);
        { assert [s[0]] + s[1..] == s; }
        Got(s, rest);
      }
    }
  }

  lemma ReadAfterChar(c: char, t: string)
    ensures ReadChars(Escape(c) + t) ==
            if ReadChars(t).NoRead? then NoRead else Got([c] + ReadChars(t).value, ReadChars(t).rest)
  {
    ReadCharText(c, t);
    assert (Escape(c) + t)[0] == Escape(c)[0];
  }

  lemma ReadQuote(s: string, rest: string)
    ensures ReadQuoted(Quote(s) + rest) == Got(s, rest)
  {
    var t := Quote(s) + rest;
    assert t[1..] == EscapeAll(s) + ("\"" + rest);
    ReadQuotedChars(s, rest);
  }

  /** What may follow a number without being read as part of it. */
  predicate Delimited(rest: string) {
    rest == "" || !IsDigit(rest[0])
  }

  lemma ReadDigit(d: nat, rest: string, acc: nat)
    requires d < 10
    ensures ReadDigits([HexDigit(d)] + rest, acc) == ReadDigits(rest, acc * 10 + d)
  {
    assert ([HexDigit(d)] + rest)[1..] == rest;
  }

  lemma {:induction false} ReadDecimalInto(n: nat, rest: string)
    ensures Decimal(n) != "" && IsDigit(Decimal(n)[0])
    ensures ReadDigits(Decimal(n) + rest, 0) == ReadDigits(rest, n)
  {
    if n < 10 {
      ReadDigit(n, rest, 0);
    } else {
      var tens, d := n / 10, n % 10;
      ReadDecimalInto(tens, [HexDigit(d)] + rest);
      DecimalSplits(n, rest);
      ReadDigit(d, rest, tens);
    }
  }

  lemma DecimalSplits(n: nat, rest: string)
    requires n >= 10
    ensures Decimal(n) + rest == Decimal(n / 10) + ([HexDigit(n % 10)] + rest)
  {
  }

  lemma ReadDecimal(n: nat, rest: string)
    requires Delimited(rest)
    ensures ReadValue(Decimal(n) + rest) == Got(Num(n), rest)
  {
    ReadDecimalInto(n, rest);
    var t := Decimal(n) + rest;
    assert ReadDigits(t, 0) == ReadDigits(t[1..], t[0] as int - '0' as int);
    assert Skip(t, "null").None? && Skip(t, "true").None? && Skip(t, "false").None? by {
      assert t[0] != "null"[0] && t[0] != "true"[0] && t[0] != "false"[0];
    }
  }

  // ---------------------------------------------------------------- reading back values

  lemma ReadScalar(v: Json, rest: string)
    requires !v.Arr? && !v.Obj? && Delimited(rest)
    ensures ReadValue(Text(v) + rest) == Got(v, rest)
  {
    var t := Text(v) + rest;
    match v
    case Null => assert Skip(t, "null") == Some(rest);
    case Bool(b) =>
      assert t[0] != 'n';
      if b {
        assert Skip(t, "true") == Some(rest);
      } else {
        assert t[0] != 't';
        assert Skip(t, "false") == Some(rest);
      }
    case Num(n) => ReadDecimal(n, rest);
    case Str(s) =>
      assert t[0] == '"';
      ReadQuote(s, rest);
  }

  /** Reading undoes writing, whatever delimiter follows. */
  lemma {:induction false} ReadText(v: Json, rest: string)
    requires Delimited(rest)
    ensures ReadValue(Text(v) + rest) == Got(v, rest)
    decreases v, 0
  {
    match v
    case Arr(items) =>
      if items != [] {
        ReadItemsText(items, rest);
        FirstChar(items[0]);
      }
      ReadArrText(items, rest);
    case Obj(fields) =>
      if fields != [] { ReadFieldsText(fields, rest); }
      ReadObjText(fields, rest);
    case _ => ReadScalar(v, rest);
  }

  // One reading step at a time, on arbitrary text.

  lemma Regroup(open: string, inner: string, close: string, rest: string)
    ensures open + inner + close + rest == open + (inner + (close + rest))
  {
  }

  lemma ReadArrayStep(body: string)
    requires body != ""
    ensures body[0] == ']' ==> ReadValue("[" + body) == Got(Arr([]), body[1..])
    ensures body[0] != ']' && ReadItems(body).Got? ==>
              ReadValue("[" + body) == Got(Arr(ReadItems(body).value), ReadItems(body).rest)
  {
    var t := "[" + body;
    assert t[0] == '[' && t[1..] == body && t[2..] == body[1..];
  }

  lemma ReadObjectStep(body: string)
    requires body != ""
    ensures body[0] == '}' ==> ReadValue("{" + body) == Got(Obj([]), body[1..])
    ensures body[0] != '}' && ReadFields(body).Got? ==>
              ReadValue("{" + body) == Got(Obj(ReadFields(body).value), ReadFields(body).rest)
  {
    var t := "{" + body;
    assert t[0] == '{' && t[1..] == body && t[2..] == body[1..];
  }

  lemma ReadLastItem(t: string, v: Json, rest: string)
    requires ReadValue(t) == Got(v, "]" + rest)
    ensures ReadItems(t) == Got([v], rest)
  {
    assert ("]" + rest)[1..] == rest;
  }

  lemma ReadItemBefore(t: string, v: Json, more: string, items: seq<Json>, rest: string)
    requires ReadValue(t) == Got(v, "," + more) && ReadItems(more) == Got(items, rest)
    ensures ReadItems(t) == Got([v] + items, rest)
  {
    assert ("," + more)[1..] == more;
  }

  lemma ReadLastField(t: string, f: Field, rest: string)
    requires ReadField(t) == Got(f, "}" + rest)
    ensures ReadFields(t) == Got([f], rest)
  {
    assert ("}" + rest)[1..] == rest;
  }

  lemma ReadFieldBefore(t: string, f: Field, more: string, fields: seq<Field>, rest: string)
    requires ReadField(t) == Got(f, "," + more) && ReadFields(more) == Got(fields, rest)
    ensures ReadFields(t) == Got([f] + fields, rest)
  {
    assert ("," + more)[1..] == more;
  }

  lemma ReadArrText(items: seq<Json>, rest: string)
    requires items != [] ==> ReadItems(ItemsText(items) + ("]" + rest)) == Got(items, rest)
    requires items != [] ==> Text(items[0]) != "" && Text(items[0])[0] != ']'
    ensures ReadValue(Text(Arr(items)) + rest) == Got(Arr(items), rest)
  {
    var body := ItemsText(items) + ("]" + rest);
    Regroup("[", ItemsText(items), "]", rest);
    ReadArrayStep(body);
    if items == [] {
      assert body == "]" + rest && body[1..] == rest;
    } else {
      assert body[0] == Text(items[0])[0];
    }
  }

  lemma ReadObjText(fields: seq<Field>, rest: string)
    requires fields != [] ==> ReadFields(FieldsText(fields) + ("}" + rest)) == Got(fields, rest)
    ensures ReadValue(Text(Obj(fields)) + rest) == Got(Obj(fields), rest)
  {
    var body := FieldsText(fields) + ("}" + rest);
    Regroup("{", FieldsText(fields), "}", rest);
    ReadObjectStep(body);
    if fields == [] {
      assert body == "}" + rest && body[1..] == rest;
    } else {
      assert body[0] == FieldText(fields[0])[0] == '"';
    }
  }

  lemma FirstChar(v: Json)
    ensures Text(v) != "" && Text(v)[0] != ']'
  {
    if v.Num? { ReadDecimalInto(v.n, ""); }
  }

  lemma {:induction false} ReadItemsText(items: seq<Json>, rest: string)
    requires items != []
    ensures ReadItems(ItemsText(items) + ("]" + rest)) == Got(items, rest)
    decreases items, 1
  {
    if |items| == 1 {
      ReadText(items[0], "]" + rest);
      ReadLastItem(Text(items[0]) + ("]" + rest), items[0], rest);
      assert [items[0]] == items;
    } else {
      var more := ItemsText(items[1..]) + ("]" + rest);
      Regroup(Text(items[0]), ",", ItemsText(items[1..]), "]" + rest);
      ReadText(items[0], "," + more);
      ReadItemsText(items[1..], rest);
      ReadItemBefore(Text(items[0]) + ("," + more), items[0], more, items[1..], rest);
      assert [items[0]] + items[1..] == items;
    }
  }

  lemma {:induction false} ReadFieldText(f: Field, rest: string)
    requires Delimited(rest)
    ensures ReadField(FieldText(f) + rest) == Got(f, rest)
    decreases f, 1
  {
    var tail := ":" + (Text(f.value) + rest);
    Regroup(Quote(f.key), ":", Text(f.value), rest);
    ReadQuote(f.key, tail);
    assert tail[1..] == Text(f.value) + rest;
    ReadText(f.value, rest);
  }

  lemma {:induction false} ReadFieldsText(fields: seq<Field>, rest: string)
    requires fields != []
    ensures ReadFields(FieldsText(fields) + ("}" + rest)) == Got(fields, rest)
    decreases fields, 1
  {
    if |fields| == 1 {
      ReadFieldText(fields[0], "}" + rest);
      ReadLastField(FieldText(fields[0]) + ("}" + rest), fields[0], rest);
      assert [fields[0]] == fields;
    } else {
      var more := FieldsText(fields[1..]) + ("}" + rest);
      Regroup(FieldText(fields[0]), ",", FieldsText(fields[1..]), "}" + rest);
      ReadFieldText(fields[0], "," + more);
      ReadFieldsText(fields[1..], rest);
      ReadFieldBefore(FieldText(fields[0]) + ("," + more), fields[0], more, fields[1..], rest);
      assert [fields[0]] + fields[1..] == fields;
    }
  }

  /** `JSON.parse` returns exactly the value that was written. */
  lemma ParseText(v: Json)
    ensures Parse(Text(v)) == Some(v)
  {
    assert Text(v) + "" == Text(v);
    ReadText(v, "");
  }

  // ---------------------------------------------------------------- one line

  predicate OneLine(t: string) {
    forall i :: 0 <= i < |t| ==> t[i] != '\n'
  }

  lemma QuoteOneLine(s: string)
    ensures OneLine(Quote(s))
  {
    EscapeAllOneLine(s);
  }

  lemma EscapeAllOneLine(s: string)
    ensures OneLine(EscapeAll(s))
  {
    if s != "" { EscapeAllOneLine(s[1..]); }
  }

  lemma DecimalOneLine(n: nat)
    ensures OneLine(Decimal(n))
  {
    if n >= 10 { DecimalOneLine(n / 10); }
  }

  /** No value's text contains a line break, so one row is one line. */
  lemma {:induction false} TextOneLine(v: Json)
    ensures OneLine(Text(v)) && Text(v) != ""
    decreases v, 0
  {
    FirstChar(v);
    match v
    case Num(n) => DecimalOneLine(n);
    case Str(s) => QuoteOneLine(s);
    case Arr(items) => ItemsOneLine(items);
    case Obj(fields) => FieldsOneLine(fields);
    case _ =>
  }

  lemma {:induction false} ItemsOneLine(items: seq<Json>)
    ensures OneLine(ItemsText(items))
    decreases items, 1
  {
    if items != [] {
      TextOneLine(items[0]);
      ItemsOneLine(items[1..]);
    }
  }

  lemma {:induction false} FieldsOneLine(fields: seq<Field>)
    ensures OneLine(FieldsText(fields))
    decreases fields, 1
  {
    if fields != [] {
      QuoteOneLine(fields[0].key);
      TextOneLine(fields[0].value);
      assert OneLine(FieldText(fields[0]));
      FieldsOneLine(fields[1..]);
    }
  }

  // ---------------------------------------------------------------- sorting members

  predicate Ordered(fields: seq<Field>) {
    |fields| < 2 || (!Less(fields[1].key, fields[0].key) && Ordered(fields[1..]))
  }

  predicate AllSorted(fields: seq<Field>) {
    forall i :: 0 <= i < |fields| ==> Sorted(fields[i].value) == fields[i].value
  }

  lemma InsertOrdered(f: Field, fields: seq<Field>)
    requires Ordered(fields)
    ensures Ordered(Insert(f, fields))
  {
    if fields != [] {
      LessTotal(fields[0].key, f.key);
      if Less(fields[0].key, f.key) { InsertOrdered(f, fields[1..]); }
    }
  }

  lemma InsertAllSorted(f: Field, fields: seq<Field>)
    requires AllSorted(fields) && Sorted(f.value) == f.value
    ensures AllSorted(Insert(f, fields))
  {
    if fields != [] && Less(fields[0].key, f.key) { InsertAllSorted(f, fields[1..]); }
  }

  lemma {:induction false} SortedFieldsOrdered(fields: seq<Field>)
    ensures Ordered(SortedFields(fields))
  {
    if fields != [] {
      SortedFieldsOrdered(fields[1..]);
      InsertOrdered(Field(fields[0].key, Sorted(fields[0].value)), SortedFields(fields[1..]));
    }
  }

  lemma {:induction false} OrderedIsFixed(fields: seq<Field>)
    requires Ordered(fields) && AllSorted(fields)
    ensures SortedFields(fields) == fields
  {
    if fields != [] {
      OrderedIsFixed(fields[1..]);
      assert Field(fields[0].key, Sorted(fields[0].value)) == fields[0];
      assert fields == [fields[0]] + fields[1..];
    }
  }

  /** Sorting twice is sorting once: canonical text is its own canonical form. */
  lemma {:induction false} SortedIdempotent(v: Json)
    ensures Sorted(Sorted(v)) == Sorted(v)
    decreases v, 0
  {
    match v
    case Arr(items) => SortedItemsIdempotent(items);
    case Obj(fields) =>
      SortedFieldsOrdered(fields);
      SortedFieldsSorted(fields);
      OrderedIsFixed(SortedFields(fields));
    case _ =>
  }

  lemma {:induction false} SortedItemsIdempotent(items: seq<Json>)
    ensures SortedItems(SortedItems(items)) == SortedItems(items)
    decreases items, 1
  {
    if items != [] {
      SortedIdempotent(items[0]);
      SortedItemsIdempotent(items[1..]);
      assert SortedItems(items)[1..] == SortedItems(items[1..]);
    }
  }

  lemma {:induction false} SortedFieldsSorted(fields: seq<Field>)
    ensures AllSorted(SortedFields(fields))
    decreases fields, 1
  {
    if fields != [] {
      SortedIdempotent(fields[0].value);
      SortedFieldsSorted(fields[1..]);
      InsertAllSorted(Field(fields[0].key, Sorted(fields[0].value)), SortedFields(fields[1..]));
    }
  }

  lemma GetInserted(f: Field, fields: seq<Field>, key: string)
    ensures Get(Insert(f, fields), key) == if f.key == key then Some(f.value) else Get(fields, key)
  {
    if fields != [] && Less(fields[0].key, f.key) {
      LessTotal(fields[0].key, f.key);
      assert Insert(f, fields)[1..] == Insert(f, fields[1..]);
      GetInserted(f, fields[1..], key);
    } else {
      assert ([f] + fields)[1..] == fields;
    }
  }

  /** Sorting does not change what a key holds. */
  lemma {:induction false} GetSorted(fields: seq<Field>, key: string)
    ensures Get(SortedFields(fields), key) ==
            if Get(fields, key).None? then None else Some(Sorted(Get(fields, key).value))
  {
    if fields != [] {
      GetSorted(fields[1..], key);
      GetInserted(Field(fields[0].key, Sorted(fields[0].value)), SortedFields(fields[1..]), key);
    }
  }

  /** Every key of an ordered list is at least the first. */
  lemma WithoutOrdered(fields: seq<Field>, key: string, bound: string)
    requires Ordered(fields) && fields != [] && !Less(fields[0].key, bound)
    ensures var rest := Without(fields, key); rest == [] || !Less(rest[0].key, bound)
  {
    if |fields| > 1 {
      LessTransitive(bound, fields[0].key, fields[1].key);
      WithoutOrdered(fields[1..], key, bound);
    }
  }

  lemma {:induction false} WithoutInserted(f: Field, fields: seq<Field>, key: string)
    requires Ordered(fields)
    ensures Without(Insert(f, fields), key) ==
            if f.key == key then Without(fields, key) else Insert(f, Without(fields, key))
  {
    if fields == [] {
      assert ([f] + fields)[1..] == [];
    } else if Less(fields[0].key, f.key) {
      assert Insert(f, fields)[1..] == Insert(f, fields[1..]);
      LessTotal(fields[0].key, f.key);
      WithoutInserted(f, fields[1..], key);
      if fields[0].key != key && f.key != key {
        assert Without(fields, key)[1..] == Without(fields[1..], key);
      }
    } else {
      assert ([f] + fields)[1..] == fields;
      WithoutOrdered(fields, key, f.key);
    }
  }

  /** Dropping a member commutes with sorting. */
  lemma {:induction false} WithoutSorted(fields: seq<Field>, key: string)
    ensures Without(SortedFields(fields), key) == SortedFields(Without(fields, key))
  {
    if fields != [] {
      WithoutSorted(fields[1..], key);
      SortedFieldsOrdered(fields[1..]);
      WithoutInserted(Field(fields[0].key, Sorted(fields[0].value)), SortedFields(fields[1..]), key);
      if fields[0].key != key {
        assert Without(fields, key)[1..] == Without(fields[1..], key);
      }
    }
  }

  // ---------------------------------------------------------------- distinct keys

  lemma {:induction false} GetAtIndex(fields: seq<Field>, i: nat)
    requires DistinctKeys(fields) && i < |fields|
    ensures Get(fields, fields[i].key) == Some(fields[i].value)
  {
    if i > 0 {
      GetAtIndex(fields[1..], i - 1);
    }
  }

  lemma UniqueCons(f: Field, rest: seq<Field>)
    ensures UniqueKeys(Obj([f] + rest)) <==> FieldFree(rest, f.key) && UniqueKeys(f.value) && UniqueKeys(Obj(rest))
  {
    var all := [f] + rest;
    assert all[0] == f && forall i :: 0 <= i < |rest| ==> all[i + 1] == rest[i];
    if UniqueKeys(Obj(all)) {
      forall i | 0 <= i < |rest| ensures rest[i].key != f.key && UniqueKeys(rest[i].value) {
        assert all[i + 1].key != all[0].key;
      }
      forall i, j | 0 <= i < j < |rest| ensures rest[i].key != rest[j].key {
        assert all[i + 1].key != all[j + 1].key;
      }
    }
    if FieldFree(rest, f.key) && UniqueKeys(f.value) && UniqueKeys(Obj(rest)) {
      forall i | 0 <= i < |all| ensures UniqueKeys(all[i].value) {
        assert i > 0 ==> all[i] == rest[i - 1];
      }
    }
  }

  lemma {:induction false} FreeInserted(f: Field, fields: seq<Field>, key: string)
    ensures FieldFree(Insert(f, fields), key) <==> f.key != key && FieldFree(fields, key)
  {
    var r := Insert(f, fields);
    if fields == [] || !Less(fields[0].key, f.key) {
      assert r[0] == f && forall i :: 0 <= i < |fields| ==> r[i + 1] == fields[i];
    } else {
      var rest := Insert(f, fields[1..]);
      FreeInserted(f, fields[1..], key);
      assert r[0] == fields[0] && forall i :: 0 <= i < |rest| ==> r[i + 1] == rest[i];
      assert forall i :: 0 <= i < |fields[1..]| ==> fields[1..][i] == fields[i + 1];
    }
  }

  lemma {:induction false} UniqueInserted(f: Field, fields: seq<Field>)
    ensures UniqueKeys(Obj(Insert(f, fields))) <==>
            FieldFree(fields, f.key) && UniqueKeys(f.value) && UniqueKeys(Obj(fields))
  {
    if fields == [] || !Less(fields[0].key, f.key) {
      UniqueCons(f, fields);
    } else {
      UniqueInserted(f, fields[1..]);
      FreeInserted(f, fields[1..], fields[0].key);
      UniqueCons(fields[0], Insert(f, fields[1..]));
      assert fields == [fields[0]] + fields[1..];
      UniqueCons(fields[0], fields[1..]);
      assert forall i :: 0 <= i < |fields[1..]| ==> fields[1..][i] == fields[i + 1];
    }
  }

  lemma {:induction false} FreeSorted(fields: seq<Field>, key: string)
    ensures FieldFree(SortedFields(fields), key) <==> FieldFree(fields, key)
  {
    if fields != [] {
      FreeSorted(fields[1..], key);
      FreeInserted(Field(fields[0].key, Sorted(fields[0].value)), SortedFields(fields[1..]), key);
      assert forall i :: 0 <= i < |fields[1..]| ==> fields[1..][i] == fields[i + 1];
    }
  }

  /** Sorting members neither hides nor creates a repeated key. */
  lemma {:induction false} UniqueSorted(v: Json)
    ensures UniqueKeys(Sorted(v)) <==> UniqueKeys(v)
    decreases v, 0
  {
    match v
    case Arr(items) => UniqueSortedItems(items);
    case Obj(fields) => UniqueSortedFields(fields);
    case _ =>
  }

  lemma {:induction false} UniqueSortedItems(items: seq<Json>)
    ensures UniqueKeys(Arr(SortedItems(items))) <==> UniqueKeys(Arr(items))
    decreases items, 1
  {
    if items != [] {
      UniqueSorted(items[0]);
      UniqueSortedItems(items[1..]);
      UniqueHead(items);
      UniqueHead(SortedItems(items));
      assert SortedItems(items)[1..] == SortedItems(items[1..]);
    }
  }

  lemma UniqueHead(items: seq<Json>)
    requires items != []
    ensures UniqueKeys(Arr(items)) <==> UniqueKeys(items[0]) && UniqueKeys(Arr(items[1..]))
  {
    var rest := items[1..];
    assert forall i :: 0 <= i < |rest| ==> rest[i] == items[i + 1];
    if UniqueKeys(items[0]) && UniqueKeys(Arr(rest)) {
      forall i | 0 <= i < |items| ensures UniqueKeys(items[i]) {
        assert i > 0 ==> items[i] == rest[i - 1];
      }
    }
  }

  lemma {:induction false} UniqueSortedFields(fields: seq<Field>)
    ensures UniqueKeys(Obj(SortedFields(fields))) <==> UniqueKeys(Obj(fields))
    decreases fields, 1
  {
    if fields != [] {
      var f, rest := fields[0], fields[1..];
      UniqueSorted(f.value);
      UniqueSortedFields(rest);
      FreeSorted(rest, f.key);
      UniqueInserted(Field(f.key, Sorted(f.value)), SortedFields(rest));
      assert fields == [f] + rest;
      UniqueCons(f, rest);
    }
  }
}

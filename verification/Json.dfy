/**
 * JSON values and the journal's canonical text (`canonicalJournalJson` in
 * src/ownership-journal.ts). An object is the list of its members in insertion
 * order, as JavaScript keeps it; canonical text sorts members by key.
 */
module Json {
  import opened Wrappers

  datatype Json =
    | Null
    | Bool(b: bool)
    | Num(n: nat)
    | Str(s: string)
    | Arr(items: seq<Json>)
    | Obj(fields: seq<Field>)

  datatype Field = Field(key: string, value: Json)

  // ---------------------------------------------------------------- members

  function Get(fields: seq<Field>, key: string): Option<Json> {
    if fields == [] then None
    else if fields[0].key == key then Some(fields[0].value)
    else Get(fields[1..], key)
  }

  function Without(fields: seq<Field>, key: string): seq<Field> {
    if fields == [] then []
    else if fields[0].key == key then Without(fields[1..], key)
    else [fields[0]] + Without(fields[1..], key)
  }

  predicate FieldFree(fields: seq<Field>, key: string) {
    forall k :: 0 <= k < |fields| ==> fields[k].key != key
  }

  predicate DistinctKeys(fields: seq<Field>) {
    forall i, j :: 0 <= i < j < |fields| ==> fields[i].key != fields[j].key
  }

  /** Objects have distinct keys, as JavaScript objects do. */
  predicate UniqueKeys(v: Json)
    decreases v
  {
    match v
    case Arr(items) => forall i :: 0 <= i < |items| ==> UniqueKeys(items[i])
    case Obj(fields) => DistinctKeys(fields) && forall i :: 0 <= i < |fields| ==> UniqueKeys(fields[i].value)
    case _ => true
  }

  // ---------------------------------------------------------------- key order

  /** `compareUtf8`: the order of UTF-8 bytes is the order of scalar values. */
  predicate Less(a: string, b: string) {
    if b == "" then false
    else if a == "" then true
    else if a[0] != b[0] then a[0] < b[0]
    else Less(a[1..], b[1..])
  }

  lemma LessTotal(a: string, b: string)
    ensures Less(a, b) || a == b || Less(b, a)
    ensures !(Less(a, b) && Less(b, a)) && !Less(a, a)
  {
    if a != "" && b != "" && a[0] == b[0] {
      LessTotal(a[1..], b[1..]);
      assert a == [a[0]] + a[1..] && b == [b[0]] + b[1..];
    }
  }

  lemma LessTransitive(a: string, b: string, c: string)
    requires !Less(b, a) && !Less(c, b)
    ensures !Less(c, a)
  {
    LessTotal(a, b);
    LessTotal(b, c);
    if a != "" && b != "" && c != "" && a[0] == b[0] == c[0] {
      LessTransitive(a[1..], b[1..], c[1..]);
    }
  }

  // ---------------------------------------------------------------- canonical form

  /** Puts a member before the first one whose key is not smaller. */
  function Insert(f: Field, fields: seq<Field>): seq<Field> {
    if fields == [] || !Less(fields[0].key, f.key) then [f] + fields
    else [fields[0]] + Insert(f, fields[1..])
  }

  function Sorted(v: Json): Json
    decreases v, 0
  {
    match v
    case Arr(items) => Arr(SortedItems(items))
    case Obj(fields) => Obj(SortedFields(fields))
    case _ => v
  }

  function SortedItems(items: seq<Json>): (r: seq<Json>)
    ensures |r| == |items|
    decreases items, 1
  {
    if items == [] then [] else [Sorted(items[0])] + SortedItems(items[1..])
  }

  function SortedFields(fields: seq<Field>): seq<Field>
    decreases fields, 1
  {
    if fields == [] then []
    else Insert(Field(fields[0].key, Sorted(fields[0].value)), SortedFields(fields[1..]))
  }

  // ---------------------------------------------------------------- text

  function HexDigit(n: nat): char
    requires n < 16
  {
    "0123456789abcdef"[n]
  }

  /** `JSON.stringify` on one character of a string. */
  function Escape(c: char): (r: string)
    ensures r != ""
  {
    if c == '"' then "\\\""
    else if c == '\\' then "\\\\"
    else if c == '\U{8}' then "\\b"
    else if c == '\t' then "\\t"
    else if c == '\n' then "\\n"
    else if c == '\U{c}' then "\\f"
    else if c == '\r' then "\\r"
    else if c < ' ' then "\\u00" + [HexDigit(c as int / 16), HexDigit(c as int % 16)]
    else [c]
  }

  function EscapeAll(s: string): string {
    if s == "" then "" else Escape(s[0]) + EscapeAll(s[1..])
  }

  function Quote(s: string): string {
    "\"" + EscapeAll(s) + "\""
  }

  function Decimal(n: nat): string {
    if n < 10 then [HexDigit(n)] else Decimal(n / 10) + [HexDigit(n % 10)]
  }

  /** `JSON.stringify`: members in the order they are held. */
  function Text(v: Json): string
    decreases v, 0
  {
    match v
    case Null => "null"
    case Bool(b) => if b then "true" else "false"
    case Num(n) => Decimal(n)
    case Str(s) => Quote(s)
    case Arr(items) => "[" + ItemsText(items) + "]"
    case Obj(fields) => "{" + FieldsText(fields) + "}"
  }

  function ItemsText(items: seq<Json>): string
    decreases items, 1
  {
    if items == [] then ""
    else if |items| == 1 then Text(items[0])
    else Text(items[0]) + "," + ItemsText(items[1..])
  }

  function FieldsText(fields: seq<Field>): string
    decreases fields, 1
  {
    if fields == [] then ""
    else if |fields| == 1 then FieldText(fields[0])
    else FieldText(fields[0]) + "," + FieldsText(fields[1..])
  }

  function FieldText(f: Field): string
    decreases f, 1
  {
    Quote(f.key) + ":" + Text(f.value)
  }

  function Canonical(v: Json): string {
    Text(Sorted(v))
  }

  // ---------------------------------------------------------------- reading text back

  datatype Read<T> = NoRead | Got(value: T, rest: string)

  function UnHex(c: char): Option<nat> {
    if '0' <= c <= '9' then Some(c as int - '0' as int)
    else if 'a' <= c <= 'f' then Some(c as int - 'a' as int + 10)
    else None
  }

  /** The character an escape spells, given what follows the backslash. */
  function ReadEscape(t: string): (r: Read<char>)
    ensures r.Got? ==> |r.rest| < |t|
  {
    if t == "" then NoRead
    else if t[0] == '"' || t[0] == '\\' then Got(t[0], t[1..])
    else if t[0] == 'b' then Got('\U{8}', t[1..])
    else if t[0] == 't' then Got('\t', t[1..])
    else if t[0] == 'n' then Got('\n', t[1..])
    else if t[0] == 'f' then Got('\U{c}', t[1..])
    else if t[0] == 'r' then Got('\r', t[1..])
    else if "u00" <= t && |t| >= 5 && UnHex(t[3]).Some? && UnHex(t[4]).Some? then
      Got((UnHex(t[3]).value * 16 + UnHex(t[4]).value) as char, t[5..])
    else NoRead
  }

  function ReadChar(t: string): (r: Read<char>)
    ensures r.Got? ==> |r.rest| < |t|
  {
    if t == "" || t[0] < ' ' then NoRead
    else if t[0] == '\\' then ReadEscape(t[1..])
    else Got(t[0], t[1..])
  }

  /** The characters of a string up to its closing quote. */
  function ReadChars(t: string): (r: Read<string>)
    ensures r.Got? ==> |r.rest| < |t|
    decreases |t|
  {
    if t == "" then NoRead
    else if t[0] == '"' then Got("", t[1..])
    else
      var first := ReadChar(t);
      if first.NoRead? then NoRead
      else
        var more := ReadChars(first.rest);
        if more.NoRead? then NoRead else Got([first.value] + more.value, more.rest)
  }

  function ReadQuoted(t: string): (r: Read<string>)
    ensures r.Got? ==> |r.rest| < |t|
  {
    if t != "" && t[0] == '"' then ReadChars(t[1..]) else NoRead
  }

  predicate IsDigit(c: char) {
    '0' <= c <= '9'
  }

  function ReadDigits(t: string, acc: nat): (r: Read<nat>)
    ensures r.Got? && |r.rest| <= |t|
  {
    if t != "" && IsDigit(t[0]) then ReadDigits(t[1..], acc * 10 + (t[0] as int - '0' as int)) else Got(acc, t)
  }

  /** Drops a literal off the front of the text. */
  function Skip(t: string, literal: string): Option<string> {
    if literal <= t then Some(t[|literal|..]) else None
  }

  /** The values canonical text can spell; any other text fails the canonical comparison later. */
  function ReadValue(t: string): (r: Read<Json>)
    ensures r.Got? ==> |r.rest| < |t|
    decreases |t|, 0
  {
    if t == "" then NoRead
    else if Skip(t, "null").Some? then Got(Null, Skip(t, "null").value)
    else if Skip(t, "true").Some? then Got(Bool(true), Skip(t, "true").value)
    else if Skip(t, "false").Some? then Got(Bool(false), Skip(t, "false").value)
    else if t[0] == '"' then
      var s := ReadQuoted(t);
      if s.NoRead? then NoRead else Got(Str(s.value), s.rest)
    else if IsDigit(t[0]) then
      var n := ReadDigits(t[1..], t[0] as int - '0' as int);
      Got(Num(n.value), n.rest)
    else if t[0] == '[' then
      if Skip(t[1..], "]").Some? then Got(Arr([]), t[2..])
      else
        var items := ReadItems(t[1..]);
        if items.NoRead? then NoRead else Got(Arr(items.value), items.rest)
    else if t[0] == '{' then
      if Skip(t[1..], "}").Some? then Got(Obj([]), t[2..])
      else
        var fields := ReadFields(t[1..]);
        if fields.NoRead? then NoRead else Got(Obj(fields.value), fields.rest)
    else NoRead
  }

  function ReadItems(t: string): (r: Read<seq<Json>>)
    ensures r.Got? ==> |r.rest| < |t|
    decreases |t|, 1
  {
    var first := ReadValue(t);
    if first.NoRead? || first.rest == "" then NoRead
    else if first.rest[0] == ']' then Got([first.value], first.rest[1..])
    else if first.rest[0] == ',' then
      var more := ReadItems(first.rest[1..]);
      if more.NoRead? then NoRead else Got([first.value] + more.value, more.rest)
    else NoRead
  }

  function ReadField(t: string): (r: Read<Field>)
    ensures r.Got? ==> |r.rest| < |t|
    decreases |t|, 1
  {
    var key := ReadQuoted(t);
    if key.NoRead? || key.rest == "" || key.rest[0] != ':' then NoRead
    else
      var value := ReadValue(key.rest[1..]);
      if value.NoRead? then NoRead else Got(Field(key.value, value.value), value.rest)
  }

  function ReadFields(t: string): (r: Read<seq<Field>>)
    ensures r.Got? ==> |r.rest| < |t|
    decreases |t|, 2
  {
    var first := ReadField(t);
    if first.NoRead? || first.rest == "" then NoRead
    else if first.rest[0] == '}' then Got([first.value], first.rest[1..])
    else if first.rest[0] == ',' then
      var more := ReadFields(first.rest[1..]);
      if more.NoRead? then NoRead else Got([first.value] + more.value, more.rest)
    else NoRead
  }

  /** `JSON.parse` on the texts the journal can hold. */
  function Parse(t: string): Option<Json> {
    var r := ReadValue(t);
    if r.Got? && r.rest == "" then Some(r.value) else None
  }
}

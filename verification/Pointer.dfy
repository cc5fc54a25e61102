/**
 * JSON Pointers (sections 3 and 4 of RFC 6901) as the generator and the bridge
 * use them (codegen/src/emit.rs, src/generated/child-control-bridge.ts).
 */
module Pointer {
  import opened Wrappers
  import opened Json
  import opened Splitting

  // ---------------------------------------------------------------- escaping

  /** `replace` / `replaceAll`: non-overlapping occurrences, left to right. */
  function Replace(t: string, pattern: string, sub: string): string
    requires pattern != ""
  {
    if t == "" then ""
    else if pattern <= t then sub + Replace(t[|pattern|..], pattern, sub)
    else [t[0]] + Replace(t[1..], pattern, sub)
  }

  /** `pointer_segment` */
  function EscapeSegment(s: string): string {
    Replace(Replace(s, "~", "~0"), "/", "~1")
  }

  function UnescapeSegment(s: string): string {
    Replace(Replace(s, "~1", "/"), "~0", "~")
  }

  /** The tildes escaped, one character at a time. */
  function Tildes(s: string): string {
    if s == "" then "" else (if s[0] == '~' then "~0" else [s[0]]) + Tildes(s[1..])
  }

  function Escapes(s: string): string {
    if s == "" then ""
    else (if s[0] == '~' then "~0" else if s[0] == '/' then "~1" else [s[0]]) + Escapes(s[1..])
  }

  lemma ReplaceSkip(c: char, rest: string, pattern: string, sub: string)
    requires pattern != "" && pattern[0] != c
    ensures Replace([c] + rest, pattern, sub) == [c] + Replace(rest, pattern, sub)
  {
    var t := [c] + rest;
    assert t[1..] == rest;
    assert t[0] == c;
  }

  lemma ReplaceHit(pattern: string, rest: string, sub: string)
    requires pattern != ""
    ensures Replace(pattern + rest, pattern, sub) == sub + Replace(rest, pattern, sub)
  {
    assert (pattern + rest)[|pattern|..] == rest;
  }

  /** A two-character pattern does not match where the second character differs. */
  lemma ReplaceMiss(a: char, b: char, rest: string, pattern: string, sub: string)
    requires |pattern| == 2 && pattern[0] == a && pattern[1] != b && b != a
    ensures Replace([a, b] + rest, pattern, sub) == [a, b] + Replace(rest, pattern, sub)
  {
    var t := [a, b] + rest;
    assert t[1..] == [b] + rest;
    assert t[1] == b;
    assert !(pattern <= t);
    ReplaceSkip(b, rest, pattern, sub);
    assert [a] + ([b] + Replace(rest, pattern, sub)) == [a, b] + Replace(rest, pattern, sub);
  }

  lemma {:induction false} EscapeIsCharwise(s: string)
    ensures Replace(s, "~", "~0") == Tildes(s) && Replace(Tildes(s), "/", "~1") == Escapes(s)
  {
    if s != "" {
      var rest := s[1..];
      EscapeIsCharwise(rest);
      assert s == [s[0]] + rest;
      if s[0] == '~' {
        ReplaceHit("~", rest, "~0");
        assert "~0" + Tildes(rest) == ['~'] + (['0'] + Tildes(rest));
        ReplaceSkip('~', ['0'] + Tildes(rest), "/", "~1");
        ReplaceSkip('0', Tildes(rest), "/", "~1");
        assert ['~'] + (['0'] + Escapes(rest)) == "~0" + Escapes(rest);
      } else {
        ReplaceSkip(s[0], rest, "~", "~0");
        if s[0] == '/' {
          ReplaceHit("/", Tildes(rest), "~1");
        } else {
          ReplaceSkip(s[0], Tildes(rest), "/", "~1");
        }
      }
    }
  }

  lemma {:induction false} UnescapeIsCharwise(s: string)
    ensures Replace(Escapes(s), "~1", "/") == Tildes(s) && Replace(Tildes(s), "~0", "~") == s
  {
    if s != "" {
      var rest := s[1..];
      UnescapeIsCharwise(rest);
      assert s == [s[0]] + rest;
      if s[0] == '~' {
        ReplaceMiss('~', '0', Escapes(rest), "~1", "/");
        ReplaceHit("~0", Tildes(rest), "~");
      } else if s[0] == '/' {
        ReplaceHit("~1", Escapes(rest), "/");
        ReplaceSkip('/', Tildes(rest), "~0", "~");
      } else {
        ReplaceSkip(s[0], Escapes(rest), "~1", "/");
        ReplaceSkip(s[0], Tildes(rest), "~0", "~");
      }
    }
  }

  lemma {:induction false} EscapesHaveNoSlash(s: string)
    ensures '/' !in Escapes(s)
  {
    if s != "" {
      EscapesHaveNoSlash(s[1..]);
    }
  }

  /** Escaping undoes itself, and leaves no separator behind. */
  lemma UnescapeEscape(s: string)
    ensures UnescapeSegment(EscapeSegment(s)) == s && '/' !in EscapeSegment(s)
  {
    EscapeIsCharwise(s);
    UnescapeIsCharwise(s);
    EscapesHaveNoSlash(s);
  }

  // ---------------------------------------------------------------- pointers

  /** Each part after a slash. */
  function Slashed(parts: seq<string>): string {
    if parts == [] then "" else "/" + parts[0] + Slashed(parts[1..])
  }

  function EscapePath(path: seq<string>): seq<string> {
    if path == [] then [] else [EscapeSegment(path[0])] + EscapePath(path[1..])
  }

  function UnescapePath(parts: seq<string>): seq<string> {
    if parts == [] then [] else [UnescapeSegment(parts[0])] + UnescapePath(parts[1..])
  }

  function PointerText(path: seq<string>): string {
    Slashed(EscapePath(path))
  }

  function Segments(pointer: string): Option<seq<string>> {
    if pointer == "" || pointer[0] != '/' then None else Some(UnescapePath(Split(pointer[1..], '/')))
  }

  lemma {:induction false} SplitSlashed(parts: seq<string>)
    requires parts != [] && forall k :: 0 <= k < |parts| ==> '/' !in parts[k]
    ensures Split(Slashed(parts)[1..], '/') == parts
  {
    var head, more := parts[0], Slashed(parts[1..]);
    assert Slashed(parts)[1..] == head + more;
    if |parts| == 1 {
      assert head + more == head;
      SplitWhole(head, '/');
    } else {
      SplitSlashed(parts[1..]);
      assert more == ['/'] + more[1..];
      assert head + more == head + ['/'] + more[1..];
      SplitFirst(head, '/', more[1..]);
    }
  }

  lemma {:induction false} UnescapeEscapePath(path: seq<string>)
    ensures UnescapePath(EscapePath(path)) == path && |EscapePath(path)| == |path|
    ensures forall k :: 0 <= k < |path| ==> '/' !in EscapePath(path)[k]
  {
    if path != [] {
      UnescapeEscapePath(path[1..]);
      UnescapeEscape(path[0]);
      assert EscapePath(path)[1..] == EscapePath(path[1..]);
    }
  }

  /** A pointer reads back as the path it was written from. */
  lemma SegmentsOfPointer(path: seq<string>)
    requires path != []
    ensures Segments(PointerText(path)) == Some(path)
  {
    UnescapeEscapePath(path);
    SplitSlashed(EscapePath(path));
  }

  // ---------------------------------------------------------------- reading and writing

  predicate Digits(s: string) {
    s != "" && forall i :: 0 <= i < |s| ==> IsDigit(s[i])
  }

  /** An array index written in decimal digits. */
  function Offset(segment: string): Option<nat> {
    if Digits(segment) then Some(ReadDigits(segment, 0).value) else None
  }

  /** `insert`: replaces the member, or adds it at the end. */
  function Put(fields: seq<Field>, key: string, value: Json): seq<Field> {
    if fields == [] then [Field(key, value)]
    else if fields[0].key == key then [Field(key, value)] + fields[1..]
    else [fields[0]] + Put(fields[1..], key, value)
  }

  function GetAt(v: Json, path: seq<string>): Option<Json>
    decreases |path|
  {
    if path == [] then Some(v)
    else
      var child := Child(v, path[0]);
      if child.None? then None else GetAt(child.value, path[1..])
  }

  function Child(v: Json, segment: string): Option<Json> {
    match v
    case Obj(fields) => Get(fields, segment)
    case Arr(items) =>
      var offset := Offset(segment);
      if offset.None? || offset.value >= |items| then None else Some(items[offset.value])
    case _ => None
  }

  function WithChild(v: Json, segment: string, child: Json): Json
    requires Child(v, segment).Some?
  {
    match v
    case Obj(fields) => Obj(Put(fields, segment, child))
    case Arr(items) => Arr(items[Offset(segment).value := child])
  }

  /** `set_placeholder_marker` / `setPointer` below the root: None where the path leads nowhere. */
  function SetAt(v: Json, path: seq<string>, marker: string): Option<Json>
    decreases |path|
  {
    if path == [] then Some(Str(marker))
    else
      var child := Child(v, path[0]);
      if child.None? then None
      else
        var below := SetAt(child.value, path[1..], marker);
        if below.None? then None else Some(WithChild(v, path[0], below.value))
  }

  function SetMarker(v: Json, pointer: string, marker: string): Option<Json> {
    var path := Segments(pointer);
    if path.None? then None else SetAt(v, path.value, marker)
  }

  lemma GetPut(fields: seq<Field>, key: string, value: Json, k: string)
    ensures Get(Put(fields, key, value), k) == if k == key then Some(value) else Get(fields, k)
  {
    if fields != [] && fields[0].key != key {
      GetPut(fields[1..], key, value, k);
    } else if fields != [] {
      assert ([Field(key, value)] + fields[1..])[1..] == fields[1..];
    }
  }

  /** The write succeeds exactly where the path leads somewhere, and the marker is then read back. */
  lemma {:induction false} SetThenGet(v: Json, path: seq<string>, marker: string)
    ensures SetAt(v, path, marker).Some? <==> GetAt(v, path).Some?
    ensures SetAt(v, path, marker).Some? ==> GetAt(SetAt(v, path, marker).value, path) == Some(Str(marker))
    decreases |path|
  {
    if path != [] {
      var child := Child(v, path[0]);
      if child.Some? {
        SetThenGet(child.value, path[1..], marker);
        var below := SetAt(child.value, path[1..], marker);
        if below.Some? && v.Obj? {
          GetPut(v.fields, path[0], below.value, path[0]);
        }
      }
    }
  }
}

/** UTF-8 as the journal file uses it: encoding, and the fatal decoder of `TextDecoder`. */
module Utf8 {
  import opened Wrappers

  type byte = x: int | 0 <= x < 256

  const NEWLINE: byte := 0x0a

  /** The bytes of a scalar are below 0x80 exactly when there is one of them. */
  function EncodeChar(c: char): (b: seq<byte>)
    ensures 1 <= |b| <= 4
    ensures forall i :: 0 <= i < |b| ==> (b[i] < 0x80 <==> |b| == 1)
    ensures |b| == 1 ==> b[0] == c as int
  {
    var n := c as int;
    if n < 0x80 then [n]
    else if n < 0x800 then [0xC0 + n / 64, 0x80 + n % 64]
    else if n < 0x1_0000 then [0xE0 + n / 4096, 0x80 + n / 64 % 64, 0x80 + n % 64]
    else [0xF0 + n / 262144, 0x80 + n / 4096 % 64, 0x80 + n / 64 % 64, 0x80 + n % 64]
  }

  function Encode(text: string): seq<byte> {
    if text == "" then [] else EncodeChar(text[0]) + Encode(text[1..])
  }

  predicate IsScalar(code: int) {
    0 <= code < 0xD800 || 0xE000 <= code < 0x11_0000
  }

  function LeadLength(lead: byte): nat {
    if lead < 0x80 then 1 else if lead < 0xC0 then 0 else if lead < 0xE0 then 2
    else if lead < 0xF0 then 3 else if lead < 0xF8 then 4 else 0
  }

  function CodePoint(b: seq<byte>): int
    requires 1 <= |b| <= 4
  {
    if |b| == 1 then b[0]
    else if |b| == 2 then Bits(b[0], 0xC0) * 64 + Bits(b[1], 0x80)
    else if |b| == 3 then Bits(b[0], 0xE0) * 4096 + Bits(b[1], 0x80) * 64 + Bits(b[2], 0x80)
    else Bits(b[0], 0xF0) * 262144 + Bits(b[1], 0x80) * 4096 + Bits(b[2], 0x80) * 64 + Bits(b[3], 0x80)
  }

  function Bits(b: byte, marker: int): int {
    b as int - marker
  }

  /** One scalar off the front; overlong forms and surrogates are refused. */
  function DecodeChar(b: seq<byte>): (r: Option<char>)
    requires b != []
    ensures r.Some? ==> EncodeChar(r.value) <= b
  {
    var n := LeadLength(b[0]);
    if n == 0 || n > |b| || !IsScalar(CodePoint(b[..n])) then None
    else
      var c := CodePoint(b[..n]) as char;
      if EncodeChar(c) <= b then Some(c) else None
  }

  function DecodeAll(b: seq<byte>): Option<string>
    decreases |b|
  {
    if b == [] then Some("")
    else
      var c := DecodeChar(b);
      if c.None? then None
      else
        var rest := DecodeAll(b[|EncodeChar(c.value)|..]);
        if rest.None? then None else Some([c.value] + rest.value)
  }

  const BOM: string := "\U{FEFF}"

  /** `new TextDecoder("utf-8", { fatal: true }).decode`: a leading byte-order mark is dropped. */
  function Decode(b: seq<byte>): Option<string> {
    var text := DecodeAll(b);
    if text.Some? && BOM <= text.value then Some(text.value[1..]) else text
  }

  // ---------------------------------------------------------------- laws

  lemma Base64Digits(n: nat)
    ensures n == n / 64 * 64 + n % 64
    ensures n / 64 == n / 4096 * 64 + n / 64 % 64
    ensures n / 4096 == n / 262144 * 64 + n / 4096 % 64
  {
  }

  lemma CodePointOf(c: char)
    ensures CodePoint(EncodeChar(c)) == c as int && LeadLength(EncodeChar(c)[0]) == |EncodeChar(c)|
  {
    var n := c as int;
    var b := EncodeChar(c);
    Base64Digits(n);
    if |b| == 2 {
      assert CodePoint(b) == n / 64 * 64 + n % 64;
    } else if |b| == 3 {
      assert CodePoint(b) == n / 4096 * 4096 + n / 64 % 64 * 64 + n % 64;
    } else if |b| == 4 {
      assert CodePoint(b) == n / 262144 * 262144 + n / 4096 % 64 * 4096 + n / 64 % 64 * 64 + n % 64;
    }
  }

  lemma DecodeEncodedChar(c: char, rest: seq<byte>)
    ensures DecodeChar(EncodeChar(c) + rest) == Some(c)
  {
    CodePointOf(c);
    var b := EncodeChar(c) + rest;
    assert b[..|EncodeChar(c)|] == EncodeChar(c);
  }

  /** Decoding undoes encoding. */
  lemma {:induction false} DecodeEncoded(text: string)
    ensures DecodeAll(Encode(text)) == Some(text)
  {
    if text != "" {
      DecodeEncodedChar(text[0], Encode(text[1..]));
      assert (EncodeChar(text[0]) + Encode(text[1..]))[|EncodeChar(text[0])|..] == Encode(text[1..]);
      DecodeEncoded(text[1..]);
      assert [text[0]] + text[1..] == text;
    }
  }

  /** The decoder accepts nothing but encodings. */
  lemma {:induction false} EncodeDecoded(b: seq<byte>)
    requires DecodeAll(b).Some?
    ensures Encode(DecodeAll(b).value) == b
    decreases |b|
  {
    if b != [] {
      var n := |EncodeChar(DecodeChar(b).value)|;
      EncodeDecoded(b[n..]);
      var rest := DecodeAll(b[n..]).value;
      assert ([DecodeChar(b).value] + rest)[1..] == rest;
      assert Encode([DecodeChar(b).value] + rest) == EncodeChar(DecodeChar(b).value) + b[n..];
      assert b[..n] == EncodeChar(DecodeChar(b).value) && b[..n] + b[n..] == b;
    }
  }

  lemma {:induction false} EncodeConcat(left: string, right: string)
    ensures Encode(left + right) == Encode(left) + Encode(right)
  {
    if left == "" {
      assert left + right == right;
    } else {
      assert (left + right)[1..] == left[1..] + right;
      EncodeConcat(left[1..], right);
    }
  }

  /** A newline byte only ever encodes a newline: cutting after one cuts the text after a newline. */
  lemma {:induction false} CutAtNewline(text: string, k: nat) returns (j: nat)
    requires 0 < k <= |Encode(text)| && Encode(text)[k - 1] == NEWLINE
    ensures 0 < j <= |text| && text[j - 1] == '\n' && Encode(text)[..k] == Encode(text[..j])
  {
    var first, rest := EncodeChar(text[0]), Encode(text[1..]);
    if k <= |first| {
      assert first[k - 1] == NEWLINE;
      assert k == 1 && text[0] == '\n';
      j := 1;
      assert text[..1] == [text[0]] && [text[0]][1..] == "";
      assert Encode(text[..1]) == first;
    } else {
      var i := CutAtNewline(text[1..], k - |first|);
      j := i + 1;
      assert text[..j][1..] == text[1..][..i];
      assert Encode(text)[..k] == first + rest[..k - |first|];
    }
  }
}

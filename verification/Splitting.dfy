/** Splitting text at a separator character, as `split` does. */
module Splitting {
  function Split(t: string, sep: char): (r: seq<string>)
    ensures r != []
  {
    if t == "" then [""]
    else
      var more := Split(t[1..], sep);
      if t[0] == sep then [""] + more else [[t[0]] + more[0]] + more[1..]
  }

  lemma {:induction false} SplitFirst(piece: string, sep: char, rest: string)
    requires sep !in piece
    ensures Split(piece + [sep] + rest, sep) == [piece] + Split(rest, sep)
  {
    var t := piece + [sep] + rest;
    if piece == "" {
      assert t[1..] == rest;
    } else {
      SplitFirst(piece[1..], sep, rest);
      assert t[1..] == piece[1..] + [sep] + rest;
      assert [piece[0]] + piece[1..] == piece;
    }
  }

  lemma {:induction false} SplitWhole(piece: string, sep: char)
    requires sep !in piece
    ensures Split(piece, sep) == [piece]
  {
    if piece != "" {
      SplitWhole(piece[1..], sep);
      assert [piece[0]] + piece[1..] == piece;
    }
  }
}

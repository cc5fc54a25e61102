/**
 * The journal file (`OwnershipJournal` and `parseRows` in
 * src/ownership-journal.ts): hash-chained rows, one canonical JSON line each.
 * SHA-256 and `validateRow` are arbitrary functions here; every result holds for
 * all of them, as long as validation does not look at member order.
 */
module JournalText {
  import opened Wrappers
  import opened Utf8
  import opened Json
  import opened JsonLaws
  import opened Splitting

  const MAX_BYTES := 8 * 1024 * 1024
  const MAX_RECORD_BYTES := 64 * 1024
  const SCHEMA := "autopilot.host_ownership_journal.v1"
  const ZERO_HASH := "0000000000000000000000000000000000000000000000000000000000000000"

  ghost predicate OrderBlind(valid: Json -> bool) {
    forall v :: valid(Sorted(v)) == valid(v)
  }

  // ---------------------------------------------------------------- rows and chains

  function RowHash(row: Json): string {
    if row.Obj? && Get(row.fields, "row_sha256").Some? && Get(row.fields, "row_sha256").value.Str?
    then Get(row.fields, "row_sha256").value.s else ""
  }

  /** The row without its own hash. */
  function Preimage(row: Json): Json {
    if row.Obj? then Obj(Without(row.fields, "row_sha256")) else row
  }

  /**
   * A row in its place: right sequence, previous hash and own hash, within the
   * record bound. Repeated keys are refused, because `JSON.parse` keeps one of
   * them and the line is then not canonical.
   */
  predicate RowFits(hash: string -> string, valid: Json -> bool, row: Json, sequence: nat, previous: string) {
    && row.Obj? && UniqueKeys(row) && valid(row)
    && Get(row.fields, "sequence") == Some(Num(sequence))
    && Get(row.fields, "previous_sha256") == Some(Str(previous))
    && Get(row.fields, "row_sha256") == Some(Str(hash(Canonical(Preimage(row)))))
    && |Encode(Canonical(row))| + 1 <= MAX_RECORD_BYTES
  }

  predicate ChainFits(hash: string -> string, valid: Json -> bool, chain: seq<Json>, index: nat, previous: string) {
    chain == [] ||
    (RowFits(hash, valid, chain[0], index + 1, previous)
     && ChainFits(hash, valid, chain[1..], index + 1, RowHash(chain[0])))
  }

  function SortedAll(chain: seq<Json>): seq<Json> {
    if chain == [] then [] else [Sorted(chain[0])] + SortedAll(chain[1..])
  }

  function FileText(chain: seq<Json>): string {
    if chain == [] then "" else Canonical(chain[0]) + "\n" + FileText(chain[1..])
  }

  function FileBytes(chain: seq<Json>): seq<byte> {
    Encode(FileText(chain))
  }

  // ---------------------------------------------------------------- parsing

  /** One line of `parseRows`: None where it throws. */
  function ReadRow(hash: string -> string, valid: Json -> bool, line: string, sequence: nat, previous: string): Option<Json> {
    if line == "" || |Encode(line)| + 1 > MAX_RECORD_BYTES then None
    else
      var parsed := Parse(line);
      if parsed.None? || Canonical(parsed.value) != line then None
      else if !RowFits(hash, valid, parsed.value, sequence, previous) then None
      else parsed
  }

  function ReadLines(hash: string -> string, valid: Json -> bool, lines: seq<string>, index: nat, previous: string): Option<seq<Json>> {
    if lines == [] then Some([])
    else
      var row := ReadRow(hash, valid, lines[0], index + 1, previous);
      if row.None? then None
      else
        var more := ReadLines(hash, valid, lines[1..], index + 1, RowHash(row.value));
        if more.None? then None else Some([row.value] + more.value)
  }

  /** The file bound of `open`, then `parseRows`. */
  function ParseFile(hash: string -> string, valid: Json -> bool, file: seq<byte>): Option<seq<Json>> {
    if |file| > MAX_BYTES then None
    else if file == [] then Some([])
    else if file[|file| - 1] != NEWLINE then None
    else
      var text := Decode(file);
      if text.None? || text.value == "" then None
      else ReadLines(hash, valid, Split(text.value[..|text.value| - 1], '\n'), 0, ZERO_HASH)
  }

  // ---------------------------------------------------------------- lines

  function Lines(chain: seq<Json>): seq<string> {
    if chain == [] then [] else [Canonical(chain[0])] + Lines(chain[1..])
  }

  function JoinLines(lines: seq<string>): string {
    if lines == [] then "" else lines[0] + "\n" + JoinLines(lines[1..])
  }

  lemma {:induction false} SplitJoined(lines: seq<string>)
    requires lines != [] && forall k :: 0 <= k < |lines| ==> '\n' !in lines[k]
    ensures JoinLines(lines) != "" && JoinLines(lines)[|JoinLines(lines)| - 1] == '\n'
    ensures Split(JoinLines(lines)[..|JoinLines(lines)| - 1], '\n') == lines
  {
    var t, line, more := JoinLines(lines), lines[0], JoinLines(lines[1..]);
    if |lines| == 1 {
      assert t == line + "\n" && t[..|t| - 1] == line;
      SplitWhole(line, '\n');
    } else {
      SplitJoined(lines[1..]);
      assert t[..|t| - 1] == line + ['\n'] + more[..|more| - 1];
      SplitFirst(line, '\n', more[..|more| - 1]);
    }
  }

  lemma {:induction false} FileTextJoins(chain: seq<Json>)
    ensures FileText(chain) == JoinLines(Lines(chain)) && |Lines(chain)| == |chain|
    ensures forall k :: 0 <= k < |chain| ==> '\n' !in Lines(chain)[k]
  {
    if chain != [] {
      FileTextJoins(chain[1..]);
      TextOneLine(Sorted(chain[0]));
      assert Lines(chain)[1..] == Lines(chain[1..]);
    }
  }

  lemma SplitFileText(chain: seq<Json>)
    requires chain != []
    ensures FileText(chain) != "" && FileText(chain)[|FileText(chain)| - 1] == '\n'
    ensures Split(FileText(chain)[..|FileText(chain)| - 1], '\n') == Lines(chain)
  {
    FileTextJoins(chain);
    SplitJoined(Lines(chain));
  }

  // ---------------------------------------------------------------- reading back what was written

  lemma SortedRowFits(hash: string -> string, valid: Json -> bool, row: Json, sequence: nat, previous: string)
    requires OrderBlind(valid) && RowFits(hash, valid, row, sequence, previous)
    ensures RowFits(hash, valid, Sorted(row), sequence, previous) && RowHash(Sorted(row)) == RowHash(row)
    ensures Canonical(Sorted(row)) == Canonical(row)
  {
    SortedIdempotent(row);
    UniqueSorted(row);
    GetSorted(row.fields, "sequence");
    GetSorted(row.fields, "previous_sha256");
    GetSorted(row.fields, "row_sha256");
    WithoutSorted(row.fields, "row_sha256");
    SortedIdempotent(Preimage(row));
    assert Preimage(Sorted(row)) == Sorted(Preimage(row));
  }

  lemma ReadOwnRow(hash: string -> string, valid: Json -> bool, row: Json, sequence: nat, previous: string)
    requires OrderBlind(valid) && RowFits(hash, valid, row, sequence, previous)
    ensures ReadRow(hash, valid, Canonical(row), sequence, previous) == Some(Sorted(row))
  {
    SortedRowFits(hash, valid, row, sequence, previous);
    ParseText(Sorted(row));
    TextOneLine(Sorted(row));
  }

  lemma {:induction false} ReadOwnLines(hash: string -> string, valid: Json -> bool, chain: seq<Json>, index: nat, previous: string)
    requires OrderBlind(valid) && ChainFits(hash, valid, chain, index, previous)
    ensures ReadLines(hash, valid, Lines(chain), index, previous) == Some(SortedAll(chain))
  {
    if chain == [] {
    } else {
      ReadOwnRow(hash, valid, chain[0], index + 1, previous);
      SortedRowFits(hash, valid, chain[0], index + 1, previous);
      ReadOwnLines(hash, valid, chain[1..], index + 1, RowHash(chain[0]));
      assert Lines(chain)[1..] == Lines(chain[1..]);
    }
  }

  /** Reopening the file a chain wrote gives back exactly its rows, members sorted. */
  lemma ParseOwnFile(hash: string -> string, valid: Json -> bool, chain: seq<Json>)
    requires OrderBlind(valid) && ChainFits(hash, valid, chain, 0, ZERO_HASH)
    requires |FileBytes(chain)| <= MAX_BYTES
    ensures ParseFile(hash, valid, FileBytes(chain)) == Some(SortedAll(chain))
  {
    if chain != [] {
      SplitFileText(chain);
      FileEndsWithNewline(FileText(chain));
      DecodeEncoded(FileText(chain));
      FileStartsWithBrace(chain);
      ReadOwnLines(hash, valid, chain, 0, ZERO_HASH);
    }
  }

  lemma FileEndsWithNewline(t: string)
    requires t != "" && t[|t| - 1] == '\n'
    ensures var b := Encode(t); b != [] && b[|b| - 1] == NEWLINE
  {
    EncodeConcat(t[..|t| - 1], "\n");
    assert t == t[..|t| - 1] + "\n";
    assert Encode("\n") == [NEWLINE] by { assert "\n"[1..] == ""; }
  }

  lemma FileStartsWithBrace(chain: seq<Json>)
    requires chain != [] && chain[0].Obj?
    ensures !(BOM <= FileText(chain))
  {
    assert FileText(chain)[0] == '{';
  }

  // ---------------------------------------------------------------- nothing else is accepted

  lemma {:induction false} JoinSplit(t: string)
    ensures JoinLines(Split(t, '\n')) == t + "\n"
  {
    if t == "" {
      assert Split(t, '\n')[1..] == [];
    } else {
      var more := Split(t[1..], '\n');
      JoinSplit(t[1..]);
      assert t == [t[0]] + t[1..];
      if t[0] == '\n' {
        assert Split(t, '\n')[1..] == more;
      } else {
        assert Split(t, '\n')[1..] == more[1..];
        assert JoinLines(Split(t, '\n')) == [t[0]] + JoinLines(more);
      }
    }
  }

  lemma {:induction false} ReadLinesSound(hash: string -> string, valid: Json -> bool, lines: seq<string>, index: nat, previous: string)
    requires ReadLines(hash, valid, lines, index, previous).Some?
    ensures var rows := ReadLines(hash, valid, lines, index, previous).value;
            ChainFits(hash, valid, rows, index, previous) && FileText(rows) == JoinLines(lines)
  {
    if lines != [] {
      var row := ReadRow(hash, valid, lines[0], index + 1, previous).value;
      ReadLinesSound(hash, valid, lines[1..], index + 1, RowHash(row));
      var more := ReadLines(hash, valid, lines[1..], index + 1, RowHash(row)).value;
      assert ([row] + more)[1..] == more;
    }
  }

  /** `text` is the file text of a well-formed chain of rows. */
  ghost predicate JournalOf(hash: string -> string, valid: Json -> bool, rows: seq<Json>, text: string) {
    ChainFits(hash, valid, rows, 0, ZERO_HASH) && FileText(rows) == text
  }

  lemma AcceptedTextIsJournal(hash: string -> string, valid: Json -> bool, text: string)
    requires text != "" && text[|text| - 1] == '\n'
    requires ReadLines(hash, valid, Split(text[..|text| - 1], '\n'), 0, ZERO_HASH).Some?
    ensures JournalOf(hash, valid, ReadLines(hash, valid, Split(text[..|text| - 1], '\n'), 0, ZERO_HASH).value, text)
  {
    var body := text[..|text| - 1];
    JoinSplit(body);
    ReadLinesSound(hash, valid, Split(body, '\n'), 0, ZERO_HASH);
    assert body + "\n" == text;
  }

  /** The bytes of a chain; those of a non-empty one may follow a byte-order mark. */
  predicate IsFileOf(file: seq<byte>, chain: seq<Json>) {
    file == FileBytes(chain) || (chain != [] && file == Encode(BOM) + FileBytes(chain))
  }

  /** Whatever the parser returns is a hash-chained list of valid rows whose own file is the one that was read. */
  lemma AcceptedFileIsJournal(hash: string -> string, valid: Json -> bool, file: seq<byte>)
    requires ParseFile(hash, valid, file).Some?
    ensures var rows := ParseFile(hash, valid, file).value;
            ChainFits(hash, valid, rows, 0, ZERO_HASH) && IsFileOf(file, rows)
  {
    var rows := ParseFile(hash, valid, file).value;
    if file != [] {
      var text := Decode(file).value;
      TextEndsWithNewline(file, text);
      AcceptedTextIsJournal(hash, valid, text);
      assert JournalOf(hash, valid, rows, text);
      DecodedBytes(file);
    }
  }

  /** A byte-order mark before the rows is read over. */
  lemma ParseMarkedFile(hash: string -> string, valid: Json -> bool, chain: seq<Json>)
    requires OrderBlind(valid) && ChainFits(hash, valid, chain, 0, ZERO_HASH) && chain != []
    requires |Encode(BOM) + FileBytes(chain)| <= MAX_BYTES
    ensures ParseFile(hash, valid, Encode(BOM) + FileBytes(chain)) == Some(SortedAll(chain))
  {
    var text := FileText(chain);
    SplitFileText(chain);
    FileEndsWithNewline(text);
    EncodeConcat(BOM, text);
    DecodeEncoded(BOM + text);
    assert (BOM + text)[1..] == text;
    assert Decode(Encode(BOM) + FileBytes(chain)) == Some(text);
    ReadOwnLines(hash, valid, chain, 0, ZERO_HASH);
  }

  /** With or without a byte-order mark, the file of a chain reads back as its rows, members sorted. */
  lemma ParseJournal(hash: string -> string, valid: Json -> bool, file: seq<byte>, chain: seq<Json>)
    requires OrderBlind(valid) && ChainFits(hash, valid, chain, 0, ZERO_HASH)
    requires IsFileOf(file, chain) && |file| <= MAX_BYTES
    ensures ParseFile(hash, valid, file) == Some(SortedAll(chain))
  {
    if file == FileBytes(chain) {
      ParseOwnFile(hash, valid, chain);
    } else {
      ParseMarkedFile(hash, valid, chain);
    }
  }

  ghost predicate IsJournal(hash: string -> string, valid: Json -> bool, file: seq<byte>) {
    exists chain :: ChainFits(hash, valid, chain, 0, ZERO_HASH) && IsFileOf(file, chain)
  }

  /** The parser accepts exactly the journals within the byte bound. */
  lemma AcceptedIffJournal(hash: string -> string, valid: Json -> bool, file: seq<byte>)
    requires OrderBlind(valid)
    ensures ParseFile(hash, valid, file).Some? <==> |file| <= MAX_BYTES && IsJournal(hash, valid, file)
  {
    if ParseFile(hash, valid, file).Some? {
      AcceptedFileIsJournal(hash, valid, file);
    } else if |file| <= MAX_BYTES && IsJournal(hash, valid, file) {
      var chain :| ChainFits(hash, valid, chain, 0, ZERO_HASH) && IsFileOf(file, chain);
      ParseJournal(hash, valid, file, chain);
    }
  }

  lemma DecodedBytes(file: seq<byte>)
    requires Decode(file).Some?
    ensures file == Encode(Decode(file).value) || file == Encode(BOM) + Encode(Decode(file).value)
  {
    EncodeDecoded(file);
    var all := DecodeAll(file).value;
    if BOM <= all {
      assert all == BOM + all[1..];
      EncodeConcat(BOM, all[1..]);
    }
  }

  lemma TextEndsWithNewline(file: seq<byte>, text: string)
    requires file != [] && file[|file| - 1] == NEWLINE && Decode(file) == Some(text) && text != ""
    ensures text[|text| - 1] == '\n'
  {
    var all := DecodeAll(file).value;
    EncodeDecoded(file);
    LastByteIsNewline(all);
  }

  lemma LastByteIsNewline(t: string)
    requires Encode(t) != [] && Encode(t)[|Encode(t)| - 1] == NEWLINE
    ensures t != "" && t[|t| - 1] == '\n'
  {
    var j := CutAtNewline(t, |Encode(t)|);
    assert Encode(t)[..|Encode(t)|] == Encode(t);
    DecodeEncoded(t);
    DecodeEncoded(t[..j]);
    assert t[..j] == t;
  }

  // ---------------------------------------------------------------- torn writes

  lemma {:induction false} ChainPrefixFits(hash: string -> string, valid: Json -> bool, chain: seq<Json>, index: nat, previous: string, j: nat)
    requires ChainFits(hash, valid, chain, index, previous) && j <= |chain|
    ensures ChainFits(hash, valid, chain[..j], index, previous)
  {
    if j > 0 {
      ChainPrefixFits(hash, valid, chain[1..], index + 1, RowHash(chain[0]), j - 1);
      assert chain[..j][1..] == chain[1..][..j - 1];
    }
  }

  /** A prefix of the file text that ends after a newline is the text of a row-prefix. */
  lemma {:induction false} TextPrefixIsRows(chain: seq<Json>, k: nat) returns (j: nat)
    requires k <= |FileText(chain)| && (k == 0 || FileText(chain)[k - 1] == '\n')
    ensures j <= |chain| && FileText(chain)[..k] == FileText(chain[..j])
  {
    if k == 0 {
      j := 0;
      assert chain[..0] == [];
    } else {
      var line := Canonical(chain[0]) + "\n";
      TextOneLine(Sorted(chain[0]));
      assert FileText(chain) == line + FileText(chain[1..]);
      assert forall i :: 0 <= i < |line| - 1 ==> FileText(chain)[i] == Canonical(chain[0])[i];
      var more := k - |line|;
      assert more > 0 ==> FileText(chain)[k - 1] == FileText(chain[1..])[more - 1];
      var i := TextPrefixIsRows(chain[1..], more);
      j := i + 1;
      assert chain[..j][1..] == chain[1..][..i];
      assert FileText(chain)[..k] == line + FileText(chain[1..])[..more];
    }
  }

  /**
   * Crash consistency: every byte-prefix of a journal file is refused, or parses
   * to a prefix of its rows. It is refused exactly when it does not end at a row
   * boundary.
   */
  lemma TornFileIsRowPrefix(hash: string -> string, valid: Json -> bool, chain: seq<Json>, k: nat)
    requires OrderBlind(valid) && ChainFits(hash, valid, chain, 0, ZERO_HASH)
    requires k <= |FileBytes(chain)| <= MAX_BYTES
    ensures var cut := FileBytes(chain)[..k];
            match ParseFile(hash, valid, cut)
            case None => k > 0 && cut[k - 1] != NEWLINE
            case Some(rows) => exists j :: 0 <= j <= |chain| && rows == SortedAll(chain[..j]) && cut == FileBytes(chain[..j])
  {
    var cut := FileBytes(chain)[..k];
    var j := 0;
    if k > 0 && cut[k - 1] == NEWLINE {
      var i := CutAtNewline(FileText(chain), k);
      j := TextPrefixIsRows(chain, i);
    } else if k == 0 {
      assert chain[..0] == [];
    }
    if k == 0 || cut[k - 1] == NEWLINE {
      assert cut == FileBytes(chain[..j]);
      ChainPrefixFits(hash, valid, chain, 0, ZERO_HASH, j);
      ParseOwnFile(hash, valid, chain[..j]);
    }
  }

  /** The row prefix an accepted cut holds. */
  lemma AcceptedCut(hash: string -> string, valid: Json -> bool, chain: seq<Json>, k: nat) returns (j: nat)
    requires OrderBlind(valid) && ChainFits(hash, valid, chain, 0, ZERO_HASH)
    requires k <= |FileBytes(chain)| <= MAX_BYTES && ParseFile(hash, valid, FileBytes(chain)[..k]).Some?
    ensures j <= |chain| && FileBytes(chain)[..k] == FileBytes(chain[..j])
  {
    TornFileIsRowPrefix(hash, valid, chain, k);
    j :| 0 <= j <= |chain| && FileBytes(chain)[..k] == FileBytes(chain[..j]);
  }
}

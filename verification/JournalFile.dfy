/**
 * `OwnershipJournal` (src/ownership-journal.ts) as an object: `append` grows the
 * chain and the file together, `parseRows` runs over lines with a running hash.
 * The outcome of the operating-system write is an argument.
 */
module JournalFile {
  import opened Wrappers
  import opened Utf8
  import opened Json
  import opened JsonLaws
  import opened Splitting
  import opened JournalText

  // ---------------------------------------------------------------- the next row

  function LastHash(chain: seq<Json>, previous: string): string {
    if chain == [] then previous else RowHash(chain[|chain| - 1])
  }

  function Header(sequence: nat, previous: string, kind: string): seq<Field> {
    [Field("schema", Str(SCHEMA)), Field("version", Num(1)), Field("sequence", Num(sequence)),
     Field("previous_sha256", Str(previous)), Field("kind", Str(kind))]
  }

  function PreimageFields(sequence: nat, previous: string, kind: string, payload: seq<Field>): seq<Field> {
    Header(sequence, previous, kind) + payload
  }

  /** The row `append` builds: its preimage, then the hash of the preimage's canonical text. */
  function NextRow(hash: string -> string, chain: seq<Json>, kind: string, payload: seq<Field>): Json {
    var fields := PreimageFields(|chain| + 1, LastHash(chain, ZERO_HASH), kind, payload);
    Obj(fields + [Field("row_sha256", Str(hash(Canonical(Obj(fields)))))])
  }

  /** Payload members repeat neither each other nor a header member. */
  predicate WellKeyed(payload: seq<Field>) {
    UniqueKeys(Obj(PreimageFields(0, "", "", payload) + [Field("row_sha256", Null)]))
  }

  lemma SameKeysUnique(model: seq<Field>, all: seq<Field>)
    requires UniqueKeys(Obj(model)) && |all| == |model|
    requires forall i :: 0 <= i < |all| ==> all[i].key == model[i].key && UniqueKeys(all[i].value)
    ensures UniqueKeys(Obj(all))
  {
  }

  lemma LastIsFree(fields: seq<Field>, last: Field)
    requires DistinctKeys(fields + [last])
    ensures FieldFree(fields, last.key)
  {
    var all := fields + [last];
    forall i | 0 <= i < |fields| ensures fields[i].key != last.key {
      assert all[i].key != all[|fields|].key;
    }
  }

  /** Distinct keys depend on the keys around the payload, not on what they hold. */
  lemma UniqueAround(before: seq<Field>, header: seq<Field>, payload: seq<Field>, last: Field, own: Field)
    requires UniqueKeys(Obj(before + payload + [last]))
    requires |header| == |before| && own.key == last.key && UniqueKeys(own.value)
    requires forall i :: 0 <= i < |header| ==> header[i].key == before[i].key && UniqueKeys(header[i].value)
    ensures UniqueKeys(Obj(header + payload + [own])) && FieldFree(payload, last.key)
  {
    var model, all := before + payload + [last], header + payload + [own];
    var n := |before|;
    forall i | 0 <= i < |all| ensures all[i].key == model[i].key && UniqueKeys(all[i].value) {
      if i < n {
        assert all[i] == header[i] && model[i] == before[i];
      } else if i < n + |payload| {
        assert all[i] == payload[i - n] && model[i] == payload[i - n];
      }
    }
    SameKeysUnique(model, all);
    LastIsFree(before + payload, last);
    forall i | 0 <= i < |payload| ensures payload[i].key != last.key {
      assert (before + payload)[n + i] == payload[i];
    }
  }

  lemma WellKeyedRow(sequence: nat, previous: string, kind: string, payload: seq<Field>, own: string)
    requires WellKeyed(payload)
    ensures UniqueKeys(Obj(PreimageFields(sequence, previous, kind, payload) + [Field("row_sha256", Str(own))]))
    ensures Get(payload, "row_sha256").None?
  {
    UniqueAround(Header(0, "", ""), Header(sequence, previous, kind), payload,
                 Field("row_sha256", Null), Field("row_sha256", Str(own)));
    GetAbsent(payload, "row_sha256");
  }

  lemma GetAbsent(fields: seq<Field>, key: string)
    requires FieldFree(fields, key)
    ensures Get(fields, key).None?
  {
  }

  lemma GetConcat(left: seq<Field>, right: seq<Field>, key: string)
    ensures Get(left + right, key) == if Get(left, key).Some? then Get(left, key) else Get(right, key)
  {
    if left == [] {
      assert left + right == right;
    } else {
      assert (left + right)[1..] == left[1..] + right;
    }
  }

  lemma WithoutAbsent(fields: seq<Field>, key: string, value: Json)
    requires Get(fields, key).None?
    ensures Without(fields + [Field(key, value)], key) == fields
  {
    var all := fields + [Field(key, value)];
    if fields == [] {
      assert all[1..] == [];
    } else {
      assert all[1..] == fields[1..] + [Field(key, value)];
      WithoutAbsent(fields[1..], key, value);
    }
  }

  lemma HeaderFields(sequence: nat, previous: string, kind: string, payload: seq<Field>)
    ensures var fields := PreimageFields(sequence, previous, kind, payload);
            && Get(fields, "sequence") == Some(Num(sequence))
            && Get(fields, "previous_sha256") == Some(Str(previous))
            && Get(fields, "row_sha256") == Get(payload, "row_sha256")
  {
    var f := PreimageFields(sequence, previous, kind, payload);
    GetAfter(f, "sequence", 2);
    GetAfter(f, "previous_sha256", 3);
    GetAfter(f, "row_sha256", 5);
    assert f[5..] == payload;
  }

  /** Members under other keys do not matter. */
  lemma GetAfter(fields: seq<Field>, key: string, n: nat)
    requires n <= |fields| && forall i :: 0 <= i < n ==> |fields[i].key| != |key|
    ensures Get(fields, key) == Get(fields[n..], key)
  {
    if n == 0 {
      assert fields[0..] == fields;
    } else {
      assert fields[0].key != key;
      GetAfter(fields[1..], key, n - 1);
      assert fields[1..][n - 1..] == fields[n..];
    }
  }

  lemma NextRowFits(hash: string -> string, valid: Json -> bool, chain: seq<Json>, kind: string, payload: seq<Field>)
    requires WellKeyed(payload)
    requires var row := NextRow(hash, chain, kind, payload);
             valid(row) && |Encode(Canonical(row))| + 1 <= MAX_RECORD_BYTES
    ensures RowFits(hash, valid, NextRow(hash, chain, kind, payload), |chain| + 1, LastHash(chain, ZERO_HASH))
  {
    var fields := PreimageFields(|chain| + 1, LastHash(chain, ZERO_HASH), kind, payload);
    var last := [Field("row_sha256", Str(hash(Canonical(Obj(fields)))))];
    WellKeyedRow(|chain| + 1, LastHash(chain, ZERO_HASH), kind, payload, hash(Canonical(Obj(fields))));
    HeaderFields(|chain| + 1, LastHash(chain, ZERO_HASH), kind, payload);
    GetConcat(fields, last, "sequence");
    GetConcat(fields, last, "previous_sha256");
    GetConcat(fields, last, "row_sha256");
    WithoutAbsent(fields, "row_sha256", last[0].value);
  }

  lemma {:induction false} ChainAppendFits(hash: string -> string, valid: Json -> bool, chain: seq<Json>, row: Json, index: nat, previous: string)
    requires ChainFits(hash, valid, chain, index, previous)
    requires RowFits(hash, valid, row, index + |chain| + 1, LastHash(chain, previous))
    ensures ChainFits(hash, valid, chain + [row], index, previous)
  {
    var all := chain + [row];
    if chain == [] {
      assert all[1..] == [];
    } else {
      assert all[1..] == chain[1..] + [row];
      ChainAppendFits(hash, valid, chain[1..], row, index + 1, RowHash(chain[0]));
    }
  }

  lemma {:induction false} FileTextAppend(chain: seq<Json>, row: Json)
    ensures FileText(chain + [row]) == FileText(chain) + (Canonical(row) + "\n")
  {
    var all := chain + [row];
    if chain == [] {
      assert all[1..] == [];
      assert FileText(all) == Canonical(row) + "\n" + "";
    } else {
      assert all[1..] == chain[1..] + [row];
      FileTextAppend(chain[1..], row);
    }
  }

  lemma FileBytesAppend(chain: seq<Json>, row: Json)
    ensures FileBytes(chain + [row]) == FileBytes(chain) + Encode(Canonical(row) + "\n")
    ensures |Encode(Canonical(row) + "\n")| == |Encode(Canonical(row))| + 1
  {
    FileTextAppend(chain, row);
    EncodeConcat(FileText(chain), Canonical(row) + "\n");
    EncodeConcat(Canonical(row), "\n");
    assert Encode("\n") == [NEWLINE] by { assert "\n"[1..] == ""; }
  }

  // ---------------------------------------------------------------- after reopening

  /** Two chains to which the same next row is appended, in the same file. */
  predicate Alike(left: seq<Json>, right: seq<Json>) {
    |left| == |right| && LastHash(left, ZERO_HASH) == LastHash(right, ZERO_HASH) && FileText(left) == FileText(right)
  }

  lemma SortedRowHash(row: Json)
    ensures RowHash(Sorted(row)) == RowHash(row)
  {
    if row.Obj? { GetSorted(row.fields, "row_sha256"); }
  }

  lemma {:induction false} SortedChainAlike(chain: seq<Json>)
    ensures Alike(SortedAll(chain), chain)
  {
    if chain != [] {
      SortedChainAlike(chain[1..]);
      SortedIdempotent(chain[0]);
      SortedRowHash(chain[0]);
      assert SortedAll(chain)[1..] == SortedAll(chain[1..]);
    }
  }

  /** The rows a reopened journal holds go on exactly as those it wrote. */
  lemma AlikeGoesOn(hash: string -> string, left: seq<Json>, right: seq<Json>, kind: string, payload: seq<Field>)
    requires Alike(left, right)
    ensures NextRow(hash, left, kind, payload) == NextRow(hash, right, kind, payload)
    ensures Alike(left + [NextRow(hash, left, kind, payload)], right + [NextRow(hash, right, kind, payload)])
  {
    FileTextAppend(left, NextRow(hash, left, kind, payload));
    FileTextAppend(right, NextRow(hash, right, kind, payload));
  }

  // ---------------------------------------------------------------- the object

  class OwnershipJournal {
    const hash: string -> string
    const valid: Json -> bool
    var chain: seq<Json>
    var file: seq<byte>

    /** The file holds exactly the chain, and both stay within the bounds `open` checks. */
    ghost predicate Valid()
      reads this
    {
      ChainFits(hash, valid, chain, 0, ZERO_HASH) && IsFileOf(file, chain) && |file| <= MAX_BYTES
    }

    constructor (hash: string -> string, valid: Json -> bool)
      ensures this.hash == hash && this.valid == valid && chain == [] && Valid()
    {
      this.hash, this.valid, chain, file := hash, valid, [], [];
    }

    /** A journal over a file that was found and read. */
    constructor Existing(hash: string -> string, valid: Json -> bool, file: seq<byte>, rows: seq<Json>)
      requires ParseFile(hash, valid, file) == Some(rows)
      ensures this.hash == hash && this.valid == valid && this.file == file && chain == rows && Valid()
    {
      this.hash, this.valid, this.file, chain := hash, valid, file, rows;
      AcceptedFileIsJournal(hash, valid, file);
    }

    /** Appends one row, or changes nothing. */
    method Append(kind: string, payload: seq<Field>, written: bool) returns (ok: bool)
      requires Valid() && WellKeyed(payload)
      modifies this
      ensures Valid()
      ensures ok ==> chain == old(chain) + [NextRow(hash, old(chain), kind, payload)] && old(file) <= file
      ensures !ok ==> chain == old(chain) && file == old(file)
      ensures ok <==> Fits(hash, valid, old(chain), old(|file|), kind, payload) && written
    {
      var row := NextRow(hash, chain, kind, payload);
      if !valid(row) {
        return false;
      }
      var line := Encode(Canonical(row) + "\n");
      if |line| > MAX_RECORD_BYTES || |file| + |line| > MAX_BYTES || !written {
        return false;
      }
      FileBytesAppend(chain, row);
      AppendKeepsChain(hash, valid, chain, |file|, kind, payload);
      AppendKeepsFile(file, chain, row);
      file := file + line;
      chain := chain + [row];
      ok := true;
    }
  }

  /** The loop of `parseRows` over the lines of the file; `start` is the zero hash. */
  method ParseRows(hash: string -> string, valid: Json -> bool, lines: seq<string>, start: string) returns (rows: Option<seq<Json>>)
    ensures rows == ReadLines(hash, valid, lines, 0, start)
  {
    var done: seq<Json> := [];
    var previous := start;
    var index := 0;
    ghost var whole := ReadLines(hash, valid, lines, 0, start);
    assert lines[0..] == lines;
    PrependNothing(whole);
    while index < |lines|
      invariant 0 <= index <= |lines|
      invariant whole == Prepend(done, ReadLines(hash, valid, lines[index..], index, previous))
    {
      var row := ReadRow(hash, valid, lines[index], index + 1, previous);
      ReadLinesNext(hash, valid, lines, index, previous);
      if row.None? {
        return None;
      }
      PrependTwice(done, row.value, ReadLines(hash, valid, lines[index + 1..], index + 1, RowHash(row.value)));
      done := done + [row.value];
      previous := RowHash(row.value);
      index := index + 1;
    }
    assert done + [] == done;
    rows := Some(done);
  }

  lemma ReadLinesNext(hash: string -> string, valid: Json -> bool, lines: seq<string>, index: nat, previous: string)
    requires index < |lines|
    ensures var row := ReadRow(hash, valid, lines[index], index + 1, previous);
            ReadLines(hash, valid, lines[index..], index, previous) ==
            if row.None? then None
            else Prepend([row.value], ReadLines(hash, valid, lines[index + 1..], index + 1, RowHash(row.value)))
  {
    assert lines[index..][1..] == lines[index + 1..];
  }

  lemma PrependTwice(done: seq<Json>, row: Json, more: Option<seq<Json>>)
    ensures Prepend(done, Prepend([row], more)) == Prepend(done + [row], more)
  {
    if more.Some? { assert done + ([row] + more.value) == done + [row] + more.value; }
  }

  lemma PrependNothing(more: Option<seq<Json>>)
    ensures Prepend([], more) == more
  {
    if more.Some? { assert [] + more.value == more.value; }
  }

  function Prepend(done: seq<Json>, more: Option<seq<Json>>): Option<seq<Json>> {
    if more.None? then None else Some(done + more.value)
  }

  /** The next row of a file of `size` bytes passes validation and both size bounds. */
  predicate Fits(hash: string -> string, valid: Json -> bool, chain: seq<Json>, size: nat, kind: string, payload: seq<Field>) {
    var row := NextRow(hash, chain, kind, payload);
    var line := Encode(Canonical(row) + "\n");
    valid(row) && |line| <= MAX_RECORD_BYTES && size + |line| <= MAX_BYTES
  }

  /** `append` accepts this row after the chain's own bytes. */
  predicate Accepts(hash: string -> string, valid: Json -> bool, chain: seq<Json>, kind: string, payload: seq<Field>) {
    Fits(hash, valid, chain, |FileBytes(chain)|, kind, payload)
  }

  lemma AppendKeepsChain(hash: string -> string, valid: Json -> bool, chain: seq<Json>, size: nat, kind: string, payload: seq<Field>)
    requires WellKeyed(payload) && ChainFits(hash, valid, chain, 0, ZERO_HASH)
    requires Fits(hash, valid, chain, size, kind, payload)
    ensures ChainFits(hash, valid, chain + [NextRow(hash, chain, kind, payload)], 0, ZERO_HASH)
  {
    var row := NextRow(hash, chain, kind, payload);
    FileBytesAppend(chain, row);
    NextRowFits(hash, valid, chain, kind, payload);
    ChainAppendFits(hash, valid, chain, row, 0, ZERO_HASH);
  }

  lemma AppendKeepsFile(file: seq<byte>, chain: seq<Json>, row: Json)
    requires IsFileOf(file, chain)
    ensures IsFileOf(file + Encode(Canonical(row) + "\n"), chain + [row])
  {
    FileBytesAppend(chain, row);
    var line := Encode(Canonical(row) + "\n");
    assert Encode(BOM) + FileBytes(chain) + line == Encode(BOM) + (FileBytes(chain) + line);
  }

  /** `open` on the bytes found: a journal holding exactly the rows read, or nothing where it throws. */
  method Open(hash: string -> string, valid: Json -> bool, file: seq<byte>) returns (journal: Option<OwnershipJournal>)
    ensures journal.Some? <==> ParseFile(hash, valid, file).Some?
    ensures journal.Some? ==>
              var j := journal.value;
              fresh(j) && j.Valid() && j.file == file && Some(j.chain) == ParseFile(hash, valid, file)
  {
    if |file| > MAX_BYTES {
      return None;
    }
    var rows := Some([]);
    if file != [] {
      if file[|file| - 1] != NEWLINE {
        return None;
      }
      var text := Decode(file);
      if text.None? || text.value == "" {
        return None;
      }
      rows := ParseRows(hash, valid, Split(text.value[..|text.value| - 1], '\n'), ZERO_HASH);
      if rows.None? {
        return None;
      }
    }
    var existing := new OwnershipJournal.Existing(hash, valid, file, rows.value);
    journal := Some(existing);
  }

  lemma AppendFits(hash: string -> string, valid: Json -> bool, chain: seq<Json>, kind: string, payload: seq<Field>)
    requires WellKeyed(payload) && ChainFits(hash, valid, chain, 0, ZERO_HASH)
    requires Accepts(hash, valid, chain, kind, payload)
    ensures var all := chain + [NextRow(hash, chain, kind, payload)];
            ChainFits(hash, valid, all, 0, ZERO_HASH) && |FileBytes(all)| <= MAX_BYTES
  {
    var row := NextRow(hash, chain, kind, payload);
    FileBytesAppend(chain, row);
    AppendKeepsChain(hash, valid, chain, |FileBytes(chain)|, kind, payload);
  }

  /** An accepted append never leaves a file that reopening refuses: it reads back every row. */
  lemma ReopenAfterAppend(hash: string -> string, valid: Json -> bool, file: seq<byte>, chain: seq<Json>, kind: string, payload: seq<Field>)
    requires OrderBlind(valid) && WellKeyed(payload) && ChainFits(hash, valid, chain, 0, ZERO_HASH)
    requires IsFileOf(file, chain) && Fits(hash, valid, chain, |file|, kind, payload)
    ensures var row := NextRow(hash, chain, kind, payload);
            ParseFile(hash, valid, file + Encode(Canonical(row) + "\n")) == Some(SortedAll(chain + [row]))
  {
    var row := NextRow(hash, chain, kind, payload);
    AppendKeepsChain(hash, valid, chain, |file|, kind, payload);
    AppendKeepsFile(file, chain, row);
    ParseJournal(hash, valid, file + Encode(Canonical(row) + "\n"), chain + [row]);
  }
}

/**
  The binary index of the copy-on-write store: a magic, the head, a row count, and one row per live write in
  sequence order. `WriteIndex` and `ReadIndex` are the two byte loops; `EncodeIndex` and `DecodeIndex` say what they
  compute.
 */
module IndexCodec {
  import opened Bytes
  import opened Ordered
  import opened Results
  import opened LibraryLog

  datatype Location = Location(offset: nat, len: nat)

  /** A row of the sequence map: a key and where its fragment lies in the payload file. */
  datatype Placed = Placed(key: Key, at: Location)

  datatype IndexError = Truncated | BadVersion | TooManyRows | BadBounds | BadUtf8

  const MAGIC: seq<byte> := [0x4C, 0x56, 0x33, 0x49, 0, 0, 0, 1]
  const MAX_ROWS: nat := 50_000
  const MAX_LEN: nat := 200 * 1024
  const MAX_KEY: nat := 256

  function EncodeRow(n: nat, row: Placed): (s: seq<byte>)
    ensures |s| == 24 + |row.key.text|
  {
    ToLe(n, 8) + ToLe(row.at.offset, 8) + ToLe(row.at.len, 4) + ToLe(|row.key.text| % U32_LIMIT, 4) + row.key.text
  }

  function EncodeRows(rows: map<nat, Placed>, order: seq<nat>): seq<byte>
    requires forall i :: 0 <= i < |order| ==> order[i] in rows
  {
    if order == [] then [] else EncodeRow(order[0], rows[order[0]]) + EncodeRows(rows, order[1..])
  }

  function EncodeIndex(head: nat, rows: map<nat, Placed>): seq<byte>
  {
    MAGIC + ToLe(head, 8) + ToLe(|rows|, 8) + EncodeRows(rows, Listed(rows.Keys))
  }

  predicate RowWithin(n: nat, row: Placed, head: nat) {
    row.at.len <= MAX_LEN && |row.key.text| <= MAX_KEY && n <= head
  }

  datatype Row = Row(n: nat, row: Placed, rest: seq<byte>)

  /** The row at the front of `s`, and what follows it. */
  function DecodeRow(s: seq<byte>, head: nat): (r: Result<Row, IndexError>)
    ensures r.Ok? ==> |r.value.rest| < |s|
  {
    if |s| < 24 then Err(Truncated)
    else
      var n, offset, len, keyLen := FromLe(s[..8]), FromLe(s[8..16]), FromLe(s[16..20]), FromLe(s[20..24]);
      if len > MAX_LEN || keyLen > MAX_KEY || n > head then Err(BadBounds)
      else if |s| < 24 + keyLen then Err(Truncated)
      else if !ValidUtf8(s[24..24 + keyLen]) then Err(BadUtf8)
      else Ok(Row(n, Placed(Key(s[24..24 + keyLen]), Location(offset, len)), s[24 + keyLen..]))
  }

  function DecodeRows(s: seq<byte>, count: nat, head: nat, rows: map<nat, Placed>)
    : Result<map<nat, Placed>, IndexError>
  {
    if count == 0 then Ok(rows)
    else
      match DecodeRow(s, head)
      case Err(e) => Err(e)
      case Ok(r) => DecodeRows(r.rest, count - 1, head, rows[r.n := r.row])
  }

  datatype Snapshot = Snapshot(head: nat, rows: map<nat, Placed>)

  function DecodeIndex(s: seq<byte>): Result<Snapshot, IndexError>
  {
    if |s| < 8 then Err(Truncated)
    else if s[..8] != MAGIC then Err(BadVersion)
    else if |s| < 24 then Err(Truncated)
    else
      var head, count := FromLe(s[8..16]), FromLe(s[16..24]);
      if count > MAX_ROWS then Err(TooManyRows)
      else
        match DecodeRows(s[24..], count, head, map[])
        case Err(e) => Err(e)
        case Ok(rows) => Ok(Snapshot(head, rows))
  }

  /** A `String` is UTF-8. */
  predicate IsText(key: Key) {
    ValidUtf8(key.text)
  }

  /** What the machine types of the running store already guarantee of a row. */
  predicate RowSized(n: nat, row: Placed) {
    && n < U64_LIMIT
    && row.at.offset < U64_LIMIT
    && row.at.len < U32_LIMIT
    && |row.key.text| < U32_LIMIT
    && IsText(row.key)
  }

  predicate Sized(head: nat, rows: map<nat, Placed>) {
    head < U64_LIMIT && |rows| < U64_LIMIT && forall n :: n in rows ==> RowSized(n, rows[n])
  }

  /** The limits only the reader enforces. */
  predicate Fits(head: nat, rows: map<nat, Placed>) {
    |rows| <= MAX_ROWS && forall n :: n in rows ==> RowWithin(n, rows[n], head)
  }

  lemma RowRoundTrip(n: nat, row: Placed, head: nat, rest: seq<byte>)
    requires RowSized(n, row)
    ensures DecodeRow(EncodeRow(n, row) + rest, head)
         == if RowWithin(n, row, head) then Ok(Row(n, row, rest)) else Err(BadBounds)
  {
    hide ToLe, FromLe, ValidUtf8, Capacity;
    CapacityOfWords();
    LeRoundTrip(n, 8);
    LeRoundTrip(row.at.offset, 8);
    LeRoundTrip(row.at.len, 4);
    LeRoundTrip(|row.key.text|, 4);
    var s := EncodeRow(n, row) + rest;
    assert s[..8] == ToLe(n, 8);
    assert s[8..16] == ToLe(row.at.offset, 8);
    assert s[16..20] == ToLe(row.at.len, 4);
    assert s[20..24] == ToLe(|row.key.text|, 4);
    assert s[24..24 + |row.key.text|] == row.key.text;
    assert s[24 + |row.key.text|..] == rest;
  }

  function Chosen(rows: map<nat, Placed>, order: seq<nat>, base: map<nat, Placed>): map<nat, Placed>
    requires forall i :: 0 <= i < |order| ==> order[i] in rows
  {
    if order == [] then base else Chosen(rows, order[1..], base[order[0] := rows[order[0]]])
  }

  predicate AllWithin(rows: map<nat, Placed>, order: seq<nat>, head: nat)
    requires forall i :: 0 <= i < |order| ==> order[i] in rows
  {
    order == [] || (RowWithin(order[0], rows[order[0]], head) && AllWithin(rows, order[1..], head))
  }

  lemma {:induction false} AllWithinSpec(rows: map<nat, Placed>, order: seq<nat>, head: nat)
    requires forall i :: 0 <= i < |order| ==> order[i] in rows
    ensures AllWithin(rows, order, head) <==> forall n :: n in order ==> RowWithin(n, rows[n], head)
  {
    if order != [] {
      AllWithinSpec(rows, order[1..], head);
      assert order == [order[0]] + order[1..];
    }
  }

  lemma {:induction false} RowsRoundTrip(rows: map<nat, Placed>, order: seq<nat>, head: nat, base: map<nat, Placed>)
    requires forall i :: 0 <= i < |order| ==> order[i] in rows && RowSized(order[i], rows[order[i]])
    ensures DecodeRows(EncodeRows(rows, order), |order|, head, base)
         == if AllWithin(rows, order, head) then Ok(Chosen(rows, order, base)) else Err(BadBounds)
  {
    if order != [] {
      var n, rest := order[0], order[1..];
      RowRoundTrip(n, rows[n], head, EncodeRows(rows, rest));
      if RowWithin(n, rows[n], head) {
        RowsRoundTrip(rows, rest, head, base[n := rows[n]]);
      }
    }
  }

  lemma {:induction false} ChosenSpec(rows: map<nat, Placed>, order: seq<nat>, base: map<nat, Placed>)
    requires forall i :: 0 <= i < |order| ==> order[i] in rows
    ensures forall n :: n in Chosen(rows, order, base) <==> n in order || n in base
    ensures forall n :: n in order ==> Chosen(rows, order, base)[n] == rows[n]
    ensures forall n :: n in base && n !in order ==> Chosen(rows, order, base)[n] == base[n]
  {
    if order != [] {
      var next := base[order[0] := rows[order[0]]];
      ChosenSpec(rows, order[1..], next);
      assert order == [order[0]] + order[1..];
    }
  }

  /** Reading back what was written gives exactly it, if and only if it is within the reader's limits. */
  lemma IndexRoundTrip(head: nat, rows: map<nat, Placed>)
    requires Sized(head, rows)
    ensures DecodeIndex(EncodeIndex(head, rows))
         == if |rows| > MAX_ROWS then Err(TooManyRows)
            else if Fits(head, rows) then Ok(Snapshot(head, rows)) else Err(BadBounds)
  {
    hide EncodeRows, DecodeRows, DecodeIndex, ToLe, FromLe, RowWithin, RowSized;
    var body := EncodeRows(rows, Listed(rows.Keys));
    HeaderRoundTrip(head, |rows|, body);
    assert EncodeIndex(head, rows) == MAGIC + ToLe(head, 8) + ToLe(|rows|, 8) + body;
    DecodeParts(EncodeIndex(head, rows), head, |rows|, body);
    AllRowsRoundTrip(head, rows, Listed(rows.Keys));
  }

  lemma DecodeParts(s: seq<byte>, head: nat, count: nat, body: seq<byte>)
    requires |s| >= 24 && s[..8] == MAGIC && FromLe(s[8..16]) == head && FromLe(s[16..24]) == count && s[24..] == body
    ensures DecodeIndex(s)
         == if count > MAX_ROWS then Err(TooManyRows)
            else match DecodeRows(body, count, head, map[])
                 case Err(e) => Err(e)
                 case Ok(rows) => Ok(Snapshot(head, rows))
  {
    hide DecodeRows, FromLe;
  }

  lemma AllRowsRoundTrip(head: nat, rows: map<nat, Placed>, order: seq<nat>)
    requires Sized(head, rows)
    requires forall n :: n in order <==> n in rows
    ensures DecodeRows(EncodeRows(rows, order), |order|, head, map[])
         == if forall n :: n in rows ==> RowWithin(n, rows[n], head) then Ok(rows) else Err(BadBounds)
  {
    hide EncodeRows, DecodeRows, Chosen, AllWithin, IsText, RowWithin;
    RowsRoundTrip(rows, order, head, map[]);
    ChosenSpec(rows, order, map[]);
    assert Chosen(rows, order, map[]) == rows;
    AllWithinSpec(rows, order, head);
  }

  lemma HeaderRoundTrip(head: nat, count: nat, body: seq<byte>)
    requires head < U64_LIMIT && count < U64_LIMIT
    ensures var s := MAGIC + ToLe(head, 8) + ToLe(count, 8) + body;
            s[..8] == MAGIC && FromLe(s[8..16]) == head && FromLe(s[16..24]) == count && s[24..] == body
  {
    CapacityOfWords();
    LeRoundTrip(head, 8);
    LeRoundTrip(count, 8);
    var s := MAGIC + ToLe(head, 8) + ToLe(count, 8) + body;
    assert s[8..16] == ToLe(head, 8);
    assert s[16..24] == ToLe(count, 8);
  }

  lemma {:induction false} EncodeRowsSnoc(rows: map<nat, Placed>, order: seq<nat>, i: nat)
    requires forall j :: 0 <= j < |order| ==> order[j] in rows
    requires i < |order|
    ensures EncodeRows(rows, order[..i + 1]) == EncodeRows(rows, order[..i]) + EncodeRow(order[i], rows[order[i]])
  {
    if i > 0 {
      EncodeRowsSnoc(rows, order[1..], i - 1);
      assert order[..i + 1][1..] == order[1..][..i];
      assert order[..i][1..] == order[1..][..i - 1];
    } else {
      assert order[..1][1..] == [];
    }
  }

  // ---- the layout, byte by byte

  /** Where row number `k` of an index begins. */
  function RowStart(rows: map<nat, Placed>, order: seq<nat>, k: nat): nat
    requires k <= |order| && forall i :: 0 <= i < |order| ==> order[i] in rows
  {
    if k == 0 then 24 else RowStart(rows, order, k - 1) + 24 + |rows[order[k - 1]].key.text|
  }

  /** A row at `at`: its number, its fragment's offset and length, its key's length and its key. */
  predicate RowAt(s: seq<byte>, at: nat, n: nat, row: Placed) {
    var k := |row.key.text|;
    && LeField(s, at, 8, n) && LeField(s, at + 8, 8, row.at.offset) && LeField(s, at + 16, 4, row.at.len)
    && LeField(s, at + 20, 4, k) && at + 24 + k <= |s| && s[at + 24..at + 24 + k] == row.key.text
  }

  lemma RowLayout(before: seq<byte>, n: nat, row: Placed, after: seq<byte>)
    requires |row.key.text| < U32_LIMIT
    ensures RowAt(before + EncodeRow(n, row) + after, |before|, n, row)
  {
    hide ToLe, LeField;
    var s, at := before + EncodeRow(n, row) + after, |before|;
    assert s[at..at + 8] == ToLe(n, 8);
    assert s[at + 8..at + 16] == ToLe(row.at.offset, 8);
    assert s[at + 16..at + 20] == ToLe(row.at.len, 4);
    assert s[at + 20..at + 24] == ToLe(|row.key.text|, 4);
    assert s[at + 24..at + 24 + |row.key.text|] == row.key.text;
    LeFieldOf(s, at, 8, n);
    LeFieldOf(s, at + 8, 8, row.at.offset);
    LeFieldOf(s, at + 16, 4, row.at.len);
    LeFieldOf(s, at + 20, 4, |row.key.text|);
  }

  lemma {:induction false} RowsSplit(rows: map<nat, Placed>, order: seq<nat>, k: nat)
    requires k <= |order| && forall i :: 0 <= i < |order| ==> order[i] in rows
    ensures |EncodeRows(rows, order[..k])| + 24 == RowStart(rows, order, k)
    ensures EncodeRows(rows, order) == EncodeRows(rows, order[..k]) + EncodeRows(rows, order[k..])
  {
    hide EncodeRow;
    if k == 0 {
      assert order[..0] == [] && order[0..] == order;
    } else {
      RowsSplit(rows, order, k - 1);
      EncodeRowsSnoc(rows, order, k - 1);
      var n := order[k - 1];
      assert order[k - 1..][1..] == order[k..] && order[k - 1..][0] == n;
      var a, b, c := EncodeRows(rows, order[..k - 1]), EncodeRow(n, rows[n]), EncodeRows(rows, order[k..]);
      assert a + (b + c) == a + b + c;
    }
  }

  lemma HeaderLayout(head: nat, count: nat, body: seq<byte>)
    ensures var s := MAGIC + ToLe(head, 8) + ToLe(count, 8) + body;
            s[..8] == MAGIC && LeField(s, 8, 8, head) && LeField(s, 16, 8, count)
  {
    hide ToLe, LeField;
    var s := MAGIC + ToLe(head, 8) + ToLe(count, 8) + body;
    assert s[8..16] == ToLe(head, 8) && s[16..24] == ToLe(count, 8);
    LeFieldOf(s, 8, 8, head);
    LeFieldOf(s, 16, 8, count);
  }

  lemma BodyLayout(header: seq<byte>, rows: map<nat, Placed>, order: seq<nat>, k: nat)
    requires |header| == 24 && k < |order| && forall i :: 0 <= i < |order| ==> order[i] in rows
    requires |rows[order[k]].key.text| < U32_LIMIT
    ensures RowAt(header + EncodeRows(rows, order), RowStart(rows, order, k), order[k], rows[order[k]])
  {
    hide EncodeRow, EncodeRows, RowAt, RowStart;
    RowsSplit(rows, order, k);
    FirstRow(rows, order[k..]);
    var front, n, tail := EncodeRows(rows, order[..k]), order[k], EncodeRows(rows, order[k..][1..]);
    assert header + (front + (EncodeRow(n, rows[n]) + tail)) == header + front + EncodeRow(n, rows[n]) + tail;
    RowLayout(header + front, n, rows[n], tail);
  }

  /** An index file: the magic, the head, the number of rows, and the rows in the order of their numbers. */
  lemma IndexLayout(head: nat, rows: map<nat, Placed>, k: nat)
    requires k < |rows| && forall n :: n in rows ==> |rows[n].key.text| < U32_LIMIT
    ensures var s, order := EncodeIndex(head, rows), Listed(rows.Keys);
            && s[..8] == [0x4C, 0x56, 0x33, 0x49, 0, 0, 0, 1]
            && LeField(s, 8, 8, head) && LeField(s, 16, 8, |rows|)
            && RowAt(s, RowStart(rows, order, k), order[k], rows[order[k]])
  {
    hide ToLe, LeField, EncodeRows, RowAt, RowStart, Listed;
    var order := Listed(rows.Keys);
    HeaderLayout(head, |rows|, EncodeRows(rows, order));
    BodyLayout(MAGIC + ToLe(head, 8) + ToLe(|rows|, 8), rows, order, k);
  }

  lemma FirstRow(rows: map<nat, Placed>, order: seq<nat>)
    requires order != [] && forall i :: 0 <= i < |order| ==> order[i] in rows
    ensures EncodeRows(rows, order) == EncodeRow(order[0], rows[order[0]]) + EncodeRows(rows, order[1..])
  {
  }

  method WriteRows(rows: map<nat, Placed>, order: seq<nat>) returns (bytes: seq<byte>)
    requires forall i :: 0 <= i < |order| ==> order[i] in rows
    ensures bytes == EncodeRows(rows, order)
  {
    bytes := [];
    var i := 0;
    while i < |order|
      invariant 0 <= i <= |order|
      invariant bytes == EncodeRows(rows, order[..i])
    {
      EncodeRowsSnoc(rows, order, i);
      bytes := bytes + EncodeRow(order[i], rows[order[i]]);
      i := i + 1;
    }
    assert order[..i] == order;
  }

  /** `write_index`: what is written to the temporary file before it is renamed. */
  method WriteIndex(head: nat, rows: map<nat, Placed>) returns (file: seq<byte>)
    ensures file == EncodeIndex(head, rows)
  {
    var body := WriteRows(rows, Listed(rows.Keys));
    file := MAGIC + ToLe(head, 8) + ToLe(|rows|, 8) + body;
  }

  /** `read_index`. */
  method ReadIndex(file: seq<byte>) returns (r: Result<Snapshot, IndexError>)
    ensures r == DecodeIndex(file)
  {
    hide FromLe, DecodeRow;
    if |file| < 8 { return Err(Truncated); }
    if file[..8] != MAGIC { return Err(BadVersion); }
    if |file| < 24 { return Err(Truncated); }
    var head, count := FromLe(file[8..16]), FromLe(file[16..24]);
    if count > MAX_ROWS { return Err(TooManyRows); }
    var rows: map<nat, Placed>, rest, left := map[], file[24..], count;
    while left > 0
      invariant 0 <= left <= count
      invariant DecodeRows(rest, left, head, rows) == DecodeRows(file[24..], count, head, map[])
    {
      var row := DecodeRow(rest, head);
      if row.Err? { return Err(row.error); }
      rows, rest, left := rows[row.value.n := row.value.row], row.value.rest, left - 1;
    }
    return Ok(Snapshot(head, rows));
  }
}

/**
  The copy-on-write store: its in-memory state, how opening reads it from a disk, and the exact sequence of disk
  actions of opening, a batch and a compaction.
 */
module CowSpec {
  import opened Bytes
  import opened Ordered
  import opened Results
  import opened Decimal
  import opened LibraryLog
  import opened IndexCodec
  import opened Disk

  datatype CowState = CowState(generation: nat, head: nat, keys: map<Key, nat>, sequence: map<nat, Placed>)

  const EMPTY := CowState(0, 0, map[], map[])

  // ---- the generation marker

  predicate IsAscii(s: string) {
    forall i :: 0 <= i < |s| ==> s[i] < 128 as char
  }

  function AsciiBytes(s: string): (b: seq<byte>)
    requires IsAscii(s)
    ensures |b| == |s|
  {
    seq(|s|, i requires 0 <= i < |s| => s[i] as int)
  }

  function FromAscii(b: seq<byte>): (s: string)
    requires forall i :: 0 <= i < |b| ==> b[i] < 128
    ensures |s| == |b|
  {
    seq(|b|, i requires 0 <= i < |b| => b[i] as char)
  }

  function MarkerText(generation: nat): seq<byte>
  {
    AsciiBytes(Digits(generation) + "\n")
  }

  function ParseMarker(b: seq<byte>): Option<nat>
  {
    if forall i :: 0 <= i < |b| ==> b[i] < 128 then ParseUnsigned(Trim(FromAscii(b)), U64_LIMIT) else None
  }

  lemma MarkerRoundTrip(generation: nat)
    ensures ParseMarker(MarkerText(generation)) == if generation < U64_LIMIT then Some(generation) else None
  {
    var d := Digits(generation);
    assert FromAscii(MarkerText(generation)) == d + "\n";
    assert IsDigit(d[0]) && IsDigit(d[|d| - 1]);
    assert (d + "\n")[..|d|] == d;
    assert Trim(d + "\n") == Trim(d) == d;
    DigitsValue(generation);
  }

  // ---- opening

  datatype OpenError = NoMarker | BadMarker | NoIndex | BadIndex(error: IndexError) | NoData | OutsidePayload

  /** Collecting `(key, seq)` pairs in sequence order into a map: the last row of a key wins. */
  function CollectKeys(rows: map<nat, Placed>, order: seq<nat>): map<Key, nat>
    requires forall i :: 0 <= i < |order| ==> order[i] in rows
  {
    if order == [] then map[]
    else CollectKeys(rows, order[..|order| - 1])[rows[order[|order| - 1]].key := order[|order| - 1]]
  }

  predicate Inside(rows: map<nat, Placed>, len: nat) {
    forall n :: n in rows ==>
      rows[n].at.offset + rows[n].at.len < U64_LIMIT && rows[n].at.offset + rows[n].at.len <= len
  }

  function Load(d: Disk): Result<CowState, OpenError>
    requires |d.dirs| > 0
    requires forall name :: name in d.Dir() ==> d.Dir()[name] in d.files
  {
    var dir := d.Dir();
    if Current !in dir then Err(NoMarker)
    else
      match ParseMarker(d.files[dir[Current]].Contents())
      case None => Err(BadMarker)
      case Some(g) =>
        if Index(g) !in dir then Err(NoIndex)
        else
          match DecodeIndex(d.files[dir[Index(g)]].Contents())
          case Err(e) => Err(BadIndex(e))
          case Ok(index) =>
            if Data(g) !in dir then Err(NoData)
            else if !Inside(index.rows, |d.files[dir[Data(g)]].Contents()|) then Err(OutsidePayload)
            else Ok(CowState(g, index.head, CollectKeys(index.rows, Listed(index.rows.Keys)), index.rows))
  }

  // ---- the actions

  /** A temporary file written, synced and renamed into place, when the next file created is `inode`. */
  function AtomicFile(inode: nat, temp: Name, final: Name, bytes: seq<byte>): (a: seq<Action>)
    ensures |a| == 4
  {
    [Create(temp), Append(inode, bytes), SyncFile(inode), Rename(temp, final)]
  }

  /** `write_index`. */
  function IndexActions(inode: nat, generation: nat, head: nat, rows: map<nat, Placed>): (a: seq<Action>)
    ensures |a| == 4
  {
    AtomicFile(inode, IndexNext(generation), Index(generation), EncodeIndex(head, rows))
  }

  /** `atomic_file` of the marker. */
  function MarkerActions(inode: nat, generation: nat): (a: seq<Action>)
    ensures |a| == 4
  {
    AtomicFile(inode, CurrentNext, Current, MarkerText(generation))
  }

  function InitActions(next: nat): seq<Action>
  {
    [Create(Data(0))] + IndexActions(next + 1, 0, 0, map[]) + MarkerActions(next + 2, 0) + [SyncDir]
  }

  function Appends(inode: nat, fragments: seq<seq<byte>>): (a: seq<Action>)
    ensures |a| == |fragments|
  {
    seq(|fragments|, i requires 0 <= i < |fragments| => Append(inode, fragments[i]))
  }

  function Bodies(writes: seq<Write>): (f: seq<seq<byte>>)
    ensures |f| == |writes|
  {
    seq(|writes|, i requires 0 <= i < |writes| => writes[i].fragment)
  }

  /** One turn of a batch's loop: a write whose fragment went to `offset`. */
  function AddWrite(st: CowState, offset: nat, w: Write): CowState
  {
    CowState(st.generation, st.head + 1, st.keys[w.key := st.head + 1],
             Replaced(st.head, st.keys, st.sequence, w.key, Placed(w.key, Location(offset, |w.fragment|))))
  }

  /** The state a batch builds, when the payload file is `len` long before its first write. */
  function Staged(st: CowState, len: nat, writes: seq<Write>): (r: CowState)
    ensures r.generation == st.generation && r.head == st.head + |writes|
  {
    if writes == [] then st
    else
      var init := writes[..|writes| - 1];
      AddWrite(Staged(st, len, init), len + TotalBytes(Bodies(init)), writes[|writes| - 1])
  }

  /** The writes a batch reaches: those up to the first fragment whose length does not fit its `u32` field. */
  function Reached(writes: seq<Write>): (r: seq<Write>)
    ensures r <= writes
  {
    if writes == [] then []
    else if |writes[0].fragment| >= U32_LIMIT then [writes[0]]
    else [writes[0]] + Reached(writes[1..])
  }

  predicate AllShort(writes: seq<Write>) {
    forall i :: 0 <= i < |writes| ==> |writes[i].fragment| < U32_LIMIT
  }

  function PayloadOf(d: Disk, st: CowState): nat
    requires |d.dirs| > 0 && Data(st.generation) in d.Dir()
  {
    d.Dir()[Data(st.generation)]
  }

  function PayloadBytes(d: Disk, st: CowState): seq<byte>
    requires |d.dirs| > 0 && Data(st.generation) in d.Dir() && PayloadOf(d, st) in d.files
  {
    d.files[PayloadOf(d, st)].Contents()
  }

  /** `read_exact` at a location, which every store that opened has checked to lie inside the payload. */
  function ReadAt(bytes: seq<byte>, at: Location): (f: seq<byte>)
  {
    if at.offset + at.len <= |bytes| then bytes[at.offset..at.offset + at.len] else []
  }

  /** The live fragments in sequence order, as a compaction copies them. */
  function LiveFragments(rows: map<nat, Placed>, order: seq<nat>, bytes: seq<byte>): (f: seq<seq<byte>>)
    requires forall i :: 0 <= i < |order| ==> order[i] in rows
    ensures |f| == |order|
  {
    seq(|order|, i requires 0 <= i < |order| => ReadAt(bytes, rows[order[i]].at))
  }

  /** Where a compaction puts the rows: each right after the one before it. */
  function Moved(rows: map<nat, Placed>, order: seq<nat>): (r: map<nat, Placed>)
    requires forall i :: 0 <= i < |order| ==> order[i] in rows
  {
    if order == [] then map[]
    else
      var init, n := order[..|order| - 1], order[|order| - 1];
      Moved(rows, init)[n := Placed(rows[n].key, Location(Lengths(rows, init), rows[n].at.len))]
  }

  function Lengths(rows: map<nat, Placed>, order: seq<nat>): nat
    requires forall i :: 0 <= i < |order| ==> order[i] in rows
  {
    if order == [] then 0
    else Lengths(rows, order[..|order| - 1]) + rows[order[|order| - 1]].at.len
  }

  datatype Op =
    | Batch(writes: seq<Write>, publish: bool)
    | Compact

  /** A batch fails on an over-long fragment, a compaction when a file of the next generation is in its way. */
  predicate Succeeds(d: Disk, st: CowState, op: Op)
    requires |d.dirs| > 0
  {
    match op
    case Batch(writes, _) => AllShort(writes)
    case Compact => Data(st.generation + 1) !in d.Dir()
  }

  function OpState(d: Disk, st: CowState, op: Op): CowState
    requires |d.dirs| > 0 && Data(st.generation) in d.Dir() && PayloadOf(d, st) in d.files
  {
    if !Succeeds(d, st, op) then st
    else
      match op
      case Batch(writes, publish) => if publish then Staged(st, |PayloadBytes(d, st)|, writes) else st
      case Compact => CowState(st.generation + 1, st.head, st.keys, Moved(st.sequence, Listed(st.sequence.Keys)))
  }

  function OpLog(d: Disk, st: CowState, log: Log, op: Op): Log
    requires |d.dirs| > 0
  {
    if Succeeds(d, st, op) && op.Batch? && op.publish then log + op.writes else log
  }

  function OpActions(d: Disk, st: CowState, op: Op): seq<Action>
    requires |d.dirs| > 0 && Data(st.generation) in d.Dir() && PayloadOf(d, st) in d.files
  {
    match op
    case Batch(writes, publish) =>
      var data := PayloadOf(d, st);
      if !AllShort(writes) then Appends(data, Bodies(Reached(writes)))
      else
        var payload := Appends(data, Bodies(writes)) + [SyncFile(data)];
        if !publish then payload
        else
          var after := Staged(st, |PayloadBytes(d, st)|, writes);
          payload + IndexActions(d.next, st.generation, after.head, after.sequence) + [SyncDir]
    case Compact =>
      if !Succeeds(d, st, op) then []
      else
        var g, rows, order := st.generation, st.sequence, Listed(st.sequence.Keys);
        [Create(Data(g + 1))] + Appends(d.next, LiveFragments(rows, order, PayloadBytes(d, st)))
        + [SyncFile(d.next)]
        + IndexActions(d.next + 1, g + 1, st.head, Moved(rows, order))
        + MarkerActions(d.next + 2, g + 1)
        + [SyncDir, Remove(Data(g)), Remove(Index(g)), SyncDir]
  }
}

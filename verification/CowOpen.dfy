/**
  Opening any directory whatever: what an opened store can rely on even when its files were written by something else,
  and what a compaction leaves behind.
 */
module CowOpen {
  import opened Bytes
  import opened Ordered
  import opened LibraryLog
  import opened IndexCodec
  import opened Disk
  import opened CowSpec

  lemma {:induction false} DecodedWithin(s: seq<byte>, count: nat, head: nat, base: map<nat, Placed>)
    requires DecodeRows(s, count, head, base).Ok?
    requires forall n :: n in base ==> RowWithin(n, base[n], head)
    ensures var rows := DecodeRows(s, count, head, base).value;
            (forall n :: n in rows ==> RowWithin(n, rows[n], head)) && |rows| <= |base| + count
    decreases count
  {
    hide DecodeRow, RowWithin;
    if count > 0 {
      var r := DecodeRow(s, head).value;
      RowDecodedWithin(s, head);
      assert base[r.n := r.row].Keys == base.Keys + {r.n};
      DecodedWithin(r.rest, count - 1, head, base[r.n := r.row]);
    }
  }

  lemma RowDecodedWithin(s: seq<byte>, head: nat)
    requires DecodeRow(s, head).Ok?
    ensures RowWithin(DecodeRow(s, head).value.n, DecodeRow(s, head).value.row, head)
  {
    hide FromLe, ValidUtf8;
  }

  /** The key map points each key to the last of its rows, and to nothing else. */
  ghost predicate KeysLast(rows: map<nat, Placed>, keys: map<Key, nat>) {
    && (forall k :: k in keys ==> keys[k] in rows && rows[keys[k]].key == k)
    && (forall n :: n in rows ==> rows[n].key in keys && n <= keys[rows[n].key])
  }

  lemma {:induction false} Collected(rows: map<nat, Placed>, order: seq<nat>)
    requires Ascending(order) && forall i :: 0 <= i < |order| ==> order[i] in rows
    ensures var keys := CollectKeys(rows, order);
            && (forall k :: k in keys ==> keys[k] in order && keys[k] in rows && rows[keys[k]].key == k)
            && (forall n :: n in order ==> rows[n].key in keys && n <= keys[rows[n].key])
  {
    if order != [] {
      var init, last := order[..|order| - 1], order[|order| - 1];
      Collected(rows, init);
      assert order == init + [last];
      forall n | n in init ensures n < last { var i :| 0 <= i < |init| && init[i] == n; assert order[i] == n; }
    }
  }

  lemma DecodedFits(s: seq<byte>)
    requires DecodeIndex(s).Ok?
    ensures Fits(DecodeIndex(s).value.head, DecodeIndex(s).value.rows)
  {
    hide DecodeRows, FromLe, RowWithin;
    DecodedWithin(s[24..], FromLe(s[16..24]), FromLe(s[8..16]), map[]);
  }

  /** Every row lies inside a payload of that length and within the reader's limits. */
  predicate Readable(st: CowState, len: nat) {
    && |st.sequence| <= 50_000
    && forall n :: n in st.sequence ==>
         && st.sequence[n].at.offset + st.sequence[n].at.len <= len
         && st.sequence[n].at.len <= 204_800 && |st.sequence[n].key.text| <= 256 && n <= st.head
  }

  lemma FitsReadable(st: CowState, len: nat)
    requires Fits(st.head, st.sequence) && Inside(st.sequence, len)
    ensures Readable(st, len)
  {
  }

  /**
    Whatever bytes the files hold, a store that opens has every row inside its payload file and within the reader's
    limits, and points each key to its last row: no later read goes outside the payload.
   */
  lemma OpenedIsReadable(d: Disk)
    requires |d.dirs| > 0 && forall name :: name in d.Dir() ==> d.Dir()[name] in d.files
    requires Load(d).Ok?
    ensures var st := Load(d).value;
            && Data(st.generation) in d.Dir()
            && Readable(st, |d.files[d.Dir()[Data(st.generation)]].Contents()|) && KeysLast(st.sequence, st.keys)
  {
    hide DecodeIndex, CollectKeys, ParseMarker, Inside, Fits, Readable, KeysLast;
    var g := ParseMarker(d.files[d.Dir()[Current]].Contents()).value;
    var s := d.files[d.Dir()[Index(g)]].Contents();
    DecodedFits(s);
    FitsReadable(Load(d).value, |d.files[d.Dir()[Data(g)]].Contents()|);
    CollectedLast(DecodeIndex(s).value.rows);
  }

  lemma CollectedLast(rows: map<nat, Placed>)
    ensures KeysLast(rows, CollectKeys(rows, Listed(rows.Keys)))
  {
    hide CollectKeys, Listed, Ascending;
    var order := Listed(rows.Keys);
    assert forall n :: n in order <==> n in rows.Keys;
    LastOf(rows, order);
  }

  lemma LastOf(rows: map<nat, Placed>, order: seq<nat>)
    requires Ascending(order) && forall n :: n in order <==> n in rows.Keys
    ensures (forall i :: 0 <= i < |order| ==> order[i] in rows) && KeysLast(rows, CollectKeys(rows, order))
  {
    hide CollectKeys, Ascending;
    forall i | 0 <= i < |order| ensures order[i] in rows { assert order[i] in order; }
    Collected(rows, order);
  }

  /** A compaction that succeeds leaves nothing of the generation before it, and the directory synced. */
  lemma CompactionCleansUp(d: Disk, st: CowState)
    requires |d.dirs| > 0 && Data(st.generation) in d.Dir() && PayloadOf(d, st) in d.files
    requires Succeeds(d, st, Compact)
    ensures var after := Run(d, OpActions(d, st, Compact));
            && |after.dirs| == 1 && Data(st.generation) !in after.Dir() && Index(st.generation) !in after.Dir()
  {
    hide IndexActions, MarkerActions, Appends, LiveFragments, Moved, Do;
    var g, rows, order := st.generation, st.sequence, Listed(st.sequence.Keys);
    var front := [Create(Data(g + 1))] + Appends(d.next, LiveFragments(rows, order, PayloadBytes(d, st)))
                 + [SyncFile(d.next)] + IndexActions(d.next + 1, g + 1, st.head, Moved(rows, order))
                 + MarkerActions(d.next + 2, g + 1) + [SyncDir];
    var last := [Remove(Data(g)), Remove(Index(g)), SyncDir];
    assert OpActions(d, st, Compact) == front + last;
    RunConcat(d, front, last);
    Cleaned(Run(d, front), g);
  }

  lemma Cleaned(d: Disk, g: nat)
    requires |d.dirs| > 0
    ensures var after := Run(d, [Remove(Data(g)), Remove(Index(g)), SyncDir]);
            |after.dirs| == 1 && Data(g) !in after.Dir() && Index(g) !in after.Dir()
  {
    var a, b, c := Remove(Data(g)), Remove(Index(g)), SyncDir;
    assert [a, b, c][..2] == [a, b] && [a, b][..1] == [a] && [a][..0] == [];
    var d1 := Do(d, a);
    var d2 := Do(d1, b);
    assert Run(d, [a]) == d1 && Run(d, [a, b]) == d2;
  }
}

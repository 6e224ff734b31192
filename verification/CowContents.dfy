/** What a payload file and a row map say about the log, and how a batch and a compaction carry it over. */
module CowContents {
  import opened Bytes
  import opened LibraryLog
  import opened IndexCodec
  import opened CowSpec

  predicate RowHolds(bytes: seq<byte>, n: nat, row: Placed, log: Log) {
    && 1 <= n <= |log|
    && row.key == log[n - 1].key
    && row.at.offset + row.at.len <= |bytes|
    && ReadAt(bytes, row.at) == log[n - 1].fragment
  }

  /** Every row locates its write's bytes. */
  predicate Holds(bytes: seq<byte>, rows: map<nat, Placed>, log: Log) {
    forall n :: n in rows ==> RowHolds(bytes, n, rows[n], log)
  }

  ghost predicate Describes(bytes: seq<byte>, st: CowState, log: Log) {
    Tracks(st.head, st.keys, st.sequence, log) && Holds(bytes, st.sequence, log)
  }

  function Concat(fragments: seq<seq<byte>>): (b: seq<byte>)
    ensures |b| == TotalBytes(fragments)
  {
    if fragments == [] then [] else Concat(fragments[..|fragments| - 1]) + fragments[|fragments| - 1]
  }

  /** Bytes added at the end disturb no row, and neither does a later write. */
  lemma RowHoldsMore(bytes: seq<byte>, more: seq<byte>, n: nat, row: Placed, log: Log, later: Log)
    requires RowHolds(bytes, n, row, log)
    ensures RowHolds(bytes + more, n, row, log + later)
  {
    assert ReadAt(bytes + more, row.at) == ReadAt(bytes, row.at);
  }

  lemma HoldsMore(bytes: seq<byte>, more: seq<byte>, rows: map<nat, Placed>, log: Log, later: Log)
    requires Holds(bytes, rows, log)
    ensures Holds(bytes + more, rows, log + later)
  {
    forall n | n in rows ensures RowHolds(bytes + more, n, rows[n], log + later) {
      RowHoldsMore(bytes, more, n, rows[n], log, later);
    }
  }

  lemma DescribesPrefix(bytes: seq<byte>, longer: seq<byte>, st: CowState, log: Log)
    requires Describes(bytes, st, log) && bytes <= longer
    ensures Describes(longer, st, log)
  {
    HoldsMore(bytes, longer[|bytes|..], st.sequence, log, []);
    assert longer == bytes + longer[|bytes|..];
    assert log + [] == log;
  }

  lemma NewRowHolds(bytes: seq<byte>, log: Log, w: Write)
    ensures RowHolds(bytes + w.fragment, |log| + 1, Placed(w.key, Location(|bytes|, |w.fragment|)), log + [w])
  {
  }

  lemma DescribesWrite(bytes: seq<byte>, st: CowState, log: Log, w: Write)
    requires Describes(bytes, st, log)
    ensures Describes(bytes + w.fragment, AddWrite(st, |bytes|, w), log + [w])
  {
    TracksWrite(st.head, st.keys, st.sequence, log, w, Placed(w.key, Location(|bytes|, |w.fragment|)));
    NewRowHolds(bytes, log, w);
    HoldsMore(bytes, w.fragment, st.sequence, log, [w]);
  }

  /** A staged batch describes the log with its writes, in the payload with their fragments. */
  lemma {:induction false} DescribesStaged(bytes: seq<byte>, st: CowState, log: Log, writes: seq<Write>)
    requires Describes(bytes, st, log)
    ensures Describes(bytes + Concat(Bodies(writes)), Staged(st, |bytes|, writes), log + writes)
  {
    hide Describes;
    if writes == [] {
      assert bytes + Concat(Bodies(writes)) == bytes && log + writes == log;
    } else {
      var init, w := writes[..|writes| - 1], writes[|writes| - 1];
      DescribesStaged(bytes, st, log, init);
      DescribesWrite(bytes + Concat(Bodies(init)), Staged(st, |bytes|, init), log + init, w);
      BodiesSnoc(bytes, log, writes);
      assert Staged(st, |bytes|, writes)
          == AddWrite(Staged(st, |bytes|, init), |bytes + Concat(Bodies(init))|, w);
    }
  }

  lemma BodiesSnoc(bytes: seq<byte>, log: Log, writes: seq<Write>)
    requires writes != []
    ensures bytes + Concat(Bodies(writes))
         == bytes + Concat(Bodies(writes[..|writes| - 1])) + writes[|writes| - 1].fragment
    ensures log + writes == log + writes[..|writes| - 1] + [writes[|writes| - 1]]
  {
    assert Bodies(writes)[..|writes| - 1] == Bodies(writes[..|writes| - 1]);
  }

  // ---- compaction

  lemma {:induction false} MovedKeys(rows: map<nat, Placed>, order: seq<nat>)
    requires forall i :: 0 <= i < |order| ==> order[i] in rows
    ensures forall n :: n in Moved(rows, order) <==> n in order
  {
    if order != [] {
      MovedKeys(rows, order[..|order| - 1]);
      assert order == order[..|order| - 1] + [order[|order| - 1]];
    }
  }

  lemma {:induction false} MovedLengths(rows: map<nat, Placed>, order: seq<nat>, bytes: seq<byte>)
    requires forall i :: 0 <= i < |order| ==> order[i] in rows
    requires forall i :: 0 <= i < |order| ==> rows[order[i]].at.offset + rows[order[i]].at.len <= |bytes|
    ensures TotalBytes(LiveFragments(rows, order, bytes)) == Lengths(rows, order)
  {
    if order != [] {
      var init := order[..|order| - 1];
      MovedLengths(rows, init, bytes);
      assert LiveFragments(rows, order, bytes)[..|order| - 1] == LiveFragments(rows, init, bytes);
    }
  }

  lemma MovedRowHolds(packed: seq<byte>, bytes: seq<byte>, n: nat, row: Placed, log: Log)
    requires RowHolds(bytes, n, row, log)
    ensures RowHolds(packed + ReadAt(bytes, row.at), n, Placed(row.key, Location(|packed|, row.at.len)), log)
  {
  }

  lemma {:induction false} MovedHolds(rows: map<nat, Placed>, order: seq<nat>, bytes: seq<byte>, log: Log)
    requires forall i :: 0 <= i < |order| ==> order[i] in rows
    requires forall i :: 0 <= i < |order| ==> RowHolds(bytes, order[i], rows[order[i]], log)
    ensures Holds(Concat(LiveFragments(rows, order, bytes)), Moved(rows, order), log)
  {
    if order != [] {
      var init, n := order[..|order| - 1], order[|order| - 1];
      MovedHolds(rows, init, bytes, log);
      MovedLengths(rows, init, bytes);
      var packed, fragment := Concat(LiveFragments(rows, init, bytes)), ReadAt(bytes, rows[n].at);
      assert LiveFragments(rows, order, bytes)[..|order| - 1] == LiveFragments(rows, init, bytes);
      assert Concat(LiveFragments(rows, order, bytes)) == packed + fragment;
      HoldsMore(packed, fragment, Moved(rows, init), log, []);
      assert log + [] == log;
      MovedRowHolds(packed, bytes, n, rows[n], log);
    }
  }

  /** A compaction describes the same log in a payload of nothing but the live fragments. */
  lemma DescribesMoved(bytes: seq<byte>, st: CowState, log: Log, order: seq<nat>)
    requires Describes(bytes, st, log)
    requires forall n :: n in order <==> n in st.sequence
    ensures Describes(Concat(LiveFragments(st.sequence, order, bytes)),
                      CowState(st.generation + 1, st.head, st.keys, Moved(st.sequence, order)), log)
    ensures |Concat(LiveFragments(st.sequence, order, bytes))| == Lengths(st.sequence, order)
  {
    hide Tracks, RowHolds, ReadAt, Concat, Moved, LiveFragments, Lengths;
    MovedKeys(st.sequence, order);
    assert Moved(st.sequence, order).Keys == st.sequence.Keys;
    TracksSameRows(st.head, st.keys, st.sequence, Moved(st.sequence, order), log);
    MovedHolds(st.sequence, order, bytes, log);
    forall i | 0 <= i < |order|
      ensures st.sequence[order[i]].at.offset + st.sequence[order[i]].at.len <= |bytes|
    {
      HeldInside(bytes, st.sequence, log, order[i]);
    }
    MovedLengths(st.sequence, order, bytes);
  }

  lemma HeldInside(bytes: seq<byte>, rows: map<nat, Placed>, log: Log, n: nat)
    requires Holds(bytes, rows, log) && n in rows
    ensures rows[n].at.offset + rows[n].at.len <= |bytes|
  {
  }
}

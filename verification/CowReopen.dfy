/** What opening finds on a disk a crash left. */
module CowReopen {
  import opened Bytes
  import opened Ordered
  import opened Results
  import opened LibraryLog
  import opened IndexCodec
  import opened Disk
  import opened CowSpec
  import opened CowContents
  import opened CowCrash
  import opened CowOps

  /** The integers of the process have not overflowed. */
  predicate Machine(st: CowState) {
    && st.generation < U64_LIMIT
    && Sized(st.head, st.sequence)
    && forall n :: n in st.sequence ==> st.sequence[n].at.offset + st.sequence[n].at.len < U64_LIMIT
  }

  // ---- the key map is rebuilt from the rows

  lemma {:induction false} CollectSpec(rows: map<nat, Placed>, order: seq<nat>)
    requires forall i :: 0 <= i < |order| ==> order[i] in rows
    ensures forall k :: k in CollectKeys(rows, order) ==>
              CollectKeys(rows, order)[k] in rows && rows[CollectKeys(rows, order)[k]].key == k
    ensures forall n :: n in order ==> rows[n].key in CollectKeys(rows, order)
  {
    if order != [] {
      var init := order[..|order| - 1];
      CollectSpec(rows, init);
      assert order == init + [order[|order| - 1]];
    }
  }

  /** A row of a tracked table is the latest write of its key. */
  lemma RowIsLatest(bytes: seq<byte>, st: CowState, log: Log, n: nat)
    requires Describes(bytes, st, log) && n in st.sequence
    ensures st.sequence[n].key in st.keys && st.keys[st.sequence[n].key] == n
  {
    assert RowHolds(bytes, n, st.sequence[n], log);
    assert Live(log, n);
  }

  lemma KeyHasRow(bytes: seq<byte>, st: CowState, log: Log, k: Key)
    requires Describes(bytes, st, log) && k in st.keys
    ensures st.keys[k] in st.sequence && st.sequence[st.keys[k]].key == k
  {
    assert Live(log, st.keys[k]);
    assert RowHolds(bytes, st.keys[k], st.sequence[st.keys[k]], log);
  }

  /** Reopening rebuilds exactly the key map the running store held. */
  lemma KeysRebuilt(bytes: seq<byte>, st: CowState, log: Log)
    requires Describes(bytes, st, log)
    ensures CollectKeys(st.sequence, Listed(st.sequence.Keys)) == st.keys
  {
    hide Describes, CollectKeys, Listed;
    var order := Listed(st.sequence.Keys);
    CollectSpec(st.sequence, order);
    var found := CollectKeys(st.sequence, order);
    forall k | k in found ensures k in st.keys && st.keys[k] == found[k] {
      RowIsLatest(bytes, st, log, found[k]);
    }
    forall k | k in st.keys ensures k in found {
      KeyHasRow(bytes, st, log, k);
      assert st.keys[k] in order;
    }
  }

  // ---- opening

  /** What opening answers for a published state: it, unless it is past the limits only the reader checks. */
  function Reopened(st: CowState): Result<CowState, OpenError> {
    if |st.sequence| > MAX_ROWS then Err(BadIndex(TooManyRows))
    else if Fits(st.head, st.sequence) then Ok(st)
    else Err(BadIndex(BadBounds))
  }

  lemma LoadPublished(d: Disk, st: CowState, log: Log)
    requires Quiet(d, st, log) && Machine(st)
    ensures Load(d) == Reopened(st)
  {
    hide Describes, Listed, CollectKeys, DecodeIndex, EncodeIndex, MarkerText, ParseMarker, Fits, Sized;
    assert d.Dir() in d.dirs;
    QuietFacts(d, st, log);
    var bytes := PayloadBytes(d, st);
    MarkerRoundTrip(st.generation);
    IndexRoundTrip(st.head, st.sequence);
    KeysRebuilt(bytes, st, log);
    RowsInside(bytes, st, log);
    assert MarkerText(st.generation) + [] == MarkerText(st.generation);
    assert EncodeIndex(st.head, st.sequence) + [] == EncodeIndex(st.head, st.sequence);
  }

  lemma RowsInside(bytes: seq<byte>, st: CowState, log: Log)
    requires Describes(bytes, st, log) && Machine(st)
    ensures Inside(st.sequence, |bytes|)
  {
    hide Tracks, Sized;
    forall n | n in st.sequence
      ensures st.sequence[n].at.offset + st.sequence[n].at.len <= |bytes|
    {
      HeldInside(bytes, st.sequence, log, n);
    }
  }

  lemma CutKeeps(before: File, after: File)
    requires Cut(before, after)
    ensures after.pending == [] && before.synced <= after.synced
    ensures before.pending == [] ==> after == before
  {
    var k :| 0 <= k <= |before.pending| && after == File(before.synced + before.pending[..k], []);
    assert before.pending == [] ==> before.synced + before.pending[..k] == before.synced;
  }

  /** A crash keeps whatever the version it leaves published. */
  lemma CrashKeeps(d: Disk, c: Disk, st: CowState, log: Log)
    requires CrashesTo(d, c) && d.Valid()
    requires Publishes(d.files, c.dirs[0], st, log)
    ensures Quiet(c, st, log)
  {
    hide Describes, MarkerText, EncodeIndex, Cut;
    CrashValid(d, c);
    var dir, g := c.dirs[0], st.generation;
    CutKeeps(d.files[dir[Current]], c.files[dir[Current]]);
    CutKeeps(d.files[dir[Index(g)]], c.files[dir[Index(g)]]);
    CutKeeps(d.files[dir[Data(g)]], c.files[dir[Data(g)]]);
    DescribesPrefix(d.files[dir[Data(g)]].synced, c.files[dir[Data(g)]].synced, st, log);
  }

  /** A crash of a safe disk reopens to exactly one of the two states, and leaves a disk quiet on it. */
  lemma SafeReopens(d: Disk, c: Disk, st: CowState, log: Log, st': CowState, log': Log)
    requires Safe(d, st, log, st', log') && CrashesTo(d, c)
    requires Machine(st) && Machine(st')
    ensures c.Valid()
    ensures || (Quiet(c, st, log) && Load(c) == Reopened(st))
            || (Quiet(c, st', log') && Load(c) == Reopened(st'))
  {
    hide Publishes, Machine, Cut, Quiet, Load;
    CrashValid(d, c);
    assert c.dirs[0] in d.dirs;
    if Publishes(d.files, c.dirs[0], st, log) {
      CrashKeeps(d, c, st, log);
      LoadPublished(c, st, log);
    } else {
      CrashKeeps(d, c, st', log');
      LoadPublished(c, st', log');
    }
  }
}

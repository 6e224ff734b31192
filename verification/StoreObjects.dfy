/** The two stores as the objects the benchmark drives: fields updated in place by loops over writes and rows. */
module StoreObjects {
  import opened Bytes
  import opened Ordered
  import opened Results
  import opened LibraryLog
  import opened IndexCodec
  import opened Disk
  import opened CowSpec
  import opened CowCrash
  import opened Stores

  /** `checksum_bytes`. */
  method Checksum(start: bv64, bytes: seq<byte>) returns (checksum: bv64)
    ensures checksum == ChecksumBytes(start, bytes)
  {
    hide MixByte;
    checksum := start;
    for i := 0 to |bytes|
      invariant checksum == ChecksumBytes(start, bytes[..i])
    {
      assert bytes[..i + 1][..i] == bytes[..i];
      checksum := MixByte(checksum, bytes[i]);
    }
    assert bytes[..|bytes|] == bytes;
  }

  lemma TallySnoc(fragments: seq<seq<byte>>, i: nat)
    requires i < |fragments|
    ensures TotalBytes(fragments[..i + 1]) == TotalBytes(fragments[..i]) + |fragments[i]|
    ensures ChecksumAll(fragments[..i + 1]) == ChecksumBytes(ChecksumAll(fragments[..i]), fragments[i])
  {
    assert fragments[..i + 1][..i] == fragments[..i];
  }

  lemma TallyStop(head: nat, fragments: seq<seq<byte>>, limit: nat, i: nat)
    requires i <= |fragments| && (i == limit > 0 || (i == |fragments| && (limit == 0 || i < limit)))
    ensures Tally(head, fragments, limit)
         == Answer(head, i, TotalBytes(fragments[..i]), ChecksumAll(fragments[..i]))
  {
    assert i == |fragments| ==> fragments[..i] == fragments;
  }

  lemma {:induction false} ReachedStops(writes: seq<Write>, i: nat)
    requires i < |writes| && AllShort(writes[..i]) && |writes[i].fragment| >= U32_LIMIT
    ensures Reached(writes) == writes[..i + 1]
  {
    if i > 0 {
      assert writes[0] == writes[..i][0];
      assert writes[1..][..i - 1] == writes[..i][1..];
      ReachedStops(writes[1..], i - 1);
    }
  }

  lemma AppendsSnoc(d: Disk, data: nat, writes: seq<Write>, i: nat)
    requires |d.dirs| > 0 && data in d.files && i < |writes|
    ensures Do(Run(d, Appends(data, Bodies(writes[..i]))), Append(data, writes[i].fragment))
         == Run(d, Appends(data, Bodies(writes[..i + 1])))
    ensures Run(d, Appends(data, Bodies(writes[..i]))).dirs == d.dirs
    ensures data in Run(d, Appends(data, Bodies(writes[..i]))).files
    ensures |Run(d, Appends(data, Bodies(writes[..i]))).files[data].Contents()|
         == |d.files[data].Contents()| + TotalBytes(Bodies(writes[..i]))
  {
    hide Do;
    RunAppends(d, data, Bodies(writes[..i]));
    assert Appends(data, Bodies(writes[..i + 1]))
        == Appends(data, Bodies(writes[..i])) + [Append(data, writes[i].fragment)];
    RunSnoc(d, Appends(data, Bodies(writes[..i])), Append(data, writes[i].fragment));
  }

  lemma StagedSnoc(st: CowState, len: nat, writes: seq<Write>, i: nat)
    requires i < |writes|
    ensures Staged(st, len, writes[..i + 1])
         == AddWrite(Staged(st, len, writes[..i]), len + TotalBytes(Bodies(writes[..i])), writes[i])
  {
    assert writes[..i + 1][..i] == writes[..i];
  }

  lemma NothingStaged(d: Disk, data: nat, st: CowState, len: nat, writes: seq<Write>)
    requires |d.dirs| > 0
    ensures Run(d, Appends(data, Bodies(writes[..0]))) == d && Staged(st, len, writes[..0]) == st
  {
    assert Appends(data, Bodies(writes[..0])) == [];
  }

  /** One turn of a compaction's loop. */
  lemma CopyStep(d: Disk, inode: nat, rows: map<nat, Placed>, order: seq<nat>, payload: seq<byte>, i: nat)
    requires |d.dirs| > 0 && i < |order| && forall j :: 0 <= j < |order| ==> order[j] in rows
    ensures var live, n := LiveFragments(rows, order, payload), order[i];
            && Do(Run(d, Appends(inode, live[..i])), Append(inode, ReadAt(payload, rows[n].at)))
               == Run(d, Appends(inode, live[..i + 1]))
            && Moved(rows, order[..i + 1])
               == Moved(rows, order[..i])[n := Placed(rows[n].key, Location(Lengths(rows, order[..i]), rows[n].at.len))]
            && Lengths(rows, order[..i + 1]) == Lengths(rows, order[..i]) + rows[n].at.len
  {
    hide Do, ReadAt;
    var live := LiveFragments(rows, order, payload);
    assert order[..i + 1][..i] == order[..i];
    assert Appends(inode, live[..i + 1]) == Appends(inode, live[..i]) + [Append(inode, live[i])];
    RunSnoc(d, Appends(inode, live[..i]), Append(inode, live[i]));
  }

  /** Four actions one after another. */
  lemma RunFour(d: Disk, a: seq<Action>)
    requires |d.dirs| > 0 && |a| == 4
    ensures Run(d, a) == Do(Do(Do(Do(d, a[0]), a[1]), a[2]), a[3])
  {
    hide Do, Run;
    assert a == a[..3] + [a[3]] && a[..3] == a[..2] + [a[2]] && a[..2] == [a[0]] + [a[1]];
    RunSnoc(d, a[..3], a[3]);
    RunSnoc(d, a[..2], a[2]);
    RunSnoc(d, [a[0]], a[1]);
    RunOne(d, a[0]);
  }

  class CowStore {
    /** The directory, as the process and every other reader of it see it. */
    var disk: Disk
    var state: CowState

    predicate Valid()
      reads this
    {
      && |disk.dirs| > 0
      && Data(state.generation) in disk.Dir() && PayloadOf(disk, state) in disk.files
    }

    constructor (disk: Disk, state: CowState)
      ensures this.disk == disk && this.state == state
    {
      this.disk, this.state := disk, state;
    }

    /** `write_index`, and `atomic_file`: a temporary file written, synced and renamed. */
    method Replace(temp: Name, final: Name, bytes: seq<byte>)
      requires |disk.dirs| > 0
      modifies this`disk
      ensures disk == Run(old(disk), AtomicFile(old(disk).next, temp, final, bytes))
      ensures |disk.dirs| > 0
    {
      var inode := disk.next;
      RunFour(disk, AtomicFile(inode, temp, final, bytes));
      disk := Do(disk, Create(temp));
      disk := Do(disk, Append(inode, bytes));
      disk := Do(disk, SyncFile(inode));
      disk := Do(disk, Rename(temp, final));
    }

    /** The loop of `batch_stage`: fragments appended, rows and keys replaced in copies of the maps. */
    method Stage(writes: seq<Write>) returns (ok: bool, staged: CowState)
      requires Valid()
      modifies this`disk
      ensures |disk.dirs| > 0
      ensures ok == AllShort(writes)
      ensures ok ==> staged == Staged(state, |PayloadBytes(old(disk), state)|, writes)
      ensures disk == Run(old(disk), Appends(PayloadOf(old(disk), state),
                                             Bodies(if ok then writes else Reached(writes))))
    {
      hide Do, Run, Staged, Reached, Bodies, Appends, TotalBytes;
      var data := PayloadOf(disk, state);
      ghost var d0, len := disk, |disk.files[data].Contents()|;
      staged := state;
      var i := 0;
      NothingStaged(d0, data, state, len, writes);
      while i < |writes|
        invariant 0 <= i <= |writes| && AllShort(writes[..i])
        invariant disk == Run(d0, Appends(data, Bodies(writes[..i])))
        invariant staged == Staged(state, len, writes[..i])
      {
        var key, fragment := writes[i].key, writes[i].fragment;
        AppendsSnoc(d0, data, writes, i);
        StagedSnoc(state, len, writes, i);
        var offset := |disk.files[data].Contents()|;
        disk := Do(disk, Append(data, fragment));
        if |fragment| >= U32_LIMIT {
          ReachedStops(writes, i);
          ok := false;
          return;
        }
        var head, keys, rows := staged.head + 1, staged.keys, staged.sequence;
        if key in keys { rows := rows - {keys[key]}; }
        keys := keys[key := head];
        rows := rows[head := Placed(key, Location(offset, |fragment|))];
        staged := CowState(state.generation, head, keys, rows);
        i := i + 1;
      }
      assert writes[..i] == writes;
      ok := true;
    }

    /** `batch_stage`. */
    method BatchStage(writes: seq<Write>, publish: bool) returns (ok: bool)
      requires Valid()
      modifies this
      ensures disk == Run(old(disk), OpActions(old(disk), old(state), Batch(writes, publish)))
      ensures state == OpState(old(disk), old(state), Batch(writes, publish))
      ensures ok == Succeeds(old(disk), old(state), Batch(writes, publish))
    {
      hide Do, Run, Appends, Bodies, Staged, Reached, AllShort, AtomicFile;
      ghost var d0 := disk;
      var data := PayloadOf(disk, state);
      var staged;
      ok, staged := Stage(writes);
      if !ok { return; }
      ghost var payload := Appends(data, Bodies(writes));
      RunSnoc(d0, payload, SyncFile(data));
      disk := Do(disk, SyncFile(data));
      if !publish { return; }
      var index := WriteIndex(staged.head, staged.sequence);
      NextUnchanged(d0, data, Bodies(writes));
      Replace(IndexNext(state.generation), Index(state.generation), index);
      ghost var parts := IndexActions(d0.next, state.generation, staged.head, staged.sequence);
      RunConcat(d0, payload + [SyncFile(data)], parts);
      RunSnoc(d0, payload + [SyncFile(data)] + parts, SyncDir);
      disk := Do(disk, SyncDir);
      state := staged;
    }

    /** `range`. */
    method Range(since: nat, limit: nat) returns (answer: Answer)
      requires Valid()
      ensures answer == CowRange(PayloadBytes(disk, state), state, since, limit)
    {
      var payload := PayloadBytes(disk, state);
      var order := ListedAfter(state.sequence.Keys, since);
      ghost var fragments := LiveFragments(state.sequence, order, payload);
      var count, bytes, checksum := 0, 0, 0 as bv64;
      assert fragments[..0] == [];
      while count < |order|
        invariant 0 <= count <= |order|
        invariant bytes == TotalBytes(fragments[..count]) && checksum == ChecksumAll(fragments[..count])
        invariant limit == 0 || count < limit
      {
        var fragment := ReadAt(payload, state.sequence[order[count]].at);
        TallySnoc(fragments, count);
        bytes := bytes + |fragment|;
        checksum := Checksum(checksum, fragment);
        count := count + 1;
        if count == limit {
          TallyStop(state.head, fragments, limit, count);
          return Answer(state.head, count, bytes, checksum);
        }
      }
      TallyStop(state.head, fragments, limit, count);
      return Answer(state.head, count, bytes, checksum);
    }

    /** The loop of `compact`: each live fragment read from the old payload and appended to the new one. */
    method CopyLive(inode: nat, payload: seq<byte>) returns (rows: map<nat, Placed>)
      requires |disk.dirs| > 0 && inode in disk.files && disk.files[inode] == File([], [])
      modifies this`disk
      ensures rows == Moved(state.sequence, Listed(state.sequence.Keys))
      ensures disk
           == Run(old(disk), Appends(inode, LiveFragments(state.sequence, Listed(state.sequence.Keys), payload)))
      ensures |disk.dirs| > 0
    {
      hide Do, Run, Appends, LiveFragments, Moved, Lengths, Listed, ReadAt;
      var order := Listed(state.sequence.Keys);
      ghost var d0, live := disk, LiveFragments(state.sequence, order, payload);
      rows := map[];
      var i, length := 0, 0;
      NothingCopied(d0, inode, live, state.sequence);
      assert order[..0] == [];
      while i < |order|
        invariant 0 <= i <= |order|
        invariant disk == Run(d0, Appends(inode, live[..i]))
        invariant rows == Moved(state.sequence, order[..i]) && length == Lengths(state.sequence, order[..i])
      {
        var n := order[i];
        var at := state.sequence[n].at;
        CopyStep(d0, inode, state.sequence, order, payload, i);
        disk := Do(disk, Append(inode, ReadAt(payload, at)));
        rows := rows[n := Placed(state.sequence[n].key, Location(length, at.len))];
        length := length + at.len;
        i := i + 1;
      }
      assert order[..i] == order && live[..i] == live;
    }

    /** `compact`. */
    method Compact() returns (ok: bool)
      requires Valid()
      modifies this
      ensures disk == Run(old(disk), OpActions(old(disk), old(state), Op.Compact))
      ensures state == OpState(old(disk), old(state), Op.Compact)
      ensures ok == Succeeds(old(disk), old(state), Op.Compact)
    {
      hide Do, Appends, LiveFragments, Moved, Listed, AtomicFile;
      var g, payload, inode := state.generation, PayloadBytes(disk, state), disk.next;
      ok := Data(g + 1) !in disk.Dir();
      if !ok { return; }
      ghost var d0 := disk;
      ghost var a := [Create(Data(g + 1))];
      RunOne(d0, Create(Data(g + 1)));
      CreatedEmpty(disk, Data(g + 1));
      disk := Do(disk, Create(Data(g + 1)));
      ghost var d1 := disk;
      var rows := CopyLive(inode, payload);
      ghost var live := LiveFragments(state.sequence, Listed(state.sequence.Keys), payload);
      NextUnchanged(d1, inode, live);
      RunConcat(d0, a, Appends(inode, live));
      a := a + Appends(inode, live);
      RunSnoc(d0, a, SyncFile(inode));
      disk := Do(disk, SyncFile(inode));
      a := a + [SyncFile(inode)];
      var index := WriteIndex(state.head, rows);
      ghost var d2 := disk;
      Replace(IndexNext(g + 1), Index(g + 1), index);
      ghost var parts := IndexActions(d0.next + 1, g + 1, state.head, rows);
      RunConcat(d0, a, parts);
      ReplacedNext(d2, IndexNext(g + 1), Index(g + 1), index);
      a := a + parts;
      Replace(CurrentNext, Current, MarkerText(g + 1));
      parts := MarkerActions(d0.next + 2, g + 1);
      RunConcat(d0, a, parts);
      a := a + parts;
      RunSnoc(d0, a, SyncDir);
      disk := Do(disk, SyncDir);
      a := a + [SyncDir];
      state := CowState(g + 1, state.head, state.keys, rows);
      RunSnoc(d0, a, Remove(Data(g)));
      disk := Do(disk, Remove(Data(g)));
      a := a + [Remove(Data(g))];
      RunSnoc(d0, a, Remove(Index(g)));
      disk := Do(disk, Remove(Index(g)));
      a := a + [Remove(Index(g))];
      RunSnoc(d0, a, SyncDir);
      disk := Do(disk, SyncDir);
      a := a + [SyncDir];
      CompactParts(d0, old(state), a);
    }
  }

  lemma NothingCopied(d: Disk, inode: nat, live: seq<seq<byte>>, rows: map<nat, Placed>)
    requires |d.dirs| > 0
    ensures Run(d, Appends(inode, live[..0])) == d && Moved(rows, []) == map[] && Lengths(rows, []) == 0
  {
    assert Appends(inode, live[..0]) == [];
  }

  lemma CreatedEmpty(d: Disk, name: Name)
    requires |d.dirs| > 0
    ensures var e := Do(d, Create(name));
            d.next in e.files && e.files[d.next] == File([], []) && e.next == d.next + 1
  {
  }

  lemma NextUnchanged(d: Disk, inode: nat, fragments: seq<seq<byte>>)
    requires |d.dirs| > 0 && inode in d.files
    ensures Do(Run(d, Appends(inode, fragments)), SyncFile(inode)).next == d.next
  {
    RunAppends(d, inode, fragments);
  }

  lemma ReplacedNext(d: Disk, temp: Name, final: Name, bytes: seq<byte>)
    requires |d.dirs| > 0
    ensures Run(d, AtomicFile(d.next, temp, final, bytes)).next == d.next + 1
  {
    RunFour(d, AtomicFile(d.next, temp, final, bytes));
  }

  lemma CompactParts(d: Disk, st: CowState, a: seq<Action>)
    requires |d.dirs| > 0 && Data(st.generation) in d.Dir() && PayloadOf(d, st) in d.files
    requires Data(st.generation + 1) !in d.Dir()
    requires var g, rows := st.generation, Moved(st.sequence, Listed(st.sequence.Keys));
             a == [Create(Data(g + 1))]
                  + Appends(d.next, LiveFragments(st.sequence, Listed(st.sequence.Keys), PayloadBytes(d, st)))
                  + [SyncFile(d.next)] + IndexActions(d.next + 1, g + 1, st.head, rows)
                  + MarkerActions(d.next + 2, g + 1) + [SyncDir] + [Remove(Data(g))] + [Remove(Index(g))] + [SyncDir]
    ensures a == OpActions(d, st, Compact)
  {
    hide Appends, LiveFragments, Moved, Listed, IndexActions, MarkerActions;
  }

  method Collect(rows: map<nat, Placed>, order: seq<nat>) returns (keys: map<Key, nat>)
    requires forall i :: 0 <= i < |order| ==> order[i] in rows
    ensures keys == CollectKeys(rows, order)
  {
    keys := map[];
    var i := 0;
    assert order[..0] == [];
    while i < |order|
      invariant 0 <= i <= |order| && keys == CollectKeys(rows, order[..i])
    {
      assert order[..i + 1][..i] == order[..i];
      keys := keys[rows[order[i]].key := order[i]];
      i := i + 1;
    }
    assert order[..i] == order;
  }

  /** `CowStore::open`. */
  method Open(disk: Disk) returns (after: Disk, r: Result<CowState, OpenError>)
    requires disk.Valid()
    ensures after.Valid()
    ensures after == if Current in disk.Dir() then disk else Run(disk, InitActions(disk.next))
    ensures r == Load(after)
  {
    hide Run, InitActions, ParseMarker, DecodeIndex, CollectKeys, Listed;
    after := disk;
    if Current !in disk.Dir() {
      RunValid(disk, InitActions(disk.next));
      after := Run(disk, InitActions(disk.next));
    }
    var dir := after.Dir();
    if Current !in dir { return after, Err(NoMarker); }
    var marker := ParseMarker(after.files[dir[Current]].Contents());
    if marker.None? { return after, Err(BadMarker); }
    var g := marker.value;
    if Index(g) !in dir { return after, Err(NoIndex); }
    var index := ReadIndex(after.files[dir[Index(g)]].Contents());
    if index.Err? { return after, Err(BadIndex(index.error)); }
    if Data(g) !in dir { return after, Err(NoData); }
    var rows := index.value.rows;
    if !Inside(rows, |after.files[dir[Data(g)]].Contents()|) { return after, Err(OutsidePayload); }
    var keys := Collect(rows, Listed(rows.Keys));
    return after, Ok(CowState(g, index.value.head, keys, rows));
  }

  class RedbStore {
    var state: RedbState

    constructor ()
      ensures state == REDB_EMPTY
    {
      state := REDB_EMPTY;
    }

    /** `batch`: the transaction's tables replace the committed ones at the end. */
    method Batch(writes: seq<Write>)
      modifies this
      ensures state == RedbBatch(old(state), writes)
    {
      var head, keys, sequence := state.head, state.keys, state.sequence;
      var i := 0;
      assert writes[..0] == [];
      while i < |writes|
        invariant 0 <= i <= |writes|
        invariant RedbState(head, keys, sequence) == RedbBatch(state, writes[..i])
      {
        assert writes[..i + 1][..i] == writes[..i];
        var key := writes[i].key;
        if key in keys { sequence := sequence - {keys[key]}; }
        head := head + 1;
        sequence := sequence[head := writes[i].fragment];
        keys := keys[key := head];
        i := i + 1;
      }
      assert writes[..i] == writes;
      state := RedbState(head, keys, sequence);
    }

    /** `range`. */
    method Range(since: nat, limit: nat) returns (answer: Answer)
      ensures answer == RedbRange(state, since, limit)
    {
      var order := ListedAfter(state.sequence.Keys, since);
      ghost var fragments := Values(state.sequence, order);
      var count, bytes, checksum := 0, 0, 0 as bv64;
      assert fragments[..0] == [];
      while count < |order|
        invariant 0 <= count <= |order|
        invariant bytes == TotalBytes(fragments[..count]) && checksum == ChecksumAll(fragments[..count])
        invariant limit == 0 || count < limit
      {
        var fragment := state.sequence[order[count]];
        TallySnoc(fragments, count);
        bytes := bytes + |fragment|;
        checksum := Checksum(checksum, fragment);
        count := count + 1;
        if count == limit {
          TallyStop(state.head, fragments, limit, count);
          return Answer(state.head, count, bytes, checksum);
        }
      }
      TallyStop(state.head, fragments, limit, count);
      return Answer(state.head, count, bytes, checksum);
    }
  }
}

/** The two stores' `range` answers, the redb store's tables, and their agreement. */
module Stores {
  import opened Bytes
  import opened Ordered
  import opened LibraryLog
  import opened Disk
  import opened CowSpec
  import opened CowContents
  import opened CowCrash
  import opened CowOps
  import opened CowCompact
  import opened CowTheorems
  import opened CowRuns

  // ---- the copy-on-write store's range

  function CowRange(bytes: seq<byte>, st: CowState, since: nat, limit: nat): Answer {
    Tally(st.head, LiveFragments(st.sequence, ListedAfter(st.sequence.Keys, since), bytes), limit)
  }

  /** The copy-on-write store answers what the log answers. */
  lemma CowRangeRefines(bytes: seq<byte>, st: CowState, log: Log, since: nat, limit: nat)
    requires Describes(bytes, st, log)
    ensures CowRange(bytes, st, since, limit) == Range(log, since, limit)
  {
    hide Describes, Tally, LiveAfter, Listed, ReadAt;
    var order := ListedAfter(st.sequence.Keys, since);
    OrderIsLive(bytes, st, log, since);
    forall i | 0 <= i < |order|
      ensures ReadAt(bytes, st.sequence[order[i]].at) == log[order[i] - 1].fragment
    {
      RowRead(bytes, st, log, order[i]);
    }
    assert LiveFragments(st.sequence, order, bytes) == Fragments(log, order);
    HeadOf(bytes, st, log);
  }

  lemma OrderIsLive(bytes: seq<byte>, st: CowState, log: Log, since: nat)
    requires Describes(bytes, st, log)
    ensures ListedAfter(st.sequence.Keys, since) == LiveAfter(log, since)
  {
    AfterIsLiveAfter(st.head, st.keys, st.sequence, log, since);
  }

  lemma RowRead(bytes: seq<byte>, st: CowState, log: Log, n: nat)
    requires Describes(bytes, st, log) && n in st.sequence
    ensures 1 <= n <= |log| && ReadAt(bytes, st.sequence[n].at) == log[n - 1].fragment
  {
    assert RowHolds(bytes, n, st.sequence[n], log);
  }

  lemma HeadOf(bytes: seq<byte>, st: CowState, log: Log)
    requires Describes(bytes, st, log)
    ensures st.head == |log|
  {
  }

  // ---- the redb store: one transaction for a batch

  datatype RedbState = RedbState(head: nat, keys: map<Key, nat>, sequence: map<nat, seq<byte>>)

  const REDB_EMPTY := RedbState(0, map[], map[])

  function RedbWrite(st: RedbState, w: Write): RedbState {
    RedbState(st.head + 1, st.keys[w.key := st.head + 1], Replaced(st.head, st.keys, st.sequence, w.key, w.fragment))
  }

  function RedbBatch(st: RedbState, writes: seq<Write>): RedbState {
    if writes == [] then st else RedbWrite(RedbBatch(st, writes[..|writes| - 1]), writes[|writes| - 1])
  }

  function Values(table: map<nat, seq<byte>>, order: seq<nat>): (f: seq<seq<byte>>)
    requires forall i :: 0 <= i < |order| ==> order[i] in table
    ensures |f| == |order|
  {
    seq(|order|, i requires 0 <= i < |order| => table[order[i]])
  }

  function RedbRange(st: RedbState, since: nat, limit: nat): Answer {
    Tally(st.head, Values(st.sequence, ListedAfter(st.sequence.Keys, since)), limit)
  }

  ghost predicate RedbDescribes(st: RedbState, log: Log) {
    && Tracks(st.head, st.keys, st.sequence, log)
    && forall n :: n in st.sequence ==> 1 <= n <= |log| && st.sequence[n] == log[n - 1].fragment
  }

  lemma RedbWriteDescribes(st: RedbState, log: Log, w: Write)
    requires RedbDescribes(st, log)
    ensures RedbDescribes(RedbWrite(st, w), log + [w])
  {
    hide Tracks;
    TracksWrite(st.head, st.keys, st.sequence, log, w, w.fragment);
    assert st.head == |log| by { TracksHead(st.head, st.keys, st.sequence, log); }
  }

  lemma TracksHead<V>(head: nat, keys: map<Key, nat>, table: map<nat, V>, log: Log)
    requires Tracks(head, keys, table, log)
    ensures head == |log|
  {
  }

  lemma {:induction false} RedbBatchDescribes(st: RedbState, log: Log, writes: seq<Write>)
    requires RedbDescribes(st, log)
    ensures RedbDescribes(RedbBatch(st, writes), log + writes)
  {
    hide RedbDescribes;
    if writes == [] {
      assert log + writes == log;
    } else {
      var init, w := writes[..|writes| - 1], writes[|writes| - 1];
      RedbBatchDescribes(st, log, init);
      RedbWriteDescribes(RedbBatch(st, init), log + init, w);
      assert log + writes == log + init + [w];
    }
  }

  /** The redb store answers what the log answers. */
  lemma RedbRangeRefines(st: RedbState, log: Log, since: nat, limit: nat)
    requires RedbDescribes(st, log)
    ensures RedbRange(st, since, limit) == Range(log, since, limit)
  {
    hide Tracks, Tally, LiveAfter, Listed;
    AfterIsLiveAfter(st.head, st.keys, st.sequence, log, since);
    TracksHead(st.head, st.keys, st.sequence, log);
    var order := ListedAfter(st.sequence.Keys, since);
    assert Values(st.sequence, order) == Fragments(log, order);
  }

  // ---- agreement

  /** A redb store given the same operations; its own compaction moves nothing a reader sees. */
  function RedbCompleted(st: RedbState, ops: seq<Op>): RedbState {
    if ops == [] then st
    else
      var before, op := RedbCompleted(st, ops[..|ops| - 1]), ops[|ops| - 1];
      if op.Batch? && op.publish then RedbBatch(before, op.writes) else before
  }

  predicate AllAccepted(ops: seq<Op>) {
    forall i :: 0 <= i < |ops| && ops[i].Batch? && ops[i].publish ==> AllShort(ops[i].writes)
  }

  lemma {:induction false} SameLog(s: System, redb: RedbState, ops: seq<Op>)
    requires Ready(s) && Quiet(s.d, s.st, s.log)
    requires RedbDescribes(redb, s.log) && AllAccepted(ops)
    ensures RedbDescribes(RedbCompleted(redb, ops), Completed(s, ops).log)
  {
    hide RedbDescribes, Quiet, RedbBatch, OpActions, OpState, Run;
    if ops != [] {
      var init, op := ops[..|ops| - 1], ops[|ops| - 1];
      SameLog(s, redb, init);
      if op.Batch? && op.publish {
        RedbBatchDescribes(RedbCompleted(redb, init), Completed(s, init).log, op.writes);
      }
    }
  }

  /**
    Both stores, given the same batches and compactions, answer every range alike, and as the list of writes does.
   */
  lemma StoresAgree(s: System, redb: RedbState, ops: seq<Op>, since: nat, limit: nat)
    requires Ready(s) && Quiet(s.d, s.st, s.log)
    requires RedbDescribes(redb, s.log) && AllAccepted(ops)
    ensures var t := Completed(s, ops);
            && CowRange(PayloadBytes(t.d, t.st), t.st, since, limit) == Range(t.log, since, limit)
            && RedbRange(RedbCompleted(redb, ops), since, limit) == Range(t.log, since, limit)
  {
    hide RedbDescribes, Quiet, Describes, CowRange, RedbRange, Range, Completed, RedbCompleted;
    SameLog(s, redb, ops);
    var t := Completed(s, ops);
    QuietFacts(t.d, t.st, t.log);
    CowRangeRefines(PayloadBytes(t.d, t.st), t.st, t.log, since, limit);
    RedbRangeRefines(RedbCompleted(redb, ops), t.log, since, limit);
  }

  /** A compaction that succeeds changes no answer and leaves a payload of exactly the live fragments. */
  lemma CompactionInvisible(s: System, since: nat, limit: nat)
    requires Ready(s) && Quiet(s.d, s.st, s.log) && Succeeds(s.d, s.st, Compact)
    ensures var t := Completed(s, [Compact]);
            && t.st.generation == s.st.generation + 1
            && CowRange(PayloadBytes(t.d, t.st), t.st, since, limit)
               == CowRange(PayloadBytes(s.d, s.st), s.st, since, limit)
            && |PayloadBytes(t.d, t.st)| == TotalBytes(Fragments(s.log, LiveAfter(s.log, 0)))
  {
    hide Quiet, Describes, CowRange, Range, OpActions, Run, LiveFragments, LiveAfter, Listed, Moved, Do, Completed;
    CompletedOne(s, Compact);
    var t := Completed(s, [Compact]);
    QuietFacts(s.d, s.st, s.log);
    QuietFacts(t.d, t.st, t.log);
    CowRangeRefines(PayloadBytes(s.d, s.st), s.st, s.log, since, limit);
    CowRangeRefines(PayloadBytes(t.d, t.st), t.st, t.log, since, limit);
    CompactedPayload(s.d, s.st, s.log);
    LiveBytes(PayloadBytes(s.d, s.st), s.st, s.log);
  }

  lemma LiveBytes(bytes: seq<byte>, st: CowState, log: Log)
    requires Describes(bytes, st, log)
    ensures LiveFragments(st.sequence, Listed(st.sequence.Keys), bytes) == Fragments(log, LiveAfter(log, 0))
  {
    hide Describes, LiveAfter, Listed, ReadAt;
    OrderIsLive(bytes, st, log, 0);
    forall n | n in st.sequence ensures n > 0 { RowRead(bytes, st, log, n); }
    assert (set x | x in st.sequence.Keys && x > 0) == st.sequence.Keys;
    var order := Listed(st.sequence.Keys);
    forall i | 0 <= i < |order|
      ensures ReadAt(bytes, st.sequence[order[i]].at) == log[order[i] - 1].fragment
    {
      RowRead(bytes, st, log, order[i]);
    }
  }

  /** The payload file the switch leaves the store reading. */
  lemma CompactedPayload(d: Disk, st: CowState, log: Log)
    requires Quiet(d, st, log) && |d.dirs| > 0
    requires Data(st.generation) in d.Dir() && PayloadOf(d, st) in d.files
    requires Succeeds(d, st, Compact)
    ensures var e := Run(d, OpActions(d, st, Compact));
            && Data(st.generation + 1) in e.Dir() && e.Dir()[Data(st.generation + 1)] in e.files
            && e.files[e.Dir()[Data(st.generation + 1)]].Contents() == Concat(LiveOf(d, st))
  {
    hide Quiet, Run, CopyActions, Copied, Indexed, Moved, Listed, LiveOf, OpActions;
    var g := st.generation;
    var copy := CopyActions(d, st);
    var index := IndexActions(d.next + 1, g + 1, st.head, Moved(st.sequence, Listed(st.sequence.Keys)));
    var last := (MarkerActions(d.next + 2, g + 1) + [SyncDir]) + [Remove(Data(g)), Remove(Index(g)), SyncDir];
    CompactSplit(d, st);
    RunCopied(d, st);
    IndexPublishes(d, st, log, 4);
    RunConcat(d, copy, index + last);
    RunConcat(Copied(d, st), index, last);
    IndexedFiles(d, st);
    FileStays(Indexed(d, st), last, Data(g + 1), d.next);
  }

  /** The action neither moves the name nor touches the file under it. */
  predicate Spares(a: Action, name: Name, inode: nat) {
    match a
    case Create(n) => n != name
    case Append(i, _) => i != inode
    case SyncFile(i) => i != inode
    case Rename(from, to) => from != name && to != name
    case Remove(n) => n != name
    case SyncDir => true
  }

  lemma {:induction false} FileStays(d: Disk, actions: seq<Action>, name: Name, inode: nat)
    requires |d.dirs| > 0 && name in d.Dir() && d.Dir()[name] == inode && inode in d.files && inode < d.next
    requires forall i :: 0 <= i < |actions| ==> Spares(actions[i], name, inode)
    ensures var e := Run(d, actions);
            && name in e.Dir() && e.Dir()[name] == inode && inode < e.next
            && inode in e.files && e.files[inode] == d.files[inode]
  {
    if actions != [] { FileStays(d, actions[..|actions| - 1], name, inode); }
  }
}

/** Every prefix of a batch, of a compaction and of the first opening is safe, and each ends quiet. */
module CowOps {
  import opened Bytes
  import opened LibraryLog
  import opened IndexCodec
  import opened Disk
  import opened CowSpec
  import opened CowContents
  import opened CowCrash

  /** A disk whose payload took `bytes`, not yet synced. */
  function Grown(d: Disk, inode: nat, bytes: seq<byte>): Disk
    requires inode in d.files
  {
    d.(files := d.files[inode := File(d.files[inode].synced, d.files[inode].pending + bytes)])
  }

  function Synced(d: Disk, inode: nat): Disk
    requires inode in d.files
  {
    d.(files := d.files[inode := File(d.files[inode].Contents(), [])])
  }

  lemma QuietFacts(d: Disk, st: CowState, log: Log)
    requires Quiet(d, st, log)
    ensures Data(st.generation) in d.Dir() && PayloadOf(d, st) in d.files
    ensures Describes(PayloadBytes(d, st), st, log)
  {
    hide Describes;
    assert d.Dir() in d.dirs;
    var f := d.files[PayloadOf(d, st)];
    DescribesPrefix(f.synced, f.Contents(), st, log);
  }

  lemma QuietIsSafe(d: Disk, st: CowState, log: Log, st': CowState, log': Log)
    requires Quiet(d, st, log)
    ensures Safe(d, st, log, st', log') && Safe(d, st', log', st, log)
  {
  }

  lemma AppendsPrefix(inode: nat, fragments: seq<seq<byte>>, k: nat)
    requires k <= |fragments|
    ensures Appends(inode, fragments)[..k] == Appends(inode, fragments[..k])
  {
  }

  lemma QuietGrown(d: Disk, st: CowState, log: Log, bytes: seq<byte>)
    requires Quiet(d, st, log)
    requires Data(st.generation) in d.Dir() && PayloadOf(d, st) in d.files
    ensures Quiet(Grown(d, PayloadOf(d, st), bytes), st, log)
  {
    hide AllPublish;
    var f := d.files[PayloadOf(d, st)];
    QuietPayload(d, st, log, File(f.synced, f.pending + bytes));
  }

  lemma QuietSynced(d: Disk, st: CowState, log: Log)
    requires Quiet(d, st, log)
    requires Data(st.generation) in d.Dir() && PayloadOf(d, st) in d.files
    ensures Quiet(Synced(d, PayloadOf(d, st)), st, log)
  {
    hide AllPublish;
    QuietPayload(d, st, log, File(d.files[PayloadOf(d, st)].Contents(), []));
  }

  /** Appending any of the fragments, to any point, publishes nothing new. */
  lemma AppendsQuiet(d: Disk, st: CowState, log: Log, fragments: seq<seq<byte>>, k: nat)
    requires Quiet(d, st, log) && k <= |fragments|
    requires Data(st.generation) in d.Dir() && PayloadOf(d, st) in d.files
    ensures Quiet(Run(d, Appends(PayloadOf(d, st), fragments)[..k]), st, log)
  {
    hide AllPublish, Do;
    var data := PayloadOf(d, st);
    AppendsPrefix(data, fragments, k);
    RunAppends(d, data, fragments[..k]);
    QuietGrown(d, st, log, Concat(fragments[..k]));
  }

  // ---- a batch

  /** The payload with the batch's fragments, synced: the disk an index may be published on. */
  function Filled(d: Disk, st: CowState, writes: seq<Write>): Disk
    requires |d.dirs| > 0 && Data(st.generation) in d.Dir() && PayloadOf(d, st) in d.files
  {
    Synced(Grown(d, PayloadOf(d, st), Concat(Bodies(writes))), PayloadOf(d, st))
  }

  lemma RunFilled(d: Disk, st: CowState, writes: seq<Write>)
    requires |d.dirs| > 0 && Data(st.generation) in d.Dir() && PayloadOf(d, st) in d.files
    ensures Run(d, Appends(PayloadOf(d, st), Bodies(writes)) + [SyncFile(PayloadOf(d, st))]) == Filled(d, st, writes)
  {
    var data := PayloadOf(d, st);
    var a := Appends(data, Bodies(writes));
    RunAppends(d, data, Bodies(writes));
    assert (a + [SyncFile(data)])[..|a|] == a;
  }

  lemma FilledQuiet(d: Disk, st: CowState, log: Log, writes: seq<Write>)
    requires Quiet(d, st, log)
    requires Data(st.generation) in d.Dir() && PayloadOf(d, st) in d.files
    ensures Quiet(Filled(d, st, writes), st, log)
  {
    hide AllPublish;
    QuietGrown(d, st, log, Concat(Bodies(writes)));
    QuietSynced(Grown(d, PayloadOf(d, st), Concat(Bodies(writes))), st, log);
  }

  /** The index of a batch, put in place on the filled payload, publishes the staged state. */
  lemma FilledPublishes(d: Disk, st: CowState, log: Log, writes: seq<Write>)
    requires Quiet(d, st, log)
    requires Data(st.generation) in d.Dir() && PayloadOf(d, st) in d.files
    ensures var f, after := Filled(d, st, writes), Staged(st, |PayloadBytes(d, st)|, writes);
            Publishes(f.files[f.next := File(EncodeIndex(after.head, after.sequence), [])],
                      Renamed(f, IndexNext(st.generation), Index(st.generation)), after, log + writes)
  {
    hide Describes, EncodeIndex, MarkerText, Staged;
    var data, bytes := PayloadOf(d, st), PayloadBytes(d, st);
    var f, after := Filled(d, st, writes), Staged(st, |bytes|, writes);
    QuietFacts(d, st, log);
    DescribesStaged(bytes, st, log, writes);
    assert d.Dir() in d.dirs;
    PayloadApart(d, d.Dir(), st, log);
    assert f.files[data].synced == bytes + Concat(Bodies(writes));
    assert f.next !in d.files;
  }

  lemma PublishSafe(d: Disk, st: CowState, log: Log, writes: seq<Write>, j: nat)
    requires Quiet(d, st, log) && j <= 4
    requires Data(st.generation) in d.Dir() && PayloadOf(d, st) in d.files
    ensures var f, after := Filled(d, st, writes), Staged(st, |PayloadBytes(d, st)|, writes);
            && Safe(Run(f, IndexActions(f.next, st.generation, after.head, after.sequence)[..j]),
                    st, log, after, log + writes)
            && Quiet(Run(f, IndexActions(f.next, st.generation, after.head, after.sequence) + [SyncDir]),
                     after, log + writes)
  {
    hide AllPublish, Publishes, EncodeIndex, Staged, AtomicDisk, Do;
    var f, after := Filled(d, st, writes), Staged(st, |PayloadBytes(d, st)|, writes);
    var g, bytes := st.generation, EncodeIndex(after.head, after.sequence);
    FilledQuiet(d, st, log, writes);
    FilledPublishes(d, st, log, writes);
    assert f.Valid() by { QuietValid(f, st, log); }
    RunAtomic(f, IndexNext(g), Index(g), bytes, j);
    RunAtomic(f, IndexNext(g), Index(g), bytes, 4);
    AtomicInto(f, IndexNext(g), Index(g), bytes, j, st, log, after, log + writes);
    var a := IndexActions(f.next, g, after.head, after.sequence);
    assert a[..4] == a;
    assert (a + [SyncDir])[..4] == a;
  }

  lemma QuietValid(d: Disk, st: CowState, log: Log)
    requires Quiet(d, st, log)
    ensures d.Valid()
  {
  }

  /** What is written to the payload, and then to the index and the directory. */
  function PayloadPart(d: Disk, st: CowState, op: Op): seq<Action>
    requires |d.dirs| > 0 && Data(st.generation) in d.Dir() && PayloadOf(d, st) in d.files
    requires op.Batch?
  {
    if AllShort(op.writes) then Appends(PayloadOf(d, st), Bodies(op.writes)) + [SyncFile(PayloadOf(d, st))]
    else Appends(PayloadOf(d, st), Bodies(Reached(op.writes)))
  }

  lemma PayloadPartQuiet(d: Disk, st: CowState, log: Log, op: Op, k: nat)
    requires Quiet(d, st, log) && op.Batch?
    requires Data(st.generation) in d.Dir() && PayloadOf(d, st) in d.files
    requires k <= |PayloadPart(d, st, op)|
    ensures Quiet(Run(d, PayloadPart(d, st, op)[..k]), st, log)
  {
    hide AllPublish, Do;
    var part := PayloadPart(d, st, op);
    if !AllShort(op.writes) {
      AppendsQuiet(d, st, log, Bodies(Reached(op.writes)), k);
    } else if k < |part| {
      assert part[..k] == Appends(PayloadOf(d, st), Bodies(op.writes))[..k];
      AppendsQuiet(d, st, log, Bodies(op.writes), k);
    } else {
      assert part[..k] == part;
      RunFilled(d, st, op.writes);
      FilledQuiet(d, st, log, op.writes);
    }
  }

  /** A batch that fails or is not published. */
  lemma UnpublishedSafe(d: Disk, st: CowState, log: Log, op: Op, k: nat)
    requires Quiet(d, st, log) && op.Batch? && !(AllShort(op.writes) && op.publish)
    requires |d.dirs| > 0 && Data(st.generation) in d.Dir() && PayloadOf(d, st) in d.files
    requires k <= |OpActions(d, st, op)|
    ensures Quiet(Run(d, OpActions(d, st, op)[..k]), OpState(d, st, op), OpLog(d, st, log, op))
    ensures Quiet(Run(d, OpActions(d, st, op)), OpState(d, st, op), OpLog(d, st, log, op))
  {
    hide Quiet, Do, Bodies, Appends;
    var part, a := PayloadPart(d, st, op), OpActions(d, st, op);
    assert a == part && a[..|a|] == a;
    PayloadPartQuiet(d, st, log, op, k);
    PayloadPartQuiet(d, st, log, op, |part|);
  }

  /** A published batch: its payload, then its index and the directory. */
  lemma PublishedSafe(d: Disk, st: CowState, log: Log, op: Op, k: nat)
    requires Quiet(d, st, log) && op.Batch? && AllShort(op.writes) && op.publish
    requires |d.dirs| > 0 && Data(st.generation) in d.Dir() && PayloadOf(d, st) in d.files
    requires k <= |OpActions(d, st, op)|
    ensures Safe(Run(d, OpActions(d, st, op)[..k]), st, log, OpState(d, st, op), OpLog(d, st, log, op))
    ensures Quiet(Run(d, OpActions(d, st, op)), OpState(d, st, op), OpLog(d, st, log, op))
  {
    hide Quiet, Safe, Do, Bodies, Appends, Filled, Staged, IndexActions, AllShort, PayloadBytes, Run;
    var part, a := PayloadPart(d, st, op), OpActions(d, st, op);
    var st', log' := OpState(d, st, op), OpLog(d, st, log, op);
    var f := Filled(d, st, op.writes);
    FilledNext(d, st, op.writes);
    var index := IndexActions(d.next, st.generation, st'.head, st'.sequence);
    assert a == part + (index + [SyncDir]);
    RunFilled(d, st, op.writes);
    RunConcat(d, part, index + [SyncDir]);
    PublishSafe(d, st, log, op.writes, 4);
    RunPrefix(d, part, index + [SyncDir], k);
    if k <= |part| {
      PayloadPartQuiet(d, st, log, op, k);
      QuietIsSafe(Run(d, a[..k]), st, log, st', log');
    } else if k < |a| {
      var j := k - |part|;
      assert (index + [SyncDir])[..j] == index[..j];
      PublishSafe(d, st, log, op.writes, j);
    } else {
      assert (index + [SyncDir])[..k - |part|] == index + [SyncDir];
      QuietIsSafe(Run(d, a), st', log', st, log);
    }
  }

  lemma FilledNext(d: Disk, st: CowState, writes: seq<Write>)
    requires |d.dirs| > 0 && Data(st.generation) in d.Dir() && PayloadOf(d, st) in d.files
    ensures Filled(d, st, writes).next == d.next && Filled(d, st, writes).dirs == d.dirs
  {
  }
}

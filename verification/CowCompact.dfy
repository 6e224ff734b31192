/** Every prefix of a compaction is safe, and it ends quiet on the new generation. */
module CowCompact {
  import opened Bytes
  import opened Ordered
  import opened LibraryLog
  import opened IndexCodec
  import opened Disk
  import opened CowSpec
  import opened CowContents
  import opened CowCrash
  import opened CowOps

  /** A file no version reads a published state through may change at will. */
  lemma AsideFile(d: Disk, st: CowState, log: Log, inode: nat, f: File)
    requires AllPublish(d, st, log) && inode in d.files
    requires forall dir :: dir in d.dirs ==> forall name :: name in dir && name in NamesOf(st) ==> dir[name] != inode
    ensures AllPublish(d.(files := d.files[inode := f]), st, log)
  {
    hide Describes;
  }

  // ---- the payload of the new generation

  function LiveOf(d: Disk, st: CowState): seq<seq<byte>>
    requires |d.dirs| > 0 && Data(st.generation) in d.Dir() && PayloadOf(d, st) in d.files
  {
    LiveFragments(st.sequence, Listed(st.sequence.Keys), PayloadBytes(d, st))
  }

  function Started(d: Disk, st: CowState): (c: Disk)
    requires |d.dirs| > 0
    ensures d.next in c.files && c.files[d.next] == File([], []) && |c.dirs| > 0 && c.next == d.next + 1
  {
    Do(d, Create(Data(st.generation + 1)))
  }

  lemma StartedPublishes(d: Disk, st: CowState, log: Log)
    requires Quiet(d, st, log)
    ensures AllPublish(Started(d, st), st, log)
    ensures forall dir :: dir in Started(d, st).dirs ==>
              forall name :: name in dir && name in NamesOf(st) ==> dir[name] != d.next
  {
    hide Describes, MarkerText, EncodeIndex;
    var c := Started(d, st);
    DoValid(d, Create(Data(st.generation + 1)));
    assert d.Dir() in d.dirs;
    assert c.dirs == [d.Dir(), d.Dir()[Data(st.generation + 1) := d.next]];
    forall dir | dir in c.dirs
      ensures Publishes(c.files, dir, st, log)
    {
      PublishesSameNames(d.files, d.Dir(), dir, st, log);
    }
  }

  function CopyActions(d: Disk, st: CowState): seq<Action>
    requires |d.dirs| > 0 && Data(st.generation) in d.Dir() && PayloadOf(d, st) in d.files
  {
    [Create(Data(st.generation + 1))] + Appends(d.next, LiveOf(d, st)) + [SyncFile(d.next)]
  }

  /** The new generation's payload, synced, with the old state still the published one. */
  function Copied(d: Disk, st: CowState): (c: Disk)
    requires |d.dirs| > 0 && Data(st.generation) in d.Dir() && PayloadOf(d, st) in d.files
    ensures |c.dirs| > 0
  {
    var c := Started(d, st);
    c.(files := c.files[d.next := File(Concat(LiveOf(d, st)), [])])
  }

  lemma RunCopied(d: Disk, st: CowState)
    requires |d.dirs| > 0 && Data(st.generation) in d.Dir() && PayloadOf(d, st) in d.files
    ensures Run(d, CopyActions(d, st)) == Copied(d, st)
  {
    hide Do, LiveOf, Started;
    var c, live, n := Started(d, st), LiveOf(d, st), d.next;
    var create, copy := [Create(Data(st.generation + 1))], Appends(n, live);
    StartedIs(d, st);
    RunConcat(d, create, copy);
    RunAppends(c, n, live);
    RunSnoc(d, create + copy, SyncFile(n));
    SyncedCopy(Run(d, create + copy), n, c.files, Concat(live));
  }

  lemma SyncedCopy(d: Disk, n: nat, files: map<nat, File>, bytes: seq<byte>)
    requires |d.dirs| > 0
    requires d.files == files[n := File([], [] + bytes)]
    ensures Do(d, SyncFile(n)) == d.(files := files[n := File(bytes, [])])
  {
    assert d.files[n].Contents() == bytes;
    assert d.files[n := File(bytes, [])] == files[n := File(bytes, [])];
  }

  lemma CopyPublishes(d: Disk, st: CowState, log: Log, k: nat)
    requires Quiet(d, st, log)
    requires Data(st.generation) in d.Dir() && PayloadOf(d, st) in d.files
    requires k <= |CopyActions(d, st)|
    ensures AllPublish(Run(d, CopyActions(d, st)[..k]), st, log)
  {
    hide AllPublish, Do, LiveOf, Started;
    var c, live, n := Started(d, st), LiveOf(d, st), d.next;
    var create, copy := [Create(Data(st.generation + 1))], Appends(n, live);
    var a := CopyActions(d, st);
    StartedPublishes(d, st, log);
    assert create[..0] == [];
    assert Run(d, create) == c by { StartedIs(d, st); }
    if k == 0 {
      assert a[..0] == [];
    } else if k < |a| {
      PrefixOf(create + copy, [SyncFile(n)], k);
      RunPrefix(d, create, copy, k);
      if k == 1 {
        assert create[..1] == create;
      } else {
        AppendsPrefix(n, live, k - 1);
        RunAppends(c, n, live[..k - 1]);
        AsideFile(c, st, log, n, File(c.files[n].synced, c.files[n].pending + Concat(live[..k - 1])));
      }
    } else {
      assert a[..k] == a;
      RunCopied(d, st);
      AsideFile(c, st, log, n, File(Concat(live), []));
    }
  }

  lemma StartedIs(d: Disk, st: CowState)
    requires |d.dirs| > 0
    ensures Run(d, [Create(Data(st.generation + 1))]) == Started(d, st)
  {
    hide Do, Run;
    RunOne(d, Create(Data(st.generation + 1)));
  }

  // ---- its index, then the marker

  function Compacted(st: CowState): CowState {
    CowState(st.generation + 1, st.head, st.keys, Moved(st.sequence, Listed(st.sequence.Keys)))
  }

  function IndexBytes(st: CowState): seq<byte> {
    EncodeIndex(st.head, Moved(st.sequence, Listed(st.sequence.Keys)))
  }

  function Indexed(d: Disk, st: CowState): (c: Disk)
    requires |d.dirs| > 0 && Data(st.generation) in d.Dir() && PayloadOf(d, st) in d.files
    ensures |c.dirs| > 0
  {
    AtomicDisk(Copied(d, st), IndexNext(st.generation + 1), Index(st.generation + 1), IndexBytes(st), 4)
  }

  /** With the new payload and index in place, the marker alone publishes the compacted state. */
  lemma MarkerPublishes(d: Disk, st: CowState, log: Log)
    requires Quiet(d, st, log)
    requires Data(st.generation) in d.Dir() && PayloadOf(d, st) in d.files
    ensures var c := Indexed(d, st);
            Publishes(c.files[c.next := File(MarkerText(st.generation + 1), [])],
                      Renamed(c, CurrentNext, Current), Compacted(st), log)
  {
    hide Describes, EncodeIndex, MarkerText, LiveOf, Concat, Listed, Moved, Indexed, AllPublish;
    var c, g := Indexed(d, st), st.generation + 1;
    IndexedFiles(d, st);
    MovedDescribes(d, st, log);
  }

  lemma IndexedFiles(d: Disk, st: CowState)
    requires |d.dirs| > 0 && Data(st.generation) in d.Dir() && PayloadOf(d, st) in d.files
    ensures var c, g := Indexed(d, st), st.generation + 1;
            && c.next == d.next + 2
            && Data(g) in c.Dir() && c.Dir()[Data(g)] == d.next
            && Index(g) in c.Dir() && c.Dir()[Index(g)] == d.next + 1
            && d.next in c.files && c.files[d.next] == File(Concat(LiveOf(d, st)), [])
            && d.next + 1 in c.files && c.files[d.next + 1] == File(IndexBytes(st), [])
  {
    hide LiveOf, Concat, IndexBytes;
  }

  lemma MovedDescribes(d: Disk, st: CowState, log: Log)
    requires Quiet(d, st, log)
    requires Data(st.generation) in d.Dir() && PayloadOf(d, st) in d.files
    ensures Describes(Concat(LiveOf(d, st)), Compacted(st), log)
    ensures |Concat(LiveOf(d, st))| == Lengths(st.sequence, Listed(st.sequence.Keys))
  {
    hide Describes, Listed, Moved, LiveFragments;
    QuietFacts(d, st, log);
    var order := Listed(st.sequence.Keys);
    DescribesMoved(PayloadBytes(d, st), st, log, order);
  }

  lemma IndexPublishes(d: Disk, st: CowState, log: Log, j: nat)
    requires Quiet(d, st, log) && j <= 4
    requires Data(st.generation) in d.Dir() && PayloadOf(d, st) in d.files
    ensures AllPublish(Run(Copied(d, st), IndexActions(d.next + 1, st.generation + 1, st.head,
                                                       Moved(st.sequence, Listed(st.sequence.Keys)))[..j]), st, log)
    ensures Run(Copied(d, st), IndexActions(d.next + 1, st.generation + 1, st.head,
                                            Moved(st.sequence, Listed(st.sequence.Keys)))) == Indexed(d, st)
  {
    hide AllPublish, EncodeIndex, Moved, Listed, AtomicDisk, Run;
    var c, g := Copied(d, st), st.generation + 1;
    CopyPublishes(d, st, log, |CopyActions(d, st)|);
    assert CopyActions(d, st)[..|CopyActions(d, st)|] == CopyActions(d, st);
    RunCopied(d, st);
    AllValid(c, st, log);
    AtomicAside(c, IndexNext(g), Index(g), IndexBytes(st), j, st, log);
    RunAtomic(c, IndexNext(g), Index(g), IndexBytes(st), j);
    RunAtomic(c, IndexNext(g), Index(g), IndexBytes(st), 4);
    var a := IndexActions(d.next + 1, g, st.head, Moved(st.sequence, Listed(st.sequence.Keys)));
    assert a[..4] == a;
    assert c.next == d.next + 1 by { CopiedNext(d, st); }
  }

  lemma CopiedNext(d: Disk, st: CowState)
    requires |d.dirs| > 0 && Data(st.generation) in d.Dir() && PayloadOf(d, st) in d.files
    ensures Copied(d, st).next == d.next + 1 && Indexed(d, st).next == d.next + 2
  {
  }

  lemma AllValid(d: Disk, st: CowState, log: Log)
    requires AllPublish(d, st, log)
    ensures d.Valid()
  {
  }

  lemma MarkerSafe(d: Disk, st: CowState, log: Log, j: nat)
    requires Quiet(d, st, log) && j <= 4
    requires Data(st.generation) in d.Dir() && PayloadOf(d, st) in d.files
    ensures Safe(Run(Indexed(d, st), MarkerActions(d.next + 2, st.generation + 1)[..j]), st, log, Compacted(st), log)
    ensures Quiet(Run(Indexed(d, st), MarkerActions(d.next + 2, st.generation + 1) + [SyncDir]), Compacted(st), log)
  {
    hide AllPublish, Publishes, MarkerText, Moved, Listed, AtomicDisk, Do, Compacted, Indexed;
    var c, g := Indexed(d, st), st.generation + 1;
    IndexPublishes(d, st, log, 4);
    var index := IndexActions(d.next + 1, g, st.head, Moved(st.sequence, Listed(st.sequence.Keys)));
    assert index[..4] == index;
    AllValid(c, st, log);
    MarkerPublishes(d, st, log);
    CopiedNext(d, st);
    RunAtomic(c, CurrentNext, Current, MarkerText(g), j);
    RunAtomic(c, CurrentNext, Current, MarkerText(g), 4);
    AtomicInto(c, CurrentNext, Current, MarkerText(g), j, st, log, Compacted(st), log);
    var a := MarkerActions(d.next + 2, g);
    assert a[..4] == a && (a + [SyncDir])[..4] == a;
  }

  // ---- the old generation's files go

  lemma RemoveAside(d: Disk, name: Name, st: CowState, log: Log)
    requires AllPublish(d, st, log) && name !in NamesOf(st)
    ensures AllPublish(Do(d, Remove(name)), st, log)
    ensures Quiet(Do(d, SyncDir), st, log)
  {
    hide Describes;
    DoValid(d, Remove(name));
    DoValid(d, SyncDir);
    assert d.Dir() in d.dirs;
    PublishesSameNames(d.files, d.Dir(), d.Dir() - {name}, st, log);
  }

  /** The last three actions, after the marker is durable. */
  lemma CleanupPublishes(d: Disk, st: CowState, log: Log, past: nat, j: nat)
    requires Quiet(d, st, log) && past != st.generation && j <= 3
    ensures AllPublish(Run(d, [Remove(Data(past)), Remove(Index(past)), SyncDir][..j]), st, log)
    ensures Quiet(Run(d, [Remove(Data(past)), Remove(Index(past)), SyncDir]), st, log)
  {
    hide AllPublish, Do;
    var a := [Remove(Data(past)), Remove(Index(past)), SyncDir];
    assert a[..0] == [] && a[..1][..0] == [] && a[..2][..1] == a[..1] && a[..3][..2] == a[..2] && a[..3] == a;
    AllValid(d, st, log);
    var d1 := Do(d, a[0]);
    RemoveAside(d, Data(past), st, log);
    AllValid(d1, st, log);
    var d2 := Do(d1, a[1]);
    RemoveAside(d1, Index(past), st, log);
    AllValid(d2, st, log);
    RemoveAside(d2, Index(past), st, log);
    assert Run(d, a[..1]) == d1 && Run(d, a[..2]) == d2 && Run(d, a) == Do(d2, a[2]);
  }

  lemma AllIsSafe(d: Disk, st: CowState, log: Log, st': CowState, log': Log)
    requires AllPublish(d, st, log)
    ensures Safe(d, st, log, st', log') && Safe(d, st', log', st, log)
  {
  }
}

/**
  Crash safety of the copy-on-write store. A directory version publishes a state when its marker and index are
  synced whole and every row points into synced payload bytes. Every action of every operation keeps each version
  of the directory publishing either the state before or the state after.
 */
module CowCrash {
  import opened Bytes
  import opened LibraryLog
  import opened IndexCodec
  import opened Disk
  import opened CowSpec
  import opened CowContents

  ghost predicate Publishes(files: map<nat, File>, dir: Directory, st: CowState, log: Log) {
    && Current in dir && Index(st.generation) in dir && Data(st.generation) in dir
    && dir[Current] in files && dir[Index(st.generation)] in files && dir[Data(st.generation)] in files
    && files[dir[Current]] == File(MarkerText(st.generation), [])
    && files[dir[Index(st.generation)]] == File(EncodeIndex(st.head, st.sequence), [])
    && Describes(files[dir[Data(st.generation)]].synced, st, log)
  }

  ghost predicate AllPublish(d: Disk, st: CowState, log: Log) {
    d.Valid() && forall dir :: dir in d.dirs ==> Publishes(d.files, dir, st, log)
  }

  /** Between operations: one directory version, and it publishes the state the process holds. */
  ghost predicate Quiet(d: Disk, st: CowState, log: Log) {
    AllPublish(d, st, log) && |d.dirs| == 1
  }

  /** Every version the directory may be left in publishes one of the two states. */
  ghost predicate Safe(d: Disk, st: CowState, log: Log, st': CowState, log': Log) {
    && d.Valid()
    && forall dir :: dir in d.dirs ==> Publishes(d.files, dir, st, log) || Publishes(d.files, dir, st', log')
  }

  /** Files only gain bytes, and only payload files do. */
  ghost predicate Kept(files: map<nat, File>, files': map<nat, File>, payload: nat) {
    forall inode :: inode in files ==>
      inode in files' && (if inode == payload then files[inode].synced <= files'[inode].synced
                          else files'[inode] == files[inode])
  }

  lemma PublishesKept(files: map<nat, File>, files': map<nat, File>, dir: Directory, st: CowState, log: Log,
                      payload: nat)
    requires Publishes(files, dir, st, log)
    requires Kept(files, files', payload)
    requires payload != dir[Current] && payload != dir[Index(st.generation)]
    ensures Publishes(files', dir, st, log)
  {
    hide Describes, MarkerText, EncodeIndex;
    var data := dir[Data(st.generation)];
    DescribesPrefix(files[data].synced, files'[data].synced, st, log);
  }

  /** The names a published state is read through decide alone whether it is published. */
  lemma PublishesSameNames(files: map<nat, File>, dir: Directory, dir': Directory, st: CowState, log: Log)
    requires Publishes(files, dir, st, log)
    requires Current in dir' && dir'[Current] == dir[Current]
    requires Index(st.generation) in dir' && dir'[Index(st.generation)] == dir[Index(st.generation)]
    requires Data(st.generation) in dir' && dir'[Data(st.generation)] == dir[Data(st.generation)]
    ensures Publishes(files, dir', st, log)
  {
  }

  lemma PrefixOf<T>(a: seq<T>, b: seq<T>, k: nat)
    requires k <= |a| + |b|
    ensures (a + b)[..k] == if k <= |a| then a[..k] else a + b[..k - |a|]
  {
  }

  lemma RunPrefix(d: Disk, a: seq<Action>, b: seq<Action>, k: nat)
    requires |d.dirs| > 0 && k <= |a| + |b|
    ensures Run(d, (a + b)[..k]) == if k <= |a| then Run(d, a[..k]) else Run(Run(d, a), b[..k - |a|])
  {
    PrefixOf(a, b, k);
    if k > |a| { RunConcat(d, a, b[..k - |a|]); }
  }

  // ---- the parts operations are made of

  lemma {:induction false} RunAppends(d: Disk, inode: nat, fragments: seq<seq<byte>>)
    requires |d.dirs| > 0 && inode in d.files
    ensures Run(d, Appends(inode, fragments))
         == d.(files := d.files[inode := File(d.files[inode].synced, d.files[inode].pending + Concat(fragments))])
  {
    var f := d.files[inode];
    if fragments == [] {
      assert f.pending + Concat(fragments) == f.pending;
      assert d.files[inode := f] == d.files;
    } else {
      var init, last := fragments[..|fragments| - 1], fragments[|fragments| - 1];
      RunAppends(d, inode, init);
      assert Appends(inode, fragments)[..|fragments| - 1] == Appends(inode, init);
      assert f.pending + Concat(init) + last == f.pending + Concat(fragments);
      var files := d.files[inode := File(f.synced, f.pending + Concat(init))];
      assert files[inode := File(f.synced, f.pending + Concat(fragments))]
          == d.files[inode := File(f.synced, f.pending + Concat(fragments))];
    }
  }

  lemma {:induction false} RunValid(d: Disk, actions: seq<Action>)
    requires d.Valid()
    ensures Run(d, actions).Valid()
  {
    if actions != [] {
      RunValid(d, actions[..|actions| - 1]);
      DoValid(Run(d, actions[..|actions| - 1]), actions[|actions| - 1]);
    }
  }

  function WithTemp(d: Disk, temp: Name): Directory
    requires |d.dirs| > 0
  {
    d.Dir()[temp := d.next]
  }

  function Renamed(d: Disk, temp: Name, final: Name): Directory
    requires |d.dirs| > 0
  {
    (d.Dir() - {temp})[final := d.next]
  }

  /** The disk after the first `j` actions of an atomic replacement. */
  function AtomicDisk(d: Disk, temp: Name, final: Name, bytes: seq<byte>, j: nat): Disk
    requires |d.dirs| > 0 && j <= 4
  {
    if j == 0 then d
    else
      Disk(d.files[d.next := if j == 1 then File([], []) else if j == 2 then File([], bytes) else File(bytes, [])],
           d.dirs + [WithTemp(d, temp)] + (if j == 4 then [Renamed(d, temp, final)] else []),
           d.next + 1)
  }

  lemma RunAtomic(d: Disk, temp: Name, final: Name, bytes: seq<byte>, j: nat)
    requires d.Valid() && j <= 4
    ensures Run(d, AtomicFile(d.next, temp, final, bytes)[..j]) == AtomicDisk(d, temp, final, bytes, j)
  {
    var a := AtomicFile(d.next, temp, final, bytes);
    if j > 0 {
      RunAtomic(d, temp, final, bytes, j - 1);
      assert a[..j][..j - 1] == a[..j - 1] && a[..j][j - 1] == a[j - 1];
      AtomicStep(d, temp, final, bytes, j);
    }
  }

  lemma AtomicStep(d: Disk, temp: Name, final: Name, bytes: seq<byte>, j: nat)
    requires d.Valid() && 0 < j <= 4
    ensures Do(AtomicDisk(d, temp, final, bytes, j - 1), AtomicFile(d.next, temp, final, bytes)[j - 1])
         == AtomicDisk(d, temp, final, bytes, j)
  {
    var e := AtomicDisk(d, temp, final, bytes, j - 1);
    if j == 1 {
      assert d.dirs + [WithTemp(d, temp)] + [] == d.dirs + [WithTemp(d, temp)];
    } else {
      assert e.files[d.next := AtomicDisk(d, temp, final, bytes, j).files[d.next]]
          == AtomicDisk(d, temp, final, bytes, j).files;
      assert [] + bytes == bytes && bytes + [] == bytes;
      assert d.dirs + [WithTemp(d, temp)] + [] == d.dirs + [WithTemp(d, temp)];
      assert e.Dir() == WithTemp(d, temp);
      assert (WithTemp(d, temp) - {temp})[final := d.next] == Renamed(d, temp, final);
    }
  }

  function NamesOf(st: CowState): set<Name> {
    {Current, Index(st.generation), Data(st.generation)}
  }

  lemma AtomicValid(d: Disk, temp: Name, final: Name, bytes: seq<byte>, j: nat)
    requires d.Valid() && j <= 4
    ensures AtomicDisk(d, temp, final, bytes, j).Valid()
  {
    RunAtomic(d, temp, final, bytes, j);
    RunValid(d, AtomicFile(d.next, temp, final, bytes)[..j]);
  }

  lemma AtomicKeeps(d: Disk, temp: Name, final: Name, bytes: seq<byte>, j: nat, dir: Directory, st: CowState, log: Log)
    requires d.Valid() && j <= 4
    requires Publishes(d.files, dir, st, log)
    ensures Publishes(AtomicDisk(d, temp, final, bytes, j).files, dir, st, log)
  {
    hide Publishes, Describes;
    var files' := AtomicDisk(d, temp, final, bytes, j).files;
    assert Kept(d.files, files', d.next);
    assert d.next !in d.files;
    FreshPayload(d.files, dir, st, log, d.next);
    PublishesKept(d.files, files', dir, st, log, d.next);
  }

  lemma FreshPayload(files: map<nat, File>, dir: Directory, st: CowState, log: Log, inode: nat)
    requires Publishes(files, dir, st, log) && inode !in files
    ensures Current in dir && Index(st.generation) in dir
    ensures inode != dir[Current] && inode != dir[Index(st.generation)]
  {
  }

  /** A temporary file beside a published state leaves it published. */
  lemma TempKeeps(d: Disk, temp: Name, st: CowState, log: Log)
    requires AllPublish(d, st, log) && temp !in NamesOf(st)
    ensures Publishes(d.files, WithTemp(d, temp), st, log)
  {
    hide Describes;
    assert d.Dir() in d.dirs;
    PublishesSameNames(d.files, d.Dir(), WithTemp(d, temp), st, log);
  }

  /** An atomic replacement of a file the published state is not read through. */
  lemma AtomicAside(d: Disk, temp: Name, final: Name, bytes: seq<byte>, j: nat, st: CowState, log: Log)
    requires AllPublish(d, st, log) && j <= 4
    requires temp !in NamesOf(st) && final !in NamesOf(st)
    ensures AllPublish(AtomicDisk(d, temp, final, bytes, j), st, log)
  {
    hide Publishes;
    var e := AtomicDisk(d, temp, final, bytes, j);
    AtomicValid(d, temp, final, bytes, j);
    TempKeeps(d, temp, st, log);
    RenamedAside(d, temp, final, st, log);
    forall dir | dir in e.dirs ensures Publishes(e.files, dir, st, log) {
      assert dir in d.dirs || dir == WithTemp(d, temp) || dir == Renamed(d, temp, final);
      AtomicKeeps(d, temp, final, bytes, j, dir, st, log);
    }
  }

  lemma RenamedAside(d: Disk, temp: Name, final: Name, st: CowState, log: Log)
    requires AllPublish(d, st, log)
    requires temp !in NamesOf(st) && final !in NamesOf(st)
    ensures Publishes(d.files, Renamed(d, temp, final), st, log)
  {
    hide Describes;
    assert d.Dir() in d.dirs;
    PublishesSameNames(d.files, d.Dir(), Renamed(d, temp, final), st, log);
  }

  /** An atomic replacement that publishes a new state: before the rename the old one, after it the new one. */
  lemma AtomicInto(d: Disk, temp: Name, final: Name, bytes: seq<byte>, j: nat,
                   st: CowState, log: Log, st': CowState, log': Log)
    requires AllPublish(d, st, log) && j <= 4
    requires temp !in NamesOf(st)
    requires Publishes(d.files[d.next := File(bytes, [])], Renamed(d, temp, final), st', log')
    ensures Safe(AtomicDisk(d, temp, final, bytes, j), st, log, st', log')
    ensures Quiet(Do(AtomicDisk(d, temp, final, bytes, 4), SyncDir), st', log')
  {
    hide Publishes;
    var e := AtomicDisk(d, temp, final, bytes, j);
    AtomicValid(d, temp, final, bytes, j);
    AtomicValid(d, temp, final, bytes, 4);
    DoValid(AtomicDisk(d, temp, final, bytes, 4), SyncDir);
    TempKeeps(d, temp, st, log);
    forall dir | dir in e.dirs
      ensures Publishes(e.files, dir, st, log) || Publishes(e.files, dir, st', log')
    {
      if dir in d.dirs || dir == WithTemp(d, temp) {
        AtomicKeeps(d, temp, final, bytes, j, dir, st, log);
      } else {
        assert j == 4 && dir == Renamed(d, temp, final);
      }
    }
  }

  // ---- a batch

  lemma PayloadApart(d: Disk, dir: Directory, st: CowState, log: Log)
    requires AllPublish(d, st, log) && dir in d.dirs
    ensures Current in dir && Index(st.generation) in dir
    ensures Data(st.generation) in dir && dir[Data(st.generation)] in d.files
    ensures dir[Data(st.generation)] != dir[Current] && dir[Data(st.generation)] != dir[Index(st.generation)]
  {
    var i :| 0 <= i < |d.dirs| && d.dirs[i] == dir;
    assert OneNameEach(dir);
  }

  /** Bytes appended to the payload, synced or not, leave a quiet disk quiet. */
  lemma QuietPayload(d: Disk, st: CowState, log: Log, f: File)
    requires Quiet(d, st, log)
    requires Data(st.generation) in d.Dir() && PayloadOf(d, st) in d.files
    requires d.files[PayloadOf(d, st)].synced <= f.synced
    ensures Quiet(d.(files := d.files[PayloadOf(d, st) := f]), st, log)
  {
    hide Publishes, Describes;
    var data := PayloadOf(d, st);
    var d' := d.(files := d.files[data := f]);
    PayloadApart(d, d.Dir(), st, log);
    assert Kept(d.files, d'.files, data);
    assert d.dirs[0] in d.dirs;
    PublishesKept(d.files, d'.files, d.Dir(), st, log, data);
    assert forall dir :: dir in d'.dirs ==> dir == d.Dir();
  }
}

/**
  The directory the copy-on-write store writes to, with what a crash may do to it. A file has one name, and keeps the
  bytes its last sync made durable and the bytes written since. Directory changes are kept as the versions the
  directory went through since it was last synced: a rename is one version, so it is atomic. A crash leaves one of
  those versions, and of every file the durable bytes and some prefix of the rest.
 */
module Disk {
  import opened Bytes

  datatype Name = Current | CurrentNext | Data(gen: nat) | Index(gen: nat) | IndexNext(gen: nat)

  datatype File = File(synced: seq<byte>, pending: seq<byte>) {
    function Contents(): seq<byte> {
      synced + pending
    }
  }

  type Directory = map<Name, nat>

  ghost predicate OneNameEach(dir: Directory) {
    forall a, b :: a in dir && b in dir && dir[a] == dir[b] ==> a == b
  }

  datatype Disk = Disk(files: map<nat, File>, dirs: seq<Directory>, next: nat) {
    ghost predicate Valid() {
      && |dirs| > 0
      && (forall i, name :: 0 <= i < |dirs| && name in dirs[i] ==> dirs[i][name] in files)
      && (forall i :: 0 <= i < |dirs| ==> OneNameEach(dirs[i]))
      && (forall inode :: inode in files ==> inode < next)
    }

    /** The directory as the running process sees it. */
    function Dir(): Directory
      requires |dirs| > 0
    {
      dirs[|dirs| - 1]
    }
  }

  /** A name of a file created empty, bytes added to an open file, `sync_all`, `rename`, `remove_file`, `sync_dir`. */
  datatype Action =
    | Create(name: Name)
    | Append(inode: nat, bytes: seq<byte>)
    | SyncFile(inode: nat)
    | Rename(from: Name, to: Name)
    | Remove(name: Name)
    | SyncDir

  function Do(d: Disk, a: Action): (d': Disk)
    requires |d.dirs| > 0
    ensures |d'.dirs| > 0
  {
    match a
    case Create(name) =>
      Disk(d.files[d.next := File([], [])], d.dirs + [d.Dir()[name := d.next]], d.next + 1)
    case Append(inode, bytes) =>
      if inode in d.files
      then d.(files := d.files[inode := File(d.files[inode].synced, d.files[inode].pending + bytes)])
      else d
    case SyncFile(inode) =>
      if inode in d.files then d.(files := d.files[inode := File(d.files[inode].Contents(), [])]) else d
    case Rename(from, to) =>
      if from in d.Dir() then d.(dirs := d.dirs + [(d.Dir() - {from})[to := d.Dir()[from]]]) else d
    case Remove(name) => d.(dirs := d.dirs + [d.Dir() - {name}])
    case SyncDir => d.(dirs := [d.Dir()])
  }

  function Run(d: Disk, actions: seq<Action>): (d': Disk)
    requires |d.dirs| > 0
    ensures |d'.dirs| > 0
  {
    if actions == [] then d else Do(Run(d, actions[..|actions| - 1]), actions[|actions| - 1])
  }

  lemma DoValid(d: Disk, a: Action)
    requires d.Valid()
    ensures Do(d, a).Valid()
  {
  }

  lemma {:induction false} RunConcat(d: Disk, a: seq<Action>, b: seq<Action>)
    requires |d.dirs| > 0
    ensures Run(d, a + b) == Run(Run(d, a), b)
  {
    if b == [] {
      assert a + b == a;
    } else {
      RunConcat(d, a, b[..|b| - 1]);
      assert (a + b)[..|a + b| - 1] == a + b[..|b| - 1];
    }
  }

  lemma RunSnoc(d: Disk, actions: seq<Action>, a: Action)
    requires |d.dirs| > 0
    ensures Run(d, actions + [a]) == Do(Run(d, actions), a)
  {
    hide Do;
    assert (actions + [a])[..|actions|] == actions;
  }

  lemma RunOne(d: Disk, a: Action)
    requires |d.dirs| > 0
    ensures Run(d, [a]) == Do(d, a)
  {
    hide Do;
    assert [a][..0] == [];
  }

  /** What is left of a file. */
  ghost predicate Cut(before: File, after: File)
  {
    exists k :: 0 <= k <= |before.pending| && after == File(before.synced + before.pending[..k], [])
  }

  /** `after` is a disk a crash of `before` may leave. */
  ghost predicate CrashesTo(before: Disk, after: Disk)
  {
    && |after.dirs| == 1 && after.dirs[0] in before.dirs
    && after.next == before.next
    && after.files.Keys == before.files.Keys
    && forall inode :: inode in before.files ==> Cut(before.files[inode], after.files[inode])
  }

  lemma CrashValid(before: Disk, after: Disk)
    requires before.Valid() && CrashesTo(before, after)
    ensures after.Valid()
  {
    var i :| 0 <= i < |before.dirs| && before.dirs[i] == after.dirs[0];
  }
}

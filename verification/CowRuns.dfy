/** Whole runs of the copy-on-write store: the first opening, operations, crashes and reopenings, in any order. */
module CowRuns {
  import opened Bytes
  import opened Ordered
  import opened Results
  import opened LibraryLog
  import opened IndexCodec
  import opened Disk
  import opened CowSpec
  import opened CowContents
  import opened CowCrash
  import opened CowOps
  import opened CowCompact
  import opened CowReopen
  import opened CowTheorems

  // ---- the first opening

  /** Neither the marker nor a half-made one was ever put in place. */
  ghost predicate Unmarked(d: Disk) {
    d.Valid() && forall dir :: dir in d.dirs ==> Current !in dir
  }

  lemma DescribesEmpty()
    ensures Describes([], EMPTY, [])
  {
  }

  function Based(d: Disk): (c: Disk)
    requires |d.dirs| > 0
    ensures |c.dirs| > 0 && c.next == d.next + 1
  {
    Do(d, Create(Data(0)))
  }

  function BasedIndexed(d: Disk): (c: Disk)
    requires |d.dirs| > 0
    ensures |c.dirs| > 0 && c.next == d.next + 2
  {
    AtomicDisk(Based(d), IndexNext(0), Index(0), EncodeIndex(0, map[]), 4)
  }

  lemma BasedUnmarked(d: Disk, j: nat)
    requires Unmarked(d) && j <= 4
    ensures Unmarked(Based(d))
    ensures Unmarked(AtomicDisk(Based(d), IndexNext(0), Index(0), EncodeIndex(0, map[]), j))
  {
    hide EncodeIndex;
    var c := Based(d);
    DoValid(d, Create(Data(0)));
    assert d.Dir() in d.dirs;
    assert Current !in c.Dir();
    AtomicValid(c, IndexNext(0), Index(0), EncodeIndex(0, map[]), j);
  }

  lemma MarkerTempUnmarked(d: Disk, j: nat)
    requires Unmarked(d) && j < 4
    ensures Unmarked(AtomicDisk(BasedIndexed(d), CurrentNext, Current, MarkerText(0), j))
  {
    hide EncodeIndex, MarkerText;
    BasedUnmarked(d, 4);
    var c := BasedIndexed(d);
    assert c.Dir() in c.dirs;
    AtomicValid(c, CurrentNext, Current, MarkerText(0), j);
  }

  /** The marker, put in place over the empty payload and index, publishes the empty store. */
  lemma EmptyPublishes(d: Disk)
    requires d.Valid()
    ensures var c := AtomicDisk(BasedIndexed(d), CurrentNext, Current, MarkerText(0), 4);
            Publishes(c.files, c.Dir(), EMPTY, [])
  {
    hide EncodeIndex, MarkerText, Describes;
    DescribesEmpty();
  }

  /** The versions between the marker's rename and the directory sync: unmarked, or publishing the empty store. */
  ghost predicate HalfMarked(d: Disk) {
    d.Valid() && forall dir :: dir in d.dirs ==> Current !in dir || Publishes(d.files, dir, EMPTY, [])
  }

  lemma MarkedHalf(d: Disk)
    requires Unmarked(d)
    ensures var c := AtomicDisk(BasedIndexed(d), CurrentNext, Current, MarkerText(0), 4);
            HalfMarked(c) && Quiet(Do(c, SyncDir), EMPTY, [])
  {
    hide EncodeIndex, MarkerText, Publishes;
    BasedUnmarked(d, 4);
    var b := BasedIndexed(d);
    var c := AtomicDisk(b, CurrentNext, Current, MarkerText(0), 4);
    AtomicValid(b, CurrentNext, Current, MarkerText(0), 4);
    DoValid(c, SyncDir);
    EmptyPublishes(d);
    assert b.Dir() in b.dirs;
    forall dir | dir in c.dirs ensures Current !in dir || Publishes(c.files, dir, EMPTY, []) {
      assert dir in b.dirs || dir == WithTemp(b, CurrentNext) || dir == c.Dir();
    }
  }

  /** Every prefix of the first opening leaves the directory unmarked or the empty store published. */
  lemma InitSafe(d: Disk, k: nat)
    requires Unmarked(d) && k <= |InitActions(d.next)|
    ensures HalfMarked(Run(d, InitActions(d.next)[..k]))
    ensures Quiet(Run(d, InitActions(d.next)), EMPTY, [])
  {
    hide HalfMarked, Do, Run, Based, Quiet, IndexActions, MarkerActions;
    var create := [Create(Data(0))];
    var rest := IndexActions(d.next + 1, 0, 0, map[]) + (MarkerActions(d.next + 2, 0) + [SyncDir]);
    assert InitActions(d.next) == create + rest;
    BasedIs(d);
    RunConcat(d, create, rest);
    RunPrefix(d, create, rest, k);
    BasedSafe(d, 0);
    if k == 0 {
      assert create[..0] == [];
      RunNothing(d);
      UnmarkedHalf(d);
    } else if k == 1 {
      assert create[..1] == create;
      assert rest[..0] == [];
      RunNothing(Based(d));
    } else {
      BasedSafe(d, k - 1);
    }
  }

  /** Once the empty payload exists: the index, then the marker. */
  lemma BasedSafe(d: Disk, k: nat)
    requires Unmarked(d) && k <= 9
    ensures var a := IndexActions(d.next + 1, 0, 0, map[]) + (MarkerActions(d.next + 2, 0) + [SyncDir]);
            HalfMarked(Run(Based(d), a[..k])) && Quiet(Run(Based(d), a), EMPTY, [])
  {
    hide HalfMarked, Publishes, Do, AtomicDisk, EncodeIndex, MarkerText, Run, Based, BasedIndexed, Quiet;
    var index, marker := IndexActions(d.next + 1, 0, 0, map[]), MarkerActions(d.next + 2, 0);
    var b, c := Based(d), BasedIndexed(d);
    IndexedIs(d);
    BasedUnmarked(d, 4);
    UnmarkedValid(b);
    RunAtomic(b, IndexNext(0), Index(0), EncodeIndex(0, map[]), 4);
    assert index[..4] == index;
    RunConcat(b, index, marker + [SyncDir]);
    RunPrefix(b, index, marker + [SyncDir], k);
    MarkerPart(d, 5);
    if k <= 4 {
      RunAtomic(b, IndexNext(0), Index(0), EncodeIndex(0, map[]), k);
      BasedUnmarked(d, k);
      UnmarkedHalf(Run(b, index[..k]));
    } else {
      MarkerPart(d, k - 4);
    }
  }

  lemma MarkerPart(d: Disk, k: nat)
    requires Unmarked(d) && k <= 5
    ensures var a := MarkerActions(d.next + 2, 0) + [SyncDir];
            HalfMarked(Run(BasedIndexed(d), a[..k])) && Quiet(Run(BasedIndexed(d), a), EMPTY, [])
  {
    hide HalfMarked, Publishes, Do, AtomicDisk, EncodeIndex, MarkerText, Run, Based, BasedIndexed, Quiet;
    var c, marker := BasedIndexed(d), MarkerActions(d.next + 2, 0);
    BasedUnmarked(d, 4);
    IndexedIs(d);
    UnmarkedValid(c);
    RunAtomic(c, CurrentNext, Current, MarkerText(0), 4);
    assert marker[..4] == marker;
    RunSnoc(c, marker, SyncDir);
    MarkedHalf(d);
    if k < 4 {
      assert (marker + [SyncDir])[..k] == marker[..k];
      RunAtomic(c, CurrentNext, Current, MarkerText(0), k);
      MarkerTempUnmarked(d, k);
      UnmarkedHalf(Run(c, marker[..k]));
    } else if k == 4 {
      assert (marker + [SyncDir])[..4] == marker;
    } else {
      assert (marker + [SyncDir])[..5] == marker + [SyncDir];
      QuietHalf(Run(c, marker + [SyncDir]));
    }
  }

  lemma UnmarkedHalf(d: Disk)
    requires Unmarked(d)
    ensures HalfMarked(d)
  {
  }

  lemma UnmarkedValid(d: Disk)
    requires Unmarked(d)
    ensures d.Valid()
  {
  }

  lemma QuietHalf(d: Disk)
    requires Quiet(d, EMPTY, [])
    ensures HalfMarked(d)
  {
  }

  lemma BasedIs(d: Disk)
    requires |d.dirs| > 0
    ensures Run(d, [Create(Data(0))]) == Based(d)
  {
    hide Do, Run;
    RunOne(d, Create(Data(0)));
  }

  lemma IndexedIs(d: Disk)
    requires |d.dirs| > 0
    ensures BasedIndexed(d) == AtomicDisk(Based(d), IndexNext(0), Index(0), EncodeIndex(0, map[]), 4)
  {
  }

  /** A crash of the first opening leaves a directory the next opening starts over on, or the empty store. */
  lemma InitCrash(d: Disk, k: nat, c: Disk)
    requires Unmarked(d) && k <= |InitActions(d.next)|
    requires CrashesTo(Run(d, InitActions(d.next)[..k]), c)
    ensures c.Valid()
    ensures (Unmarked(c) && Load(c) == Err(NoMarker)) || (Quiet(c, EMPTY, []) && Load(c) == Ok(EMPTY))
  {
    hide Publishes, Run, InitActions, Quiet;
    InitSafe(d, k);
    var e := Run(d, InitActions(d.next)[..k]);
    CrashValid(e, c);
    assert c.dirs[0] in e.dirs;
    if Current in c.dirs[0] {
      CrashKeeps(e, c, EMPTY, []);
      EmptyLoads(c);
    }
  }

  lemma EmptyLoads(c: Disk)
    requires Quiet(c, EMPTY, [])
    ensures c.Valid() && Load(c) == Ok(EMPTY)
  {
    hide Publishes, Load;
    LoadPublished(c, EMPTY, []);
  }

  // ---- openings, operations and crashes

  /**
    A directory no opening has finished in; a process with the store open, and ghostly the writes it has published; or
    an opening that was refused.
   */
  datatype System = New(d: Disk) | Up(d: Disk, st: CowState, log: Log) | Refused(d: Disk, error: OpenError)

  datatype Event =
    | Opened
    | OpenCrashed(k: nat, disk: Disk)
    | Done(op: Op)
    | Crashed(op: Op, k: nat, disk: Disk)

  ghost predicate Ready(s: System) {
    s.Up? && |s.d.dirs| > 0 && Data(s.st.generation) in s.d.Dir() && PayloadOf(s.d, s.st) in s.d.files
  }

  /** The event can happen: the crash leaves such a disk, and the integers of the process do not overflow. */
  ghost predicate Possible(s: System, e: Event) {
    match e
    case Opened => s.New? && |s.d.dirs| > 0
    case OpenCrashed(k, c) =>
      && s.New? && |s.d.dirs| > 0 && k <= |InitActions(s.d.next)|
      && CrashesTo(Run(s.d, InitActions(s.d.next)[..k]), c)
      && c.Valid()
    case Done(op) => Ready(s) && Machine(OpState(s.d, s.st, op))
    case Crashed(op, k, c) =>
      && Ready(s) && Machine(OpState(s.d, s.st, op))
      && k <= |OpActions(s.d, s.st, op)|
      && CrashesTo(Run(s.d, OpActions(s.d, s.st, op)[..k]), c)
      && c.Valid()
  }

  /**
    One event. After a crash the state is whatever opening finds, and the history is the attempted one cut at the
    head opening finds: nothing is assumed about which writes survived. Only where no opening had finished may the next
    one find no marker and start over.
   */
  ghost function Next(s: System, e: Event): System
    requires Possible(s, e)
  {
    match e
    case Opened => Up(Run(s.d, InitActions(s.d.next)), EMPTY, [])
    case OpenCrashed(_, c) =>
      (match Load(c)
       case Err(error) => if error == NoMarker then New(c) else Refused(c, error)
       case Ok(st) => Up(c, st, []))
    case Done(op) => Up(Run(s.d, OpActions(s.d, s.st, op)), OpState(s.d, s.st, op), OpLog(s.d, s.st, s.log, op))
    case Crashed(op, _, c) =>
      var log := OpLog(s.d, s.st, s.log, op);
      match Load(c)
      case Err(error) => Refused(c, error)
      case Ok(st) => Up(c, st, if st.head <= |log| then log[..st.head] else log)
  }

  ghost predicate Follows(s: System, events: seq<Event>, last: System)
    decreases |events|
  {
    if events == [] then s == last
    else Possible(s, events[0]) && Follows(Next(s, events[0]), events[1..], last)
  }

  /**
    New: no marker was ever put in place. Up: the disk is quiet on the state. Refused: only because of a limit the
    reader alone checks, never torn.
   */
  ghost predicate Sound(s: System) {
    match s
    case New(d) => Unmarked(d)
    case Up(d, st, log) => Quiet(d, st, log) && Machine(st)
    case Refused(_, error) => error == BadIndex(TooManyRows) || error == BadIndex(BadBounds)
  }

  /** The empty directory every store begins as. */
  const BLANK := Disk(map[], [map[]], 0)

  lemma BlankSound()
    ensures Sound(New(BLANK))
  {
  }

  lemma HeadIsLength(d: Disk, st: CowState, log: Log)
    requires Quiet(d, st, log)
    ensures st.head == |log|
  {
    hide Holds;
    assert d.Dir() in d.dirs;
  }

  lemma EmptyMachine()
    ensures Machine(EMPTY)
  {
  }

  lemma OpeningSound(s: System, e: Event)
    requires Sound(s) && Possible(s, e) && (e.Opened? || e.OpenCrashed?)
    ensures Sound(Next(s, e))
  {
    hide Quiet, Load, Machine, InitActions, CrashesTo, Run, Unmarked, OpState, OpActions;
    EmptyMachine();
    if e.Opened? {
      InitSafe(s.d, 0);
    } else {
      InitCrash(s.d, e.k, e.disk);
    }
  }

  lemma OperationSound(s: System, e: Event)
    requires Sound(s) && Possible(s, e) && (e.Done? || e.Crashed?)
    ensures Sound(Next(s, e))
  {
    hide Quiet, Load, Machine, OpState, OpActions, CrashesTo, Run, Fits;
    var d, st, log, op := s.d, s.st, s.log, e.op;
    if e.Done? {
      OpSafe(d, st, log, op, 0);
    } else {
      CrashAtomic(d, st, log, op, e.k, e.disk);
      var st', log' := OpState(d, st, op), OpLog(d, st, log, op);
      HeadIsLength(d, st, log);
      if Load(e.disk) == Reopened(st) && Quiet(e.disk, st, log) {
        assert log'[..st.head] == log;
      } else {
        HeadIsLength(e.disk, st', log');
        assert log'[..st'.head] == log';
      }
    }
  }

  lemma NextSound(s: System, e: Event)
    requires Sound(s) && Possible(s, e)
    ensures Sound(Next(s, e))
  {
    hide Sound, Next, Possible;
    if e.Opened? || e.OpenCrashed? { OpeningSound(s, e); } else { OperationSound(s, e); }
  }

  /**
    Over every run, whatever was cut short and however often, the store that is open holds exactly a history of
    published writes, and an opening is never refused for a torn or missing file.
   */
  lemma {:induction false} RunsAreSound(s: System, events: seq<Event>, last: System)
    requires Sound(s) && Follows(s, events, last)
    ensures Sound(last)
    decreases |events|
  {
    hide Sound, Possible, Next;
    if events != [] {
      NextSound(s, events[0]);
      RunsAreSound(Next(s, events[0]), events[1..], last);
    }
  }

  /** From an empty directory: every run of openings, operations and crashes. */
  lemma RunsFromNothing(events: seq<Event>, last: System)
    requires Follows(New(BLANK), events, last)
    ensures Sound(last)
  {
    hide Follows, Sound;
    BlankSound();
    RunsAreSound(New(BLANK), events, last);
  }

  /** A history only ever grows, by whole batches: nothing published is lost to a crash. */
  lemma NextGrows(s: System, e: Event)
    requires Sound(s) && s.Up? && Possible(s, e) && Next(s, e).Up?
    ensures Next(s, e).log == s.log || Next(s, e).log == OpLog(s.d, s.st, s.log, e.op)
    ensures s.log <= Next(s, e).log
  {
    hide Quiet, Load, Machine, OpState, OpActions, CrashesTo, Run, Fits;
    var d, st, log, op := s.d, s.st, s.log, e.op;
    if e.Crashed? {
      CrashAtomic(d, st, log, op, e.k, e.disk);
      var st', log' := OpState(d, st, op), OpLog(d, st, log, op);
      HeadIsLength(d, st, log);
      if Load(e.disk) == Reopened(st) && Quiet(e.disk, st, log) {
        assert log'[..st.head] == log;
      } else {
        HeadIsLength(e.disk, st', log');
        assert log'[..st'.head] == log';
      }
    }
  }

  // ---- a state that is accepted and cannot be opened again

  lemma OpenedIs(d: Disk)
    requires Unmarked(d)
    ensures Run(d, InitActions(d.next))
         == Do(AtomicDisk(BasedIndexed(d), CurrentNext, Current, MarkerText(0), 4), SyncDir)
  {
    hide Do, AtomicDisk, EncodeIndex, MarkerText, Run, Based, BasedIndexed;
    var create := [Create(Data(0))];
    var index, marker := IndexActions(d.next + 1, 0, 0, map[]), MarkerActions(d.next + 2, 0);
    assert InitActions(d.next) == create + (index + (marker + [SyncDir]));
    BasedIs(d);
    IndexedIs(d);
    BasedUnmarked(d, 4);
    UnmarkedValid(Based(d));
    UnmarkedValid(BasedIndexed(d));
    RunConcat(d, create, index + (marker + [SyncDir]));
    RunAtomic(Based(d), IndexNext(0), Index(0), EncodeIndex(0, map[]), 4);
    assert index[..4] == index && marker[..4] == marker;
    RunConcat(Based(d), index, marker + [SyncDir]);
    RunAtomic(BasedIndexed(d), CurrentNext, Current, MarkerText(0), 4);
    RunSnoc(BasedIndexed(d), marker, SyncDir);
  }

  predicate EmptyPayload(d: Disk) {
    |d.dirs| > 0 && Data(0) in d.Dir() && d.Dir()[Data(0)] in d.files && d.files[d.Dir()[Data(0)]].Contents() == []
  }

  lemma AtomicKeepsEmpty(d: Disk, temp: Name, final: Name, bytes: seq<byte>)
    requires d.Valid() && EmptyPayload(d) && !temp.Data? && !final.Data?
    ensures EmptyPayload(AtomicDisk(d, temp, final, bytes, 4))
  {
  }

  /** A store just made has an empty payload. */
  lemma OpenedEmpty(d: Disk)
    requires Unmarked(d)
    ensures EmptyPayload(Run(d, InitActions(d.next)))
  {
    hide EncodeIndex, MarkerText, Run, AtomicDisk;
    OpenedIs(d);
    BasedUnmarked(d, 4);
    assert EmptyPayload(Based(d));
    AtomicKeepsEmpty(Based(d), IndexNext(0), Index(0), EncodeIndex(0, map[]));
    IndexedIs(d);
    AtomicKeepsEmpty(BasedIndexed(d), CurrentNext, Current, MarkerText(0));
  }

  /** One write of a fragment one byte longer than the reader takes. */
  function TooLong(): Op {
    Batch([Write(Key([]), seq(MAX_LEN + 1, _ => 0))], true)
  }

  lemma TooLongStaged(d: Disk)
    requires EmptyPayload(d)
    ensures Succeeds(d, EMPTY, TooLong())
    ensures OpState(d, EMPTY, TooLong())
         == CowState(0, 1, map[Key([]) := 1], map[1 := Placed(Key([]), Location(0, MAX_LEN + 1))])
  {
    var w := Write(Key([]), seq(MAX_LEN + 1, _ => 0));
    assert [w][..0] == [];
    assert Staged(EMPTY, 0, []) == EMPTY;
    assert Staged(EMPTY, 0, [w]) == AddWrite(EMPTY, 0, w);
  }

  lemma TooLongRefused(st: CowState)
    requires st == CowState(0, 1, map[Key([]) := 1], map[1 := Placed(Key([]), Location(0, MAX_LEN + 1))])
    ensures Machine(st) && Reopened(st) == Err(BadIndex(BadBounds))
  {
    assert st.sequence[1].at.len > MAX_LEN;
    assert |st.sequence| == 1 by { assert st.sequence.Keys == {1}; }
  }

  lemma NothingCrashes(d: Disk, st: CowState, log: Log) returns (c: Disk)
    requires Quiet(d, st, log) && Machine(st)
    ensures CrashesTo(d, c) && c.Valid() && Load(c) == Reopened(st)
  {
    hide Publishes, Load, Machine;
    c := Disk(map inode | inode in d.files :: File(d.files[inode].Contents(), []), [d.Dir()], d.next);
    assert d.Dir() in d.dirs;
    assert CrashesTo(d, c) by {
      forall inode | inode in d.files ensures Cut(d.files[inode], c.files[inode]) {
        var f := d.files[inode];
        assert f.pending[..|f.pending|] == f.pending;
      }
    }
    QuietIsSafe(d, st, log, st, log);
    SafeReopens(d, c, st, log, st, log);
  }

  /**
    From an empty directory: the first opening, one batch that succeeds, and then a crash with nothing under way, after
    which the store cannot be opened.
   */
  lemma AcceptedThenRefused() returns (events: seq<Event>, last: System)
    ensures Follows(New(BLANK), events, last) && last.Refused? && last.error == BadIndex(BadBounds)
    ensures |events| == 3 && events[0] == Opened && events[1] == Done(TooLong())
    ensures Possible(New(BLANK), Opened)
    ensures var s := Next(New(BLANK), Opened); Ready(s) && Succeeds(s.d, s.st, TooLong())
  {
    hide Quiet, Load, Machine, OpState, OpActions, OpLog, CrashesTo, Run, Fits, TooLong, InitActions;
    BlankSound();
    var s0 := New(BLANK);
    var s1 := Next(s0, Opened);
    OpenedEmpty(BLANK);
    OpeningSound(s0, Opened);
    TooLongStaged(s1.d);
    TooLongRefused(OpState(s1.d, EMPTY, TooLong()));
    var s2 := Next(s1, Done(TooLong()));
    OperationSound(s1, Done(TooLong()));
    QuietFacts(s2.d, s2.st, s2.log);
    var c := NothingCrashes(s2.d, s2.st, s2.log);
    var idle := Batch([], false);
    Idle(s2);
    var e := Crashed(idle, 0, c);
    last := Next(s2, e);
    events := [Opened, Done(TooLong()), e];
    assert events[1..] == [Done(TooLong()), e] && events[1..][1..] == [e] && events[1..][1..][1..] == [];
    assert Follows(s2, [e], last);
    assert Follows(s1, [Done(TooLong()), e], last);
  }

  lemma Idle(s: System)
    requires Ready(s)
    ensures OpState(s.d, s.st, Batch([], false)) == s.st
    ensures Run(s.d, OpActions(s.d, s.st, Batch([], false))[..0]) == s.d
  {
    hide OpActions;
    assert OpActions(s.d, s.st, Batch([], false))[..0] == [];
    RunNothing(s.d);
  }

  // ---- a compaction that was cut short

  /** Every version the directory may be left in still has the next payload file. */
  ghost predicate InTheWay(d: Disk, g: nat) {
    |d.dirs| > 0 && forall dir :: dir in d.dirs ==> Data(g + 1) in dir
  }

  lemma DoStaysInTheWay(d: Disk, a: Action, g: nat)
    requires InTheWay(d, g) && SparesPayloads(a)
    ensures InTheWay(Do(d, a), g)
  {
    assert d.Dir() in d.dirs;
  }

  lemma {:induction false} RunStaysInTheWay(d: Disk, actions: seq<Action>, g: nat)
    requires InTheWay(d, g) && forall i :: 0 <= i < |actions| ==> SparesPayloads(actions[i])
    ensures InTheWay(Run(d, actions), g)
  {
    hide Do, InTheWay;
    assert |d.dirs| > 0 by { HasVersions(d, g); }
    if actions != [] {
      RunStaysInTheWay(d, actions[..|actions| - 1], g);
      DoStaysInTheWay(Run(d, actions[..|actions| - 1]), actions[|actions| - 1], g);
    }
  }

  lemma HasVersions(d: Disk, g: nat)
    requires InTheWay(d, g)
    ensures |d.dirs| > 0
  {
  }

  /** With the file in the way, no action of any operation takes it away or moves to another generation. */
  lemma BlockedActions(s: System, op: Op)
    requires Ready(s) && Data(s.st.generation + 1) in s.d.Dir()
    ensures forall i :: 0 <= i < |OpActions(s.d, s.st, op)| ==> SparesPayloads(OpActions(s.d, s.st, op)[i])
    ensures OpState(s.d, s.st, op).generation == s.st.generation
  {
    hide Staged, Bodies, EncodeIndex;
  }

  ghost predicate Blocked(s: System, g: nat) {
    s.Up? ==> s.st.generation == g && InTheWay(s.d, g)
  }

  lemma QuietInTheWay(d: Disk, st: CowState, log: Log, g: nat)
    requires Quiet(d, st, log) && Data(g + 1) in d.Dir()
    ensures InTheWay(d, g)
  {
    hide Publishes;
  }

  lemma InTheWayNow(d: Disk, g: nat)
    requires InTheWay(d, g)
    ensures Data(g + 1) in d.Dir()
  {
    assert d.Dir() in d.dirs;
  }

  lemma CrashStaysInTheWay(d: Disk, c: Disk, g: nat)
    requires InTheWay(d, g) && CrashesTo(d, c)
    ensures InTheWay(c, g)
  {
  }

  lemma NextBlocked(s: System, e: Event, g: nat)
    requires Sound(s) && s.Up? && Blocked(s, g) && Possible(s, e)
    ensures Blocked(Next(s, e), g) && !Next(s, e).New?
  {
    hide Quiet, Load, Machine, OpState, OpActions, OpLog, CrashesTo, Run, Fits, InTheWay;
    InTheWayNow(s.d, g);
    BlockedActions(s, e.op);
    var actions := OpActions(s.d, s.st, e.op);
    if e.Done? {
      RunStaysInTheWay(s.d, actions, g);
    } else {
      RunStaysInTheWay(s.d, actions[..e.k], g);
      CrashStaysInTheWay(Run(s.d, actions[..e.k]), e.disk, g);
      CrashAtomic(s.d, s.st, s.log, e.op, e.k, e.disk);
    }
  }

  lemma {:induction false} StaysBlocked(s: System, events: seq<Event>, last: System, g: nat)
    requires Sound(s) && !s.New? && Blocked(s, g) && Follows(s, events, last)
    ensures Blocked(last, g) && !last.New?
    decreases |events|
  {
    hide Sound, Next, Blocked;
    if events != [] {
      assert s.Up? by { hide OpState, OpActions, Machine, CrashesTo, Run; }
      NextSound(s, events[0]);
      NextBlocked(s, events[0], g);
      StaysBlocked(Next(s, events[0]), events[1..], last, g);
    }
  }

  /**
    A crash between the creation of the next payload file and the switch leaves that file behind, and `create_new`
    then refuses every later compaction: no run of batches, attempted compactions, crashes and reopenings gets past it.
   */
  lemma CutCompactionBlocks(s: System, events: seq<Event>, last: System)
    requires Sound(s) && s.Up? && Data(s.st.generation + 1) in s.d.Dir() && Follows(s, events, last)
    ensures last.Up? ==> last.st.generation == s.st.generation && |last.d.dirs| > 0
                         && Data(last.st.generation + 1) in last.d.Dir() && !Succeeds(last.d, last.st, Compact)
  {
    hide Follows, Quiet, Machine, InTheWay;
    var g := s.st.generation;
    QuietInTheWay(s.d, s.st, s.log, g);
    StaysBlocked(s, events, last, g);
    if last.Up? {
      HasVersions(last.d, g);
      InTheWayNow(last.d, g);
    }
  }

  /** Such a crash can happen: the directory change may reach the disk before anything else of the compaction. */
  lemma CutCompactionLeaves(d: Disk, st: CowState, log: Log) returns (c: Disk)
    requires Quiet(d, st, log) && Machine(st)
    requires |d.dirs| > 0 && Data(st.generation) in d.Dir() && PayloadOf(d, st) in d.files
    requires Succeeds(d, st, Compact)
    ensures |OpActions(d, st, Compact)| > 1 && CrashesTo(Run(d, OpActions(d, st, Compact)[..1]), c)
    ensures c.Valid() && Data(st.generation + 1) in c.Dir()
    ensures Quiet(c, st, log) && Load(c) == Reopened(st)
  {
    hide Quiet, Load, Machine, Listed, Moved, IndexActions, MarkerActions, Appends, OpState;
    var e := Started(d, st);
    StartedIs(d, st);
    assert OpActions(d, st, Compact)[..1] == [Create(Data(st.generation + 1))];
    c := Disk(map inode | inode in e.files :: File(e.files[inode].Contents(), []), [e.Dir()], e.next);
    assert e.Dir() in e.dirs;
    assert CrashesTo(e, c) by {
      forall inode | inode in e.files ensures Cut(e.files[inode], c.files[inode]) {
        var f := e.files[inode];
        assert f.pending[..|f.pending|] == f.pending;
      }
    }
    StartedPublishes(d, st, log);
    AllIsSafe(e, st, log, st, log);
    SafeReopens(e, c, st, log, st, log);
  }

  /** Operations that run to their end, one after another. */
  ghost function Completed(s: System, ops: seq<Op>): System
    requires Ready(s) && Quiet(s.d, s.st, s.log)
    ensures Completed(s, ops).Up? && Ready(Completed(s, ops))
    ensures Quiet(Completed(s, ops).d, Completed(s, ops).st, Completed(s, ops).log)
  {
    if ops == [] then s
    else
      var t, op := Completed(s, ops[..|ops| - 1]), ops[|ops| - 1];
      CompletedStep(t, op);
      Up(Run(t.d, OpActions(t.d, t.st, op)), OpState(t.d, t.st, op), OpLog(t.d, t.st, t.log, op))
  }

  lemma CompletedStep(t: System, op: Op)
    requires Ready(t) && Quiet(t.d, t.st, t.log)
    ensures var u := Up(Run(t.d, OpActions(t.d, t.st, op)), OpState(t.d, t.st, op), OpLog(t.d, t.st, t.log, op));
            Ready(u) && Quiet(u.d, u.st, u.log)
  {
    hide Publishes, OpState, OpActions, OpLog, Run;
    OpSafe(t.d, t.st, t.log, op, 0);
    var d, st := Run(t.d, OpActions(t.d, t.st, op)), OpState(t.d, t.st, op);
    QuietFacts(d, st, OpLog(t.d, t.st, t.log, op));
  }

  lemma CompletedOne(s: System, op: Op)
    requires Ready(s) && Quiet(s.d, s.st, s.log)
    ensures Completed(s, [op])
         == Up(Run(s.d, OpActions(s.d, s.st, op)), OpState(s.d, s.st, op), OpLog(s.d, s.st, s.log, op))
  {
    hide Quiet, OpActions, OpState, OpLog, Run;
    assert [op][..0] == [];
    assert Completed(s, [op][..0]) == s;
  }

  predicate SparesPayloads(a: Action) {
    !a.Remove? && (a.Rename? ==> !a.from.Data?)
  }
}

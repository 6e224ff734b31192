/**
  The sidecar protocol: one cached file, its sidecar, and any number of openers, renewers and publishers stepping in any
  order beside external maintenance, cancelled tasks whose renames land late, and sweeps. A sidecar that matches an open
  file's stamp carries that file's digest, so no answer pairs one generation's bytes with another's tag.

  What is assumed of the file system is that a stamp names one generation: no two files with different bytes ever show
  the same stamp (`Identified`), and bytes do not change in place.
 */
module Sidecar {
  import opened Results
  import opened Bytes
  import opened SidecarCodec

  /** A file: the stamp it shows, which a renewal moves, and the digest of its bytes, which nothing changes. */
  datatype Node = Node(stamp: Stamp, tag: Tag)

  datatype JsonFile = JsonFile(gen: nat, stamp: Stamp, tag: Tag)

  /** Bytes to be put under the name: their digest and their length. */
  datatype Body = Body(tag: Tag, len: nat)

  /** Where a task is between two of its awaits. */
  datatype Phase =
    // opening
    | Opened(gen: nat, stamp: Stamp)
    | OpenWaiting
    | OpenLocked
    | Reopened(gen: nat, stamp: Stamp)
    | Hashing(gen: nat, stamp: Stamp)
    | Hashed(file: JsonFile)
    // renewing
    | RenewWaiting(file: JsonFile)
    | Renewing(file: JsonFile)
    | Compared(file: JsonFile, same: bool)
    | Moved(file: JsonFile, same: bool)
    | Restamped(file: JsonFile, same: bool)
    // publishing
    | PublishWaiting(tag: Tag, len: nat)
    | Publishing(tag: Tag, len: nat)
    | Written(tag: Tag, len: nat)
    // writing the sidecar
    | Recording(result: Option<JsonFile>, bytes: seq<byte>)
    | Renaming(result: Option<JsonFile>, bytes: seq<byte>)
    // done
    | Served(file: JsonFile)
    | Ended

  predicate HoldsLock(p: Phase) {
    p.OpenLocked? || p.Reopened? || p.Hashing? || p.Hashed? || p.Renewing? || p.Compared? || p.Moved? || p.Restamped?
    || p.Publishing? || p.Written? || p.Recording? || p.Renaming?
  }

  datatype State = State(
    nodes: map<nat, Node>,        // every file there has been
    seen: map<Stamp, Tag>,        // every stamp a file has shown
    path: Option<nat>,            // the file under the cached name
    sidecar: Option<seq<byte>>,
    temps: set<seq<byte>>,        // sidecar bytes written to temporary names
    late: multiset<Body>,         // bodies whose publishers were dropped while writing them
    lock: Option<nat>,
    tasks: map<nat, Phase>)

  const INITIAL := State(map[], map[], None, None, {}, multiset{}, None, map[])

  datatype Event =
    // a task's own steps
    | BeginOpen(task: nat)
    | ReadSidecar(task: nat)
    | Lock(task: nat)
    | Reopen(task: nat)
    | Hash(task: nat)
    | Compare(task: nat)
    | BeginRenew(task: nat)
    | Move(task: nat, seconds: u64, nanos: u32)
    | Restamp(task: nat)
    | GiveUp(task: nat)
    | BeginPublish(task: nat, tag: Tag, len: nat)
    | Put(task: nat, gen: nat)
    | Backdate(task: nat, seconds: u64, nanos: u32)
    | Undo(task: nat)
    | StampPath(task: nat)
    | WriteTemp(task: nat)
    | Rename(task: nat)
    | Cancel(task: nat)
    | Abandon(task: nat)
    // everything else
    | LatePut(body: Body, gen: nat)
    | LateRename(bytes: seq<byte>)
    | Sweep
    | Create(gen: nat, node: Node)
    | Touch(gen: nat, seconds: u64, nanos: u32)
    | Replace(gen: nat)
    | Unlink

  // ---- the steps

  /** A task's next phase. The lock is a task's own exactly while its phase holds it. */
  function Settle(s: State, t: nat, p: Phase): State {
    s.(tasks := s.tasks[t := p],
       lock := if HoldsLock(p) then Some(t) else if s.lock == Some(t) then None else s.lock)
  }

  function Finish(result: Option<JsonFile>): Phase {
    if result.Some? then Served(result.value) else Ended
  }

  function At(stamp: Stamp, seconds: u64, nanos: u32): Stamp {
    stamp.(seconds := seconds, nanos := nanos)
  }

  /** A task that is no longer polled: its lock is free at once, but a blocking write it started runs to its end. */
  function Dropped(s: State, t: nat): State {
    s.(tasks := s.tasks - {t}, lock := if s.lock == Some(t) then None else s.lock)
  }

  /** Setting a file's modification time. */
  function Timed(s: State, g: nat, seconds: u64, nanos: u32): State
    requires g in s.nodes
  {
    var stamp := At(s.nodes[g].stamp, seconds, nanos);
    s.(nodes := s.nodes[g := s.nodes[g].(stamp := stamp)], seen := s.seen[stamp := s.nodes[g].tag])
  }

  /** The stamp may be shown by a file with these bytes: no file with other bytes has shown it. */
  predicate Identified(s: State, stamp: Stamp, tag: Tag) {
    stamp in s.seen ==> s.seen[stamp] == tag
  }

  predicate MayTime(s: State, g: nat, seconds: u64, nanos: u32) {
    g in s.nodes && Identified(s, At(s.nodes[g].stamp, seconds, nanos), s.nodes[g].tag)
  }

  predicate PathShows(s: State, stamp: Stamp) {
    s.path.Some? && s.path.value in s.nodes && s.nodes[s.path.value].stamp == stamp
  }

  function SidecarFor(s: State, stamp: Stamp): Option<Tag> {
    if s.sidecar.None? then None else Read(s.sidecar.value, stamp)
  }

  predicate PathThere(s: State) {
    s.path.Some? && s.path.value in s.nodes
  }

  predicate Enabled(s: State, e: Event) {
    match e
    case BeginOpen(t) => t !in s.tasks && PathThere(s)
    case ReadSidecar(t) => t in s.tasks && (s.tasks[t].Opened? || s.tasks[t].Reopened?)
    case Lock(t) =>
      s.lock.None? && t in s.tasks
      && (s.tasks[t].OpenWaiting? || s.tasks[t].RenewWaiting? || s.tasks[t].PublishWaiting?)
    case Reopen(t) => t in s.tasks && s.tasks[t].OpenLocked?
    case Hash(t) => t in s.tasks && s.tasks[t].Hashing? && s.tasks[t].gen in s.nodes
    case Compare(t) => t in s.tasks && (s.tasks[t].Hashed? || s.tasks[t].Renewing? || s.tasks[t].Restamped?)
    case BeginRenew(t) => t in s.tasks && s.tasks[t].Served?
    case Move(t, seconds, nanos) =>
      t in s.tasks && s.tasks[t].Compared? && MayTime(s, s.tasks[t].file.gen, seconds, nanos)
    case Restamp(t) => t in s.tasks && s.tasks[t].Moved? && s.tasks[t].file.gen in s.nodes
    case GiveUp(t) =>
      t in s.tasks
      && (s.tasks[t].Compared? || s.tasks[t].Moved? || s.tasks[t].Publishing? || s.tasks[t].Recording?
          || s.tasks[t].Renaming?)
    case BeginPublish(t, _, _) => t !in s.tasks
    case Put(t, g) =>
      && t in s.tasks && s.tasks[t].Publishing?
      && g in s.nodes && s.nodes[g].tag == s.tasks[t].tag && s.nodes[g].stamp.len == s.tasks[t].len
    case Backdate(t, seconds, nanos) =>
      t in s.tasks && s.tasks[t].Written? && PathThere(s) && MayTime(s, s.path.value, seconds, nanos)
    case Undo(t) => t in s.tasks && s.tasks[t].Written?
    case StampPath(t) => t in s.tasks && s.tasks[t].Written?
    case WriteTemp(t) => t in s.tasks && s.tasks[t].Recording?
    case Rename(t) => t in s.tasks && s.tasks[t].Renaming?
    case Cancel(t) => t in s.tasks
    case Abandon(t) => t in s.tasks && s.tasks[t].Publishing?
    case LatePut(body, g) =>
      body in s.late && g in s.nodes && s.nodes[g].tag == body.tag && s.nodes[g].stamp.len == body.len
    case LateRename(bytes) => bytes in s.temps
    case Sweep => true
    case Create(g, node) => g !in s.nodes && Identified(s, node.stamp, node.tag)
    case Touch(g, seconds, nanos) => MayTime(s, g, seconds, nanos)
    case Replace(g) => g in s.nodes
    case Unlink => true
  }

  /** The steps that change nothing but their task's phase. */
  predicate OnlyPhase(e: Event) {
    e.BeginOpen? || e.ReadSidecar? || e.Lock? || e.Reopen? || e.Hash? || e.Compare? || e.BeginRenew? || e.Restamp?
    || e.GiveUp? || e.BeginPublish? || e.StampPath?
  }

  /** The phase such a step leads to. */
  function NextPhase(s: State, e: Event): Phase
    requires Enabled(s, e)
    requires OnlyPhase(e)
  {
    match e
    case BeginOpen(t) => Opened(s.path.value, s.nodes[s.path.value].stamp)
    case ReadSidecar(t) =>
      var p := s.tasks[t];
      (match SidecarFor(s, p.stamp)
       case Some(tag) => Served(JsonFile(p.gen, p.stamp, tag))
       case None => if p.Opened? then OpenWaiting else Hashing(p.gen, p.stamp))
    case Lock(t) =>
      (match s.tasks[t]
       case RenewWaiting(file) => Renewing(file)
       case PublishWaiting(tag, len) => Publishing(tag, len)
       case _ => OpenLocked)
    case Reopen(t) =>
      if PathThere(s) then Reopened(s.path.value, s.nodes[s.path.value].stamp) else Ended
    case Hash(t) => Hashed(JsonFile(s.tasks[t].gen, s.tasks[t].stamp, s.nodes[s.tasks[t].gen].tag))
    case Compare(t) =>
      var p := s.tasks[t];
      var shown := PathShows(s, p.file.stamp);
      (match p
       case Renewing(file) => Compared(file, shown)
       case Restamped(file, same) =>
         if same && shown then Recording(Some(file), Encoded(file.stamp, file.tag)) else Served(file)
       case _ => if shown then Recording(Some(p.file), Encoded(p.file.stamp, p.file.tag)) else Served(p.file))
    case BeginRenew(t) => RenewWaiting(s.tasks[t].file)
    case Restamp(t) =>
      var p := s.tasks[t];
      Restamped(p.file.(stamp := s.nodes[p.file.gen].stamp), p.same)
    case GiveUp(t) =>
      (match s.tasks[t]
       case Compared(file, _) => Served(file)
       case Moved(file, _) => Served(file)
       case Recording(result, _) => Finish(result)
       case Renaming(result, _) => Finish(result)
       case _ => Ended)
    case BeginPublish(t, tag, len) => PublishWaiting(tag, len)
    case StampPath(t) =>
      if PathThere(s) && s.nodes[s.path.value].stamp.len <= s.tasks[t].len
      then Recording(None, Encoded(s.nodes[s.path.value].stamp, s.tasks[t].tag))
      else Ended
  }

  function Next(s: State, e: Event): State
    requires Enabled(s, e)
  {
    match e
    case Move(t, seconds, nanos) =>
      Settle(Timed(s, s.tasks[t].file.gen, seconds, nanos), t, Phase.Moved(s.tasks[t].file, s.tasks[t].same))
    case Put(t, g) => Settle(s.(path := Some(g)), t, Written(s.tasks[t].tag, s.tasks[t].len))
    case Backdate(t, seconds, nanos) => Timed(s, s.path.value, seconds, nanos)
    case Undo(t) => Settle(s.(path := None), t, Ended)
    case WriteTemp(t) =>
      var p := s.tasks[t];
      Settle(s.(temps := s.temps + {p.bytes}), t, Renaming(p.result, p.bytes))
    case Rename(t) => Settle(s.(sidecar := Some(s.tasks[t].bytes)), t, Finish(s.tasks[t].result))
    case Cancel(t) => Dropped(s, t)
    case Abandon(t) => Dropped(s, t).(late := s.late + multiset{Body(s.tasks[t].tag, s.tasks[t].len)})
    case LatePut(body, g) => s.(path := Some(g), late := s.late - multiset{body})
    case LateRename(bytes) => s.(sidecar := Some(bytes))
    case Sweep => s.(sidecar := None)
    case Create(g, node) => s.(nodes := s.nodes[g := node], seen := s.seen[node.stamp := node.tag])
    case Touch(g, seconds, nanos) => Timed(s, g, seconds, nanos)
    case Replace(g) => s.(path := Some(g))
    case Unlink => s.(path := None)
    case _ => Settle(s, e.task, NextPhase(s, e))
  }

  // ---- what every step keeps

  predicate Known(seen: map<Stamp, Tag>, stamp: Stamp, tag: Tag) {
    stamp in seen && seen[stamp] == tag
  }

  /** Whatever stamp the bytes are read for, they give the digest of the file that showed it. */
  ghost predicate Good(seen: map<Stamp, Tag>, bytes: seq<byte>) {
    forall stamp :: Read(bytes, stamp).Some? ==> Known(seen, stamp, Read(bytes, stamp).value)
  }

  predicate NodesKnown(s: State) {
    forall g :: g in s.nodes ==> Known(s.seen, s.nodes[g].stamp, s.nodes[g].tag)
  }

  ghost predicate RecordsGood(s: State) {
    && (s.sidecar.Some? ==> Good(s.seen, s.sidecar.value))
    && (forall bytes :: bytes in s.temps ==> Good(s.seen, bytes))
  }

  predicate FileGood(s: State, file: JsonFile) {
    file.gen in s.nodes && file.tag == s.nodes[file.gen].tag && Known(s.seen, file.stamp, file.tag)
  }

  predicate HandleGood(s: State, g: nat, stamp: Stamp) {
    g in s.nodes && Known(s.seen, stamp, s.nodes[g].tag)
  }

  ghost predicate PhaseGood(s: State, p: Phase) {
    match p
    case Opened(g, stamp) => HandleGood(s, g, stamp)
    case Reopened(g, stamp) => HandleGood(s, g, stamp)
    case Hashing(g, stamp) => HandleGood(s, g, stamp)
    case Hashed(file) => FileGood(s, file)
    case RenewWaiting(file) => FileGood(s, file)
    case Renewing(file) => FileGood(s, file)
    case Compared(file, _) => FileGood(s, file)
    case Moved(file, _) => FileGood(s, file)
    case Restamped(file, _) => FileGood(s, file)
    case Served(file) => FileGood(s, file)
    case Recording(result, bytes) => (result.Some? ==> FileGood(s, result.value)) && Good(s.seen, bytes)
    case Renaming(result, bytes) => (result.Some? ==> FileGood(s, result.value)) && Good(s.seen, bytes)
    case _ => true
  }

  ghost predicate TasksGood(s: State) {
    forall t :: t in s.tasks ==> PhaseGood(s, s.tasks[t])
  }

  predicate LockOwned(s: State) {
    && (forall t :: t in s.tasks && HoldsLock(s.tasks[t]) ==> s.lock == Some(t))
    && (s.lock.Some? ==> s.lock.value in s.tasks && HoldsLock(s.tasks[s.lock.value]))
  }

  predicate PathKnown(s: State) {
    s.path.Some? ==> s.path.value in s.nodes
  }

  /** The publisher would not record its digest for this file: it is its own bytes, or is refused as too long. */
  predicate Spares(s: State, g: nat, p: Phase)
    requires p.Written?
  {
    g in s.nodes ==> s.nodes[g].tag == p.tag || s.nodes[g].stamp.len > p.len
  }

  /** A publisher that has put its body in place finds that body under the name, or nothing it would record. */
  predicate PublisherSees(s: State) {
    forall t :: t in s.tasks && s.tasks[t].Written? && s.path.Some? ==> Spares(s, s.path.value, s.tasks[t])
  }

  ghost predicate Inv(s: State) {
    NodesKnown(s) && RecordsGood(s) && TasksGood(s) && LockOwned(s) && PathKnown(s) && PublisherSees(s)
  }

  /**
    A file is put under the name by anyone but the publisher,
        by maintenance or by a dropped publisher's write that lands
    late, only where no publisher between putting its body and reading the stamp would record its own digest for it.
   */
  predicate Careful(s: State, e: Event) {
    e.Replace? || e.LatePut? ==> forall t :: t in s.tasks && s.tasks[t].Written? ==> Spares(s, e.gen, s.tasks[t])
  }

  // ---- one step

  /** No file is forgotten, no digest changes, and no stamp loses its file. */
  predicate Grows(s: State, s': State) {
    && (forall g :: g in s.nodes ==>
          g in s'.nodes && s'.nodes[g].tag == s.nodes[g].tag && s'.nodes[g].stamp.len == s.nodes[g].stamp.len)
    && (forall stamp :: stamp in s.seen ==> stamp in s'.seen && s'.seen[stamp] == s.seen[stamp])
  }

  lemma PhaseGrows(s: State, s': State, p: Phase)
    requires Grows(s, s') && PhaseGood(s, p)
    ensures PhaseGood(s', p)
  {
    hide Read;
  }

  lemma DiskGrows(s: State, s': State)
    requires Inv(s) && Grows(s, s') && NodesKnown(s')
    requires s' == s.(nodes := s'.nodes, seen := s'.seen)
    ensures Inv(s')
  {
    hide Read, PhaseGood;
    forall t | t in s'.tasks ensures PhaseGood(s', s'.tasks[t]) { PhaseGrows(s, s', s.tasks[t]); }
  }

  lemma TimedInv(s: State, g: nat, seconds: u64, nanos: u32)
    requires Inv(s) && MayTime(s, g, seconds, nanos)
    ensures Inv(Timed(s, g, seconds, nanos)) && Grows(s, Timed(s, g, seconds, nanos))
  {
    hide RecordsGood, TasksGood, LockOwned, PublisherSees;
    DiskGrows(s, Timed(s, g, seconds, nanos));
  }

  lemma CreateInv(s: State, g: nat, node: Node)
    requires Inv(s) && Enabled(s, Create(g, node))
    ensures Inv(Next(s, Create(g, node)))
  {
    hide RecordsGood, TasksGood, LockOwned, PublisherSees;
    DiskGrows(s, Next(s, Create(g, node)));
  }

  lemma SettleInv(s: State, t: nat, p: Phase)
    requires Inv(s) && PhaseGood(s, p)
    requires HoldsLock(p) ==> s.lock.None? || s.lock == Some(t)
    requires p.Written? && s.path.Some? ==> Spares(s, s.path.value, p)
    ensures Inv(Settle(s, t, p))
  {
    hide Read, Good, RecordsGood;
    var s' := Settle(s, t, p);
    assert Grows(s, s');
    forall u | u in s'.tasks ensures PhaseGood(s', s'.tasks[u]) {
      PhaseGrows(s, s', s'.tasks[u]);
    }
    RecordsFrame(s, s');
  }

  lemma EncodedGood(seen: map<Stamp, Tag>, stamp: Stamp, tag: Tag)
    ensures Good(seen, Encoded(stamp, tag)) <==> Known(seen, stamp, tag)
  {
    hide Read, Encoded;
    forall other ensures Read(Encoded(stamp, tag), other) == if stamp == other then Some(tag) else None {
      RoundTrip(stamp, tag, other);
    }
    assert Read(Encoded(stamp, tag), stamp) == Some(tag);
  }

  lemma OpenerPhaseGood(s: State, e: Event)
    requires Inv(s) && Enabled(s, e) && (e.BeginOpen? || e.ReadSidecar? || e.Lock? || e.Reopen? || e.Hash?)
    ensures PhaseGood(s, NextPhase(s, e))
  {
    hide Read, LockOwned, PublisherSees;
    if !e.BeginOpen? { assert PhaseGood(s, s.tasks[e.task]); }
  }

  lemma RenewerPhaseGood(s: State, e: Event)
    requires Inv(s) && Enabled(s, e)
    requires e.Compare? || e.BeginRenew? || e.Restamp? || e.GiveUp? || e.BeginPublish?
    ensures PhaseGood(s, NextPhase(s, e))
  {
    hide Read, Good, Encoded, LockOwned, PublisherSees, RecordsGood;
    if !e.BeginPublish? { assert PhaseGood(s, s.tasks[e.task]); }
    if e.Compare? {
      var file := s.tasks[e.task].file;
      EncodedGood(s.seen, file.stamp, file.tag);
    }
  }

  lemma StampPathGood(s: State, t: nat)
    requires Inv(s) && Enabled(s, StampPath(t))
    ensures PhaseGood(s, NextPhase(s, StampPath(t)))
  {
    hide Read, Good, Encoded, LockOwned, RecordsGood, TasksGood;
    if PathThere(s) { EncodedGood(s.seen, s.nodes[s.path.value].stamp, s.tasks[t].tag); }
  }

  lemma PhaseInv(s: State, e: Event)
    requires Inv(s) && Enabled(s, e) && OnlyPhase(e)
    ensures Inv(Next(s, e))
  {
    var p := NextPhase(s, e);
    assert HoldsLock(p) ==> s.lock.None? || s.lock == Some(e.task) by { PhaseLocks(s, e); }
    assert !p.Written?;
    assert PhaseGood(s, p) by {
      if e.StampPath? { StampPathGood(s, e.task); }
      else if e.Compare? || e.BeginRenew? || e.Restamp? || e.GiveUp? || e.BeginPublish? { RenewerPhaseGood(s, e); }
      else { OpenerPhaseGood(s, e); }
    }
    assert Next(s, e) == Settle(s, e.task, p);
    hide *;
    SettleInv(s, e.task, p);
  }

  lemma PhaseLocks(s: State, e: Event)
    requires LockOwned(s) && Enabled(s, e) && OnlyPhase(e)
    ensures HoldsLock(NextPhase(s, e)) ==> s.lock.None? || s.lock == Some(e.task)
    ensures !NextPhase(s, e).Written?
  {
    hide Read, Encoded;
  }

  /** Every careful step keeps the invariant. */
  lemma StepInv(s: State, e: Event)
    requires Inv(s) && Enabled(s, e) && Careful(s, e)
    ensures Inv(Next(s, e))
  {
    hide NodesKnown, RecordsGood, TasksGood, PathKnown;
    match e {
      case Move(_, _, _) => MoveInv(s, e);
      case Backdate(_, seconds, nanos) => TimedInv(s, s.path.value, seconds, nanos);
      case Touch(g, seconds, nanos) => TimedInv(s, g, seconds, nanos);
      case Create(g, node) => CreateInv(s, g, node);
      case Put(_, _) => PathInv(s, e);
      case Undo(_) => PathInv(s, e);
      case Replace(_) => PathInv(s, e);
      case LatePut(_, _) => PathInv(s, e);
      case Unlink => PathInv(s, e);
      case WriteTemp(_) => RecordInv(s, e);
      case Rename(_) => RecordInv(s, e);
      case LateRename(_) => RecordInv(s, e);
      case Sweep => RecordInv(s, e);
      case Cancel(t) => DroppedInv(s, t, s.late);
      case Abandon(t) => DroppedInv(s, t, Next(s, e).late);
      case _ => PhaseInv(s, e);
    }
  }

  lemma MoveInv(s: State, e: Event)
    requires Inv(s) && e.Move? && Enabled(s, e)
    ensures Inv(Next(s, e))
  {
    hide RecordsGood, NodesKnown, PublisherSees, PathKnown;
    var p := s.tasks[e.task];
    assert PhaseGood(s, p);
    TimedInv(s, p.file.gen, e.seconds, e.nanos);
    var s1 := Timed(s, p.file.gen, e.seconds, e.nanos);
    assert PhaseGood(s1, Phase.Moved(p.file, p.same));
    SettleInv(s1, e.task, Phase.Moved(p.file, p.same));
  }

  lemma NamedInv(s: State, path: Option<nat>, late: multiset<Body>)
    requires Inv(s) && (path.Some? ==> path.value in s.nodes)
    requires path.Some? ==> forall t :: t in s.tasks && s.tasks[t].Written? ==> Spares(s, path.value, s.tasks[t])
    ensures Inv(s.(path := path, late := late))
  {
    hide RecordsGood, NodesKnown, Good, Read;
    var s' := s.(path := path, late := late);
    assert Grows(s, s');
    forall t | t in s'.tasks ensures PhaseGood(s', s'.tasks[t]) { PhaseGrows(s, s', s'.tasks[t]); }
    RecordsFrame(s, s');
    NodesFrame(s, s');
  }

  /** What is under the name changes only to what every publisher spares, or by the publisher itself. */
  lemma PathInv(s: State, e: Event)
    requires Inv(s) && Enabled(s, e) && Careful(s, e)
    requires e.Put? || e.Undo? || e.Replace? || e.LatePut? || e.Unlink?
    ensures Inv(Next(s, e))
  {
    hide Inv, Spares;
    if e.Put? {
      PutInv(s, e);
    } else if e.Replace? || e.LatePut? {
      NamedInv(s, Some(e.gen), Next(s, e).late);
    } else {
      NamedInv(s, None, s.late);
      if e.Undo? { SettleInv(s.(path := None), e.task, Ended); }
    }
  }

  lemma RecordsFrame(s: State, s': State)
    requires RecordsGood(s) && s'.sidecar == s.sidecar && s'.temps == s.temps && s'.seen == s.seen
    ensures RecordsGood(s')
  {
  }

  lemma NodesFrame(s: State, s': State)
    requires NodesKnown(s) && s'.nodes == s.nodes && s'.seen == s.seen
    ensures NodesKnown(s')
  {
  }

  lemma PutInv(s: State, e: Event)
    requires Inv(s) && e.Put? && Enabled(s, e)
    ensures Inv(Next(s, e))
  {
    hide RecordsGood, NodesKnown, Good, Read;
    var s' := Next(s, e);
    assert s.lock == Some(e.task);
    assert Grows(s, s');
    forall t | t in s'.tasks ensures PhaseGood(s', s'.tasks[t]) {
      if t != e.task { PhaseGrows(s, s', s.tasks[t]); }
    }
    assert forall t :: t in s'.tasks && s'.tasks[t].Written? ==> t == e.task;
    RecordsFrame(s, s');
    NodesFrame(s, s');
  }

  lemma RecordedInv(s: State, sidecar: Option<seq<byte>>, temps: set<seq<byte>>)
    requires Inv(s) && RecordsGood(s.(sidecar := sidecar, temps := temps))
    ensures Inv(s.(sidecar := sidecar, temps := temps))
  {
    hide Good, NodesKnown, Read, RecordsGood;
    var s' := s.(sidecar := sidecar, temps := temps);
    assert Grows(s, s');
    forall t | t in s'.tasks ensures PhaseGood(s', s'.tasks[t]) { PhaseGrows(s, s', s'.tasks[t]); }
    NodesFrame(s, s');
  }

  lemma RecordInv(s: State, e: Event)
    requires Inv(s) && Enabled(s, e) && (e.WriteTemp? || e.Rename? || e.LateRename? || e.Sweep?)
    ensures Inv(Next(s, e))
  {
    hide Good, NodesKnown, Read, PublisherSees;
    if e.WriteTemp? {
      var p := s.tasks[e.task];
      assert PhaseGood(s, p);
      RecordedInv(s, s.sidecar, s.temps + {p.bytes});
      var s1 := s.(temps := s.temps + {p.bytes});
      assert PhaseGood(s1, Renaming(p.result, p.bytes)) by { assert PhaseGood(s1, p); }
      SettleInv(s1, e.task, Renaming(p.result, p.bytes));
    } else if e.Rename? {
      var p := s.tasks[e.task];
      assert PhaseGood(s, p);
      RecordedInv(s, Some(p.bytes), s.temps);
      var s1 := s.(sidecar := Some(p.bytes));
      assert PhaseGood(s1, Finish(p.result)) by { assert PhaseGood(s1, p); }
      SettleInv(s1, e.task, Finish(p.result));
    } else {
      RecordedInv(s, if e.Sweep? then None else Some(e.bytes), s.temps);
    }
  }

  lemma DroppedInv(s: State, t: nat, late: multiset<Body>)
    requires Inv(s) && t in s.tasks
    ensures Inv(Dropped(s, t).(late := late))
  {
    hide Good, Read;
    var s' := Dropped(s, t).(late := late);
    assert Grows(s, s');
    forall u | u in s'.tasks ensures PhaseGood(s', s'.tasks[u]) { PhaseGrows(s, s', s.tasks[u]); }
    RecordsFrame(s, s');
    NodesFrame(s, s');
  }

  // ---- whole runs

  predicate Runs(s: State, es: seq<Event>)
    decreases es
  {
    es == [] || (Enabled(s, es[0]) && Runs(Next(s, es[0]), es[1..]))
  }

  function After(s: State, es: seq<Event>): State
    requires Runs(s, es)
    decreases es
  {
    if es == [] then s else After(Next(s, es[0]), es[1..])
  }

  predicate AllCareful(s: State, es: seq<Event>)
    requires Runs(s, es)
    decreases es
  {
    es == [] || (Careful(s, es[0]) && AllCareful(Next(s, es[0]), es[1..]))
  }

  lemma {:induction false} RunInv(s: State, es: seq<Event>)
    requires Inv(s) && Runs(s, es) && AllCareful(s, es)
    ensures Inv(After(s, es))
    decreases es
  {
    hide Inv, Enabled, Next, Careful;
    if es != [] {
      StepInv(s, es[0]);
      RunInv(Next(s, es[0]), es[1..]);
    }
  }

  lemma InitialInv()
    ensures Inv(INITIAL)
  {
  }

  /**
    Whatever the interleaving, an answer's tag is the digest of the very file it holds open, and a sidecar that matches
    a file's stamp carries that file's digest.
   */
  lemma TagsAreTheirFiles(es: seq<Event>, t: nat, g: nat)
    requires Runs(INITIAL, es) && AllCareful(INITIAL, es)
    ensures var s := After(INITIAL, es);
            && (t in s.tasks && s.tasks[t].Served? ==> FileGood(s, s.tasks[t].file))
            && (g in s.nodes && SidecarFor(s, s.nodes[g].stamp).Some?
                ==> SidecarFor(s, s.nodes[g].stamp) == Some(s.nodes[g].tag))
  {
    hide Runs, AllCareful, After, Read;
    InitialInv();
    RunInv(INITIAL, es);
    var s := After(INITIAL, es);
    if t in s.tasks { assert PhaseGood(s, s.tasks[t]); }
  }

  // ---- the publisher's critical section

  /** What a publisher records is right exactly when the file it stamps holds the bytes it wrote. */
  lemma StampedRight(s: State, t: nat)
    requires NodesKnown(s) && PathThere(s) && t in s.tasks && s.tasks[t].Written?
    requires s.nodes[s.path.value].stamp.len <= s.tasks[t].len
    ensures NextPhase(s, StampPath(t)).Recording?
    ensures Good(s.seen, NextPhase(s, StampPath(t)).bytes) <==> s.nodes[s.path.value].tag == s.tasks[t].tag
  {
    hide Good, Encoded, Read;
    EncodedGood(s.seen, s.nodes[s.path.value].stamp, s.tasks[t].tag);
  }

  lemma {:induction false} Extend(s: State, es: seq<Event>, e: Event)
    requires Runs(s, es) && Enabled(After(s, es), e)
    ensures Runs(s, es + [e]) && After(s, es + [e]) == Next(After(s, es), e)
    decreases es
  {
    hide Enabled, Next;
    if es == [] {
      assert (es + [e])[1..] == [];
    } else {
      Extend(Next(s, es[0]), es[1..], e);
      assert (es + [e])[1..] == es[1..] + [e];
    }
  }

  /** What follows when a file is put under the name against that care: the publisher records, and an opener reads. */
  function Aftermath(t: nat, u: nat): seq<Event> {
    [] + [StampPath(t)] + [WriteTemp(t)] + [Rename(t)] + [BeginOpen(u)] + [ReadSidecar(u)]
  }

  /** A publisher about to stamp a file with other bytes, that it would not refuse as too long. */
  predicate AboutToMislabel(s: State, t: nat, g: nat) {
    s.path == Some(g) && g in s.nodes && t in s.tasks && s.tasks[t].Written? && !Spares(s, g, s.tasks[t])
  }

  lemma Stamped(s: State, t: nat, g: nat)
    requires AboutToMislabel(s, t, g)
    ensures Enabled(s, StampPath(t))
    ensures Next(s, StampPath(t)) == Settle(s, t, Recording(None, Encoded(s.nodes[g].stamp, s.tasks[t].tag)))
  {
    hide Encoded;
  }

  lemma TempWritten(s: State, t: nat, bytes: seq<byte>)
    requires t in s.tasks && s.tasks[t] == Recording(None, bytes)
    ensures Enabled(s, WriteTemp(t))
    ensures Next(s, WriteTemp(t)) == Settle(s.(temps := s.temps + {bytes}), t, Renaming(None, bytes))
  {
  }

  lemma Renamed(s: State, t: nat, bytes: seq<byte>)
    requires t in s.tasks && s.tasks[t] == Renaming(None, bytes)
    ensures Enabled(s, Rename(t)) && Next(s, Rename(t)) == Settle(s.(sidecar := Some(bytes)), t, Ended)
  {
  }

  lemma Recorded(s: State, t: nat, g: nat)
    requires AboutToMislabel(s, t, g)
    ensures var es := [] + [StampPath(t)] + [WriteTemp(t)] + [Rename(t)];
            Runs(s, es)
            && After(s, es).path == Some(g) && After(s, es).nodes == s.nodes && After(s, es).tasks.Keys == s.tasks.Keys
            && After(s, es).sidecar == Some(Encoded(s.nodes[g].stamp, s.tasks[t].tag))
  {
    hide Runs, After, Encoded, Enabled, Next, NextPhase;
    var bytes := Encoded(s.nodes[g].stamp, s.tasks[t].tag);
    EmptyRun(s);
    Stamped(s, t, g);
    Extend(s, [], StampPath(t));
    var es1 := [] + [StampPath(t)];
    TempWritten(After(s, es1), t, bytes);
    Extend(s, es1, WriteTemp(t));
    var es2 := es1 + [WriteTemp(t)];
    Renamed(After(s, es2), t, bytes);
    Extend(s, es2, Rename(t));
  }

  /** The opener is answered with that file's bytes under the publisher's tag. */
  lemma Mislabelled(s: State, t: nat, g: nat, u: nat)
    requires AboutToMislabel(s, t, g) && u !in s.tasks
    ensures Runs(s, Aftermath(t, u))
    ensures var s' := After(s, Aftermath(t, u));
            && u in s'.tasks && s'.tasks[u] == Served(JsonFile(g, s.nodes[g].stamp, s.tasks[t].tag))
            && s'.nodes == s.nodes && s'.nodes[g].tag != s.tasks[t].tag
  {
    hide Runs, After, Read, Encoded;
    Recorded(s, t, g);
    RoundTrip(s.nodes[g].stamp, s.tasks[t].tag, s.nodes[g].stamp);
    var es := [] + [StampPath(t)] + [WriteTemp(t)] + [Rename(t)];
    Extend(s, es, BeginOpen(u));
    Extend(s, es + [BeginOpen(u)], ReadSidecar(u));
  }

  lemma {:induction false} Then(s: State, es: seq<Event>, more: seq<Event>)
    requires Runs(s, es) && Runs(After(s, es), more)
    ensures Runs(s, es + more) && After(s, es + more) == After(After(s, es), more)
    decreases es
  {
    hide Enabled, Next;
    if es == [] {
      assert es + more == more;
    } else {
      Then(Next(s, es[0]), es[1..], more);
      assert (es + more)[1..] == es[1..] + more;
    }
  }

  /**
    So the care is needed at every step: from any step without it, an answer pairs one file's bytes with another's tag.
   */
  lemma NotCarefulMisleads(s: State, e: Event, u: nat) returns (t: nat)
    requires Enabled(s, e) && !Careful(s, e) && u !in s.tasks
    ensures Runs(s, [e] + Aftermath(t, u))
    ensures var s' := After(s, [e] + Aftermath(t, u));
            && u in s'.tasks && s'.tasks[u].Served? && s'.tasks[u].file.gen == e.gen
            && e.gen in s'.nodes && s'.nodes[e.gen].tag != s'.tasks[u].file.tag
  {
    hide Runs, After, Aftermath;
    t :| t in s.tasks && s.tasks[t].Written? && !Spares(s, e.gen, s.tasks[t]);
    var s1 := Next(s, e);
    Mislabelled(s1, t, e.gen, u);
    EmptyRun(s);
    Extend(s, [], e);
    assert [] + [e] == [e];
    Then(s, [e], Aftermath(t, u));
  }

  /** Two files, neither under the name yet. */
  function Prepared(a: Node, b: Node): seq<Event> {
    [] + [Create(0, a)] + [Create(1, b)]
  }

  function PreparedState(a: Node, b: Node): State {
    INITIAL.(nodes := map[0 := a, 1 := b], seen := map[a.stamp := a.tag, b.stamp := b.tag])
  }

  lemma PreparedRuns(a: Node, b: Node)
    requires a.stamp != b.stamp
    ensures Runs(INITIAL, Prepared(a, b)) && After(INITIAL, Prepared(a, b)) == PreparedState(a, b)
  {
    hide Runs, After;
    EmptyRun(INITIAL);
    Extend(INITIAL, [], Create(0, a));
    Extend(INITIAL, [] + [Create(0, a)], Create(1, b));
  }

  /** A publisher has just put file 0 in place. */
  function Published(a: Node, b: Node): seq<Event> {
    Prepared(a, b) + [BeginPublish(2, a.tag, a.stamp.len)] + [Lock(2)] + [Put(2, 0)]
  }

  function PublishedState(a: Node, b: Node): State {
    PreparedState(a, b).(path := Some(0), lock := Some(2), tasks := map[2 := Written(a.tag, a.stamp.len)])
  }

  lemma PublishedRuns(a: Node, b: Node)
    requires a.stamp != b.stamp
    ensures Runs(INITIAL, Published(a, b)) && After(INITIAL, Published(a, b)) == PublishedState(a, b)
  {
    hide Runs, After, Prepared;
    PreparedRuns(a, b);
    var es := Prepared(a, b);
    Extend(INITIAL, es, BeginPublish(2, a.tag, a.stamp.len));
    var es1 := es + [BeginPublish(2, a.tag, a.stamp.len)];
    Extend(INITIAL, es1, Lock(2));
    Extend(INITIAL, es1 + [Lock(2)], Put(2, 0));
  }

  lemma EmptyRun(s: State)
    ensures Runs(s, []) && After(s, []) == s
  {
  }

  /** Maintenance then renames file 1 over the name: the next answer holds one file's bytes under another's tag. */
  lemma ForeignRenameMisleads(a: Node, b: Node) returns (es: seq<Event>)
    requires a.stamp != b.stamp && a.tag != b.tag && b.stamp.len <= a.stamp.len
    ensures Runs(INITIAL, es)
    ensures var s := After(INITIAL, es);
            && 3 in s.tasks && s.tasks[3] == Served(JsonFile(1, b.stamp, a.tag))
            && 1 in s.nodes && s.nodes[1].tag == b.tag
  {
    hide Runs, After, Aftermath, Published;
    PublishedRuns(a, b);
    var s := PublishedState(a, b);
    es := Published(a, b);
    Extend(INITIAL, es, Replace(1));
    es := es + [Replace(1)];
    Mislabelled(Next(s, Replace(1)), 2, 1, 3);
    Then(INITIAL, es, Aftermath(2, 3));
    es := es + Aftermath(2, 3);
  }

  /** A publisher of file 0 is dropped while it writes, and another has just put file 1 in place. */
  function Overtaken(a: Node, b: Node): seq<Event> {
    Prepared(a, b) + [BeginPublish(2, a.tag, a.stamp.len)] + [Lock(2)] + [Abandon(2)]
    + [BeginPublish(3, b.tag, b.stamp.len)] + [Lock(3)] + [Put(3, 1)]
  }

  function OvertakenState(a: Node, b: Node): State {
    PreparedState(a, b).(path := Some(1), late := multiset{Body(a.tag, a.stamp.len)}, lock := Some(3),
                         tasks := map[3 := Written(b.tag, b.stamp.len)])
  }

  lemma AbandonedRuns(a: Node, b: Node)
    requires a.stamp != b.stamp
    ensures var es := Prepared(a, b) + [BeginPublish(2, a.tag, a.stamp.len)] + [Lock(2)] + [Abandon(2)];
            Runs(INITIAL, es)
            && After(INITIAL, es) == PreparedState(a, b).(late := multiset{Body(a.tag, a.stamp.len)})
  {
    hide Runs, After, Prepared;
    PreparedRuns(a, b);
    var es := Prepared(a, b);
    Extend(INITIAL, es, BeginPublish(2, a.tag, a.stamp.len));
    var es1 := es + [BeginPublish(2, a.tag, a.stamp.len)];
    Extend(INITIAL, es1, Lock(2));
    Extend(INITIAL, es1 + [Lock(2)], Abandon(2));
  }

  lemma OvertakenRuns(a: Node, b: Node)
    requires a.stamp != b.stamp
    ensures Runs(INITIAL, Overtaken(a, b)) && After(INITIAL, Overtaken(a, b)) == OvertakenState(a, b)
  {
    hide Runs, After, Prepared;
    AbandonedRuns(a, b);
    var es := Prepared(a, b) + [BeginPublish(2, a.tag, a.stamp.len)] + [Lock(2)] + [Abandon(2)];
    Extend(INITIAL, es, BeginPublish(3, b.tag, b.stamp.len));
    var es1 := es + [BeginPublish(3, b.tag, b.stamp.len)];
    Extend(INITIAL, es1, Lock(3));
    Extend(INITIAL, es1 + [Lock(3)], Put(3, 1));
  }

  /**
    With nothing external at all: the first publisher's write lands late, and its bytes are served under the second's
    tag.
   */
  lemma LatePutMisleads(a: Node, b: Node) returns (es: seq<Event>)
    requires a.stamp != b.stamp && a.tag != b.tag && a.stamp.len <= b.stamp.len
    ensures Runs(INITIAL, es) && (forall i :: 0 <= i < |es| ==> !es[i].Replace?)
    ensures var s := After(INITIAL, es);
            && 4 in s.tasks && s.tasks[4] == Served(JsonFile(0, a.stamp, b.tag))
            && 0 in s.nodes && s.nodes[0].tag == a.tag
  {
    hide Runs, After;
    OvertakenRuns(a, b);
    var s := OvertakenState(a, b);
    var put := LatePut(Body(a.tag, a.stamp.len), 0);
    es := Overtaken(a, b);
    Extend(INITIAL, es, put);
    es := es + [put];
    Mislabelled(Next(s, put), 3, 0, 4);
    Then(INITIAL, es, Aftermath(3, 4));
    es := es + Aftermath(3, 4);
  }
}

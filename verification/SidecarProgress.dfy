/**
  What a task of the sidecar protocol gets done when nobody steps in between, from any state the protocol reaches, and
  what an opener that ends with nothing has seen.
 */
module SidecarProgress {
  import opened Results
  import opened Bytes
  import opened SidecarCodec
  import opened Sidecar

  /** File `g` is under the name, task `t` is not there yet, and nobody has the lock. */
  ghost predicate Quiet(s: State, t: nat, g: nat) {
    Inv(s) && s.lock.None? && s.path == Some(g) && g in s.nodes && t !in s.tasks
  }

  /** The file as an answer should hold it: open, with the stamp it shows and the digest of its bytes. */
  function Whole(s: State, g: nat): JsonFile
    requires g in s.nodes
  {
    JsonFile(g, s.nodes[g].stamp, s.nodes[g].tag)
  }

  /** The sidecar answers for the file under the name. */
  predicate Matching(s: State, g: nat)
    requires g in s.nodes
  {
    SidecarFor(s, s.nodes[g].stamp) == Some(s.nodes[g].tag)
  }

  // ---- one task's steps, one after another

  lemma Resettle(s: State, t: nat, p: Phase, q: Phase)
    requires s.lock.None?
    ensures Settle(Settle(s, t, p), t, q) == Settle(s, t, q)
  {
    assert s.tasks[t := p][t := q] == s.tasks[t := q];
  }

  /** After `es`, task `t` is at `p` and the rest is as in `s`. */
  ghost predicate Stands(from: State, es: seq<Event>, s: State, t: nat, p: Phase) {
    Runs(from, es) && s.lock.None? && After(from, es) == Settle(s, t, p)
  }

  lemma OnePhase(from: State, es: seq<Event>, s: State, t: nat, p: Phase, e: Event, q: Phase)
    requires Stands(from, es, s, t, p) && OnlyPhase(e) && e.task == t
    requires Enabled(Settle(s, t, p), e) && NextPhase(Settle(s, t, p), e) == q
    ensures Stands(from, es + [e], s, t, q)
  {
    hide Runs, After, Enabled, NextPhase;
    Extend(from, es, e);
    Resettle(s, t, p, q);
  }

  lemma Begins(s: State, t: nat, e: Event, p: Phase)
    requires s.lock.None? && OnlyPhase(e) && e.task == t && Enabled(s, e) && NextPhase(s, e) == p
    ensures Stands(s, [] + [e], s, t, p)
  {
    hide Runs, After, Enabled, NextPhase;
    EmptyRun(s);
    Extend(s, [], e);
  }

  /** The sidecar is written through a temporary file, and its writer is done. */
  lemma Writes(from: State, es: seq<Event>, s: State, t: nat, result: Option<JsonFile>, bytes: seq<byte>)
    requires Stands(from, es, s, t, Recording(result, bytes))
    ensures Stands(from, es + [WriteTemp(t)] + [Rename(t)],
                   s.(sidecar := Some(bytes), temps := s.temps + {bytes}), t, Finish(result))
  {
    hide Runs, After;
    Extend(from, es, WriteTemp(t));
    var s1 := s.(temps := s.temps + {bytes});
    var s2 := s1.(sidecar := Some(bytes));
    Resettle(s1, t, Recording(result, bytes), Renaming(result, bytes));
    assert After(from, es + [WriteTemp(t)]) == Settle(s1, t, Renaming(result, bytes));
    Extend(from, es + [WriteTemp(t)], Rename(t));
    Resettle(s2, t, Renaming(result, bytes), Finish(result));
  }

  // ---- opening

  /** Hashing under the lock, when no sidecar answers. */
  function HashingPath(t: nat): seq<Event> {
    [] + [BeginOpen(t)] + [ReadSidecar(t)] + [Lock(t)] + [Reopen(t)] + [ReadSidecar(t)] + [Hash(t)] + [Compare(t)]
    + [WriteTemp(t)] + [Rename(t)]
  }

  function QuickPath(t: nat): seq<Event> {
    [] + [BeginOpen(t)] + [ReadSidecar(t)]
  }

  lemma MatchOrNothing(s: State, g: nat)
    requires Inv(s) && g in s.nodes
    ensures SidecarFor(s, s.nodes[g].stamp).Some? ==> Matching(s, g)
  {
    hide Read;
  }

  lemma Quickly(s: State, t: nat, g: nat)
    requires Quiet(s, t, g) && Matching(s, g)
    ensures Stands(s, QuickPath(t), s, t, Served(Whole(s, g)))
  {
    hide Stands, Inv, Read;
    Begins(s, t, BeginOpen(t), Opened(g, s.nodes[g].stamp));
    OnePhase(s, [] + [BeginOpen(t)], s, t, Opened(g, s.nodes[g].stamp), ReadSidecar(t), Served(Whole(s, g)));
  }

  lemma ToHashing(s: State, t: nat, g: nat)
    requires Quiet(s, t, g) && SidecarFor(s, s.nodes[g].stamp).None?
    ensures Stands(s, [] + [BeginOpen(t)] + [ReadSidecar(t)] + [Lock(t)] + [Reopen(t)] + [ReadSidecar(t)],
                   s, t, Hashing(g, s.nodes[g].stamp))
  {
    hide Stands, Inv, Read;
    var stamp := s.nodes[g].stamp;
    Begins(s, t, BeginOpen(t), Opened(g, stamp));
    var es := [] + [BeginOpen(t)];
    OnePhase(s, es, s, t, Opened(g, stamp), ReadSidecar(t), OpenWaiting);
    OnePhase(s, es + [ReadSidecar(t)], s, t, OpenWaiting, Lock(t), OpenLocked);
    es := es + [ReadSidecar(t)] + [Lock(t)];
    OnePhase(s, es, s, t, OpenLocked, Reopen(t), Reopened(g, stamp));
    OnePhase(s, es + [Reopen(t)], s, t, Reopened(g, stamp), ReadSidecar(t), Hashing(g, stamp));
  }

  lemma ByHashing(s: State, t: nat, g: nat)
    requires Quiet(s, t, g) && SidecarFor(s, s.nodes[g].stamp).None?
    ensures var bytes := Encoded(s.nodes[g].stamp, s.nodes[g].tag);
            Stands(s, HashingPath(t), s.(sidecar := Some(bytes), temps := s.temps + {bytes}), t, Served(Whole(s, g)))
  {
    hide Stands, Inv, Read, Encoded;
    ToHashing(s, t, g);
    var es := [] + [BeginOpen(t)] + [ReadSidecar(t)] + [Lock(t)] + [Reopen(t)] + [ReadSidecar(t)];
    var file := Whole(s, g);
    OnePhase(s, es, s, t, Hashing(g, file.stamp), Hash(t), Hashed(file));
    var record := Recording(Some(file), Encoded(file.stamp, file.tag));
    OnePhase(s, es + [Hash(t)], s, t, Hashed(file), Compare(t), record);
    Writes(s, es + [Hash(t)] + [Compare(t)], s, t, Some(file), Encoded(file.stamp, file.tag));
  }

  /**
    From any state of the protocol, an opener left alone with a free lock and a file under the name is served that
    file, with its stamp and the digest of its bytes, whether the sidecar matches, is stale or is missing. Afterwards
    a sidecar matches, the name and the files are untouched, and the next opener is served from the sidecar at once.
   */
  lemma OpenerIsServed(s: State, t: nat, g: nat, u: nat)
    requires Quiet(s, t, g) && u !in s.tasks && u != t
    ensures var es := if SidecarFor(s, s.nodes[g].stamp).Some? then QuickPath(t) else HashingPath(t);
            && Runs(s, es)
            && var s' := After(s, es);
            && t in s'.tasks && s'.tasks[t] == Served(Whole(s, g))
            && s'.path == s.path && s'.nodes == s.nodes && s'.lock.None? && Matching(s', g)
            && (SidecarFor(s, s.nodes[g].stamp).Some? ==> s'.sidecar == s.sidecar)
            && Runs(s', QuickPath(u)) && u in After(s', QuickPath(u)).tasks
            && After(s', QuickPath(u)).tasks[u] == Served(Whole(s, g))
  {
    hide Runs, After, Inv, Read, Encoded, HashingPath, QuickPath, Good;
    var stamp := s.nodes[g].stamp;
    var s' := if SidecarFor(s, stamp).Some? then Settle(s, t, Served(Whole(s, g)))
              else Settle(s.(sidecar := Some(Encoded(stamp, s.nodes[g].tag)),
                             temps := s.temps + {Encoded(stamp, s.nodes[g].tag)}), t, Served(Whole(s, g)));
    MatchOrNothing(s, g);
    if SidecarFor(s, stamp).Some? {
      Quickly(s, t, g);
      ServedInv(s, t, g);
    } else {
      ByHashing(s, t, g);
      RoundTrip(stamp, s.nodes[g].tag, stamp);
      var bytes := Encoded(stamp, s.nodes[g].tag);
      RecordOwn(s, g);
      ServedInv(s.(sidecar := Some(bytes), temps := s.temps + {bytes}), t, g);
    }
    Quickly(s', u, g);
  }

  lemma ServedInv(s: State, t: nat, g: nat)
    requires Inv(s) && s.lock.None? && g in s.nodes
    ensures Inv(Settle(s, t, Served(Whole(s, g))))
  {
    hide Good, Read;
    SettleInv(s, t, Served(Whole(s, g)));
  }

  lemma RecordOwn(s: State, g: nat)
    requires Inv(s) && g in s.nodes
    ensures var bytes := Encoded(s.nodes[g].stamp, s.nodes[g].tag);
            Inv(s.(sidecar := Some(bytes), temps := s.temps + {bytes}))
  {
    hide Good, Encoded, Read;
    var bytes := Encoded(s.nodes[g].stamp, s.nodes[g].tag);
    EncodedGood(s.seen, s.nodes[g].stamp, s.nodes[g].tag);
    RecordedInv(s, Some(bytes), s.temps + {bytes});
  }

  /** An opener that had to wait for the lock, behind one that recorded meanwhile, hashes nothing. */
  lemma WaiterIsServed(s: State, t: nat, g: nat)
    requires Inv(s) && s.lock.None? && s.path == Some(g) && g in s.nodes && Matching(s, g)
    requires t in s.tasks && s.tasks[t] == OpenWaiting
    ensures Stands(s, [] + [Lock(t)] + [Reopen(t)] + [ReadSidecar(t)], s, t, Served(Whole(s, g)))
  {
    hide Stands, Inv, Read;
    Begins(s, t, Lock(t), OpenLocked);
    var stamp, es := s.nodes[g].stamp, [] + [Lock(t)];
    OnePhase(s, es, s, t, OpenLocked, Reopen(t), Reopened(g, stamp));
    OnePhase(s, es + [Reopen(t)], s, t, Reopened(g, stamp), ReadSidecar(t), Served(Whole(s, g)));
  }

  /** The phases of a task that opens or renews a file, up to its answer. */
  predicate Answering(p: Phase) {
    p.Opened? || p.OpenWaiting? || p.OpenLocked? || p.Reopened? || p.Hashing? || p.Hashed?
    || p.RenewWaiting? || p.Renewing? || p.Compared? || p.Moved? || p.Restamped?
    || ((p.Recording? || p.Renaming?) && p.result.Some?)
  }

  /**
    Task `t` over one step: an opener starts on the file under the name, ends unserved only when there is none, and
    goes away only by being cancelled.
   */
  predicate Fair(s: State, s': State, e: Event, t: nat) {
    && (t in s'.tasks && s'.tasks[t].Opened? && (t in s.tasks ==> s.tasks[t] != s'.tasks[t])
        ==> s.path.Some? && s.path.value in s.nodes
            && s'.tasks[t] == Opened(s.path.value, s.nodes[s.path.value].stamp))
    && (t in s.tasks && Answering(s.tasks[t]) && t in s'.tasks && !Answering(s'.tasks[t])
        ==> s'.tasks[t].Served? || s.path.None? || s.path.value !in s.nodes)
    && (t in s.tasks && Answering(s.tasks[t]) && t !in s'.tasks ==> e == Cancel(t))
  }

  lemma PhaseFair(s: State, e: Event)
    requires Enabled(s, e) && OnlyPhase(e)
    ensures Fair(s, Next(s, e), e, e.task)
  {
    hide Read, Encoded;
  }

  lemma OtherTaskFair(s: State, e: Event, t: nat)
    requires Enabled(s, e) && OnlyPhase(e) && e.task != t
    ensures Fair(s, Next(s, e), e, t)
  {
    hide NextPhase, Enabled;
  }

  lemma OtherFair(s: State, e: Event, t: nat)
    requires Enabled(s, e) && !OnlyPhase(e)
    ensures Fair(s, Next(s, e), e, t)
  {
    hide NextPhase, Identified;
  }

  /** Whatever the interleaving, an opener ends with nothing only by looking when no file was under the name. */
  lemma UnservedSawNothing(es: seq<Event>, e: Event, t: nat)
    requires Runs(INITIAL, es) && Enabled(After(INITIAL, es), e)
    ensures Fair(After(INITIAL, es), Next(After(INITIAL, es), e), e, t)
  {
    hide Runs, After, Enabled, Next, Fair;
    var s := After(INITIAL, es);
    if !OnlyPhase(e) { OtherFair(s, e, t); } else if e.task == t { PhaseFair(s, e); } else { OtherTaskFair(s, e, t); }
  }

  // ---- publishing

  function PublishPath(t: nat, tag: Tag, len: nat, g: nat): seq<Event> {
    [] + [BeginPublish(t, tag, len)] + [Lock(t)] + [Put(t, g)] + [StampPath(t)] + [WriteTemp(t)] + [Rename(t)]
  }

  /** A publisher left alone puts its file under the name and records that file's own stamp with its own digest. */
  lemma PublisherPublishes(s: State, t: nat, g: nat)
    requires s.lock.None? && g in s.nodes && t !in s.tasks
    ensures var es := PublishPath(t, s.nodes[g].tag, s.nodes[g].stamp.len, g);
            && Runs(s, es)
            && var s' := After(s, es);
            && s'.path == Some(g) && s'.nodes == s.nodes && s'.lock.None? && Matching(s', g)
            && t in s'.tasks && s'.tasks[t] == Ended
  {
    hide Runs, After, Read, Encoded, Enabled, Next, NextPhase;
    var tag, len := s.nodes[g].tag, s.nodes[g].stamp.len;
    ToWritten(s, t, g);
    var es, s1 := [] + [BeginPublish(t, tag, len)] + [Lock(t)] + [Put(t, g)], s.(path := Some(g));
    var bytes := Encoded(s.nodes[g].stamp, tag);
    Stamps(s1, t, g);
    OnePhase(s, es, s1, t, Written(tag, len), StampPath(t), Recording(None, bytes));
    Writes(s, es + [StampPath(t)], s1, t, None, bytes);
    RoundTrip(s.nodes[g].stamp, tag, s.nodes[g].stamp);
  }

  lemma Stamps(s: State, t: nat, g: nat)
    requires s.path == Some(g) && g in s.nodes
    ensures var s1 := Settle(s, t, Written(s.nodes[g].tag, s.nodes[g].stamp.len));
            && Enabled(s1, StampPath(t))
            && NextPhase(s1, StampPath(t)) == Recording(None, Encoded(s.nodes[g].stamp, s.nodes[g].tag))
  {
    hide Encoded;
  }

  lemma ToWritten(s: State, t: nat, g: nat)
    requires s.lock.None? && g in s.nodes && t !in s.tasks
    ensures var tag, len := s.nodes[g].tag, s.nodes[g].stamp.len;
            Stands(s, [] + [BeginPublish(t, tag, len)] + [Lock(t)] + [Put(t, g)],
                   s.(path := Some(g)), t, Written(tag, len))
  {
    hide Runs, After;
    var tag, len := s.nodes[g].tag, s.nodes[g].stamp.len;
    ToPublishing(s, t, tag, len);
    Extend(s, [] + [BeginPublish(t, tag, len)] + [Lock(t)], Put(t, g));
    Resettle(s.(path := Some(g)), t, Publishing(tag, len), Written(tag, len));
  }

  lemma ToPublishing(s: State, t: nat, tag: Tag, len: nat)
    requires s.lock.None? && t !in s.tasks
    ensures Stands(s, [] + [BeginPublish(t, tag, len)] + [Lock(t)], s, t, Publishing(tag, len))
  {
    hide Stands;
    Begins(s, t, BeginPublish(t, tag, len), PublishWaiting(tag, len));
    OnePhase(s, [] + [BeginPublish(t, tag, len)], s, t, PublishWaiting(tag, len), Lock(t), Publishing(tag, len));
  }

  // ---- renewing

  function MovingPath(t: nat, seconds: u64, nanos: u32): seq<Event> {
    [] + [BeginRenew(t)] + [Lock(t)] + [Compare(t)] + [Move(t, seconds, nanos)] + [Restamp(t)] + [Compare(t)]
  }

  /** Task `t` holds a file it was served, nobody has the lock, and the file may be given that time. */
  predicate MayRenew(s: State, t: nat, seconds: u64, nanos: u32) {
    s.lock.None? && t in s.tasks && s.tasks[t].Served? && MayTime(s, s.tasks[t].file.gen, seconds, nanos)
  }

  lemma ToCompared(s: State, t: nat)
    requires s.lock.None? && t in s.tasks && s.tasks[t].Served?
    ensures Stands(s, [] + [BeginRenew(t)] + [Lock(t)] + [Compare(t)],
                   s, t, Compared(s.tasks[t].file, PathShows(s, s.tasks[t].file.stamp)))
  {
    hide Stands;
    var file, same := s.tasks[t].file, PathShows(s, s.tasks[t].file.stamp);
    Begins(s, t, BeginRenew(t), RenewWaiting(file));
    OnePhase(s, [] + [BeginRenew(t)], s, t, RenewWaiting(file), Lock(t), Renewing(file));
    OnePhase(s, [] + [BeginRenew(t)] + [Lock(t)], s, t, Renewing(file), Compare(t), Compared(file, same));
  }

  lemma MovesOn(s: State, t: nat, file: JsonFile, same: bool, seconds: u64, nanos: u32)
    requires s.lock.None? && MayTime(s, file.gen, seconds, nanos)
    ensures var s1 := Settle(s, t, Compared(file, same));
            && Enabled(s1, Move(t, seconds, nanos))
            && Next(s1, Move(t, seconds, nanos))
            == Settle(Timed(s, file.gen, seconds, nanos), t, Phase.Moved(file, same))
  {
    Resettle(Timed(s, file.gen, seconds, nanos), t, Compared(file, same), Phase.Moved(file, same));
  }

  lemma ToMoved(s: State, t: nat, seconds: u64, nanos: u32)
    requires MayRenew(s, t, seconds, nanos)
    ensures var file := s.tasks[t].file;
            var next := file.(stamp := At(s.nodes[file.gen].stamp, seconds, nanos));
            Stands(s, [] + [BeginRenew(t)] + [Lock(t)] + [Compare(t)] + [Move(t, seconds, nanos)] + [Restamp(t)],
                   Timed(s, file.gen, seconds, nanos), t, Restamped(next, PathShows(s, file.stamp)))
  {
    hide Runs, After, Enabled, Next, NextPhase;
    var file, same := s.tasks[t].file, PathShows(s, s.tasks[t].file.stamp);
    var s1 := Timed(s, file.gen, seconds, nanos);
    ToCompared(s, t);
    MovesOn(s, t, file, same, seconds, nanos);
    var es := [] + [BeginRenew(t)] + [Lock(t)] + [Compare(t)];
    Extend(s, es, Move(t, seconds, nanos));
    Restamps(s1, t, file, same);
    OnePhase(s, es + [Move(t, seconds, nanos)], s1, t, Phase.Moved(file, same), Restamp(t),
             Restamped(file.(stamp := s1.nodes[file.gen].stamp), same));
  }

  lemma Restamps(s: State, t: nat, file: JsonFile, same: bool)
    requires file.gen in s.nodes
    ensures var s1 := Settle(s, t, Phase.Moved(file, same));
            && Enabled(s1, Restamp(t))
            && NextPhase(s1, Restamp(t)) == Restamped(file.(stamp := s.nodes[file.gen].stamp), same)
  {
  }

  /**
    A renewer left alone moves its own file's time and no other file's. While that file is under the name, a sidecar
    then matches it; when another file is there, the name, that file and the sidecar are as they were.
   */
  lemma RenewerRenews(s: State, t: nat, seconds: u64, nanos: u32)
    requires MayRenew(s, t, seconds, nanos) && NodesKnown(s) && FileGood(s, s.tasks[t].file)
    ensures var file := s.tasks[t].file;
            var next := JsonFile(file.gen, At(s.nodes[file.gen].stamp, seconds, nanos), file.tag);
            var own := PathShows(s, file.stamp) && PathShows(Timed(s, file.gen, seconds, nanos), next.stamp);
            var es := MovingPath(t, seconds, nanos) + if own then [WriteTemp(t)] + [Rename(t)] else [];
            && Runs(s, es)
            && var s' := After(s, es);
            && t in s'.tasks && s'.tasks[t] == Served(next) && s'.path == s.path && s'.lock.None?
            && s'.nodes == s.nodes[file.gen := Node(next.stamp, s.nodes[file.gen].tag)]
            && (own ==> SidecarFor(s', next.stamp) == Some(file.tag))
            && (!own ==> s'.sidecar == s.sidecar)
            && (s.path == Some(file.gen) && s.nodes[file.gen].stamp == file.stamp ==> own)
            && (s.path.None? ==> !own)
  {
    hide Runs, After, Read, Encoded;
    var file := s.tasks[t].file;
    var next := file.(stamp := At(s.nodes[file.gen].stamp, seconds, nanos));
    var s1, same := Timed(s, file.gen, seconds, nanos), PathShows(s, file.stamp);
    var own := same && PathShows(s1, next.stamp);
    ToMoved(s, t, seconds, nanos);
    var es := [] + [BeginRenew(t)] + [Lock(t)] + [Compare(t)] + [Move(t, seconds, nanos)] + [Restamp(t)];
    var bytes := Encoded(next.stamp, next.tag);
    OnePhase(s, es, s1, t, Restamped(next, same), Compare(t),
             if own then Recording(Some(next), bytes) else Served(next));
    if own {
      Writes(s, es + [Compare(t)], s1, t, Some(next), bytes);
      RoundTrip(next.stamp, next.tag, next.stamp);
      assert MovingPath(t, seconds, nanos) + ([WriteTemp(t)] + [Rename(t)])
          == es + [Compare(t)] + [WriteTemp(t)] + [Rename(t)];
    } else {
      assert MovingPath(t, seconds, nanos) + [] == es + [Compare(t)];
    }
  }
}

/**
  Polls whose record is read before the lock they step under: each poll carries the watermarks it read, moves those by
  its acknowledgements, and stores them over whatever has been stored since. When a stored watermark falls, and when
  not.
 */
module WakeSnapshots {
  import opened Results
  import opened WakeEvents
  import opened WakeController

  /** The controller, and for each poll under way the watermarks it read. */
  datatype System = System(base: State, read: map<nat, Marks>)

  datatype Action =
    | Authenticate(k: nat)
    | Finish(k: nat, poll: Poll)
    | Other(step: Step)

  /** The poll step with the watermarks it read in place of the stored ones. */
  function PolledWith(s: State, p: Poll, read: Marks): State {
    var polled := Polled(s.(watermarks := read), p.(saved := true));
    if p.saved then polled else polled.(watermarks := s.watermarks)
  }

  predicate Enabled(s: System, a: Action) {
    match a
    case Authenticate(k) => k !in s.read
    case Finish(k, _) => k in s.read
    case Other(step) => !step.ToPoll?
  }

  function Act(s: System, a: Action): System
    requires Enabled(s, a)
  {
    match a
    case Authenticate(k) => s.(read := s.read[k := s.base.watermarks])
    case Finish(k, p) => System(PolledWith(s.base, p, s.read[k]), s.read - {k})
    case Other(step) => System(Next(s.base, step), if step.Restart? then map[] else s.read)
  }

  const START := System(INITIAL, map[])

  predicate Runs(s: System, actions: seq<Action>)
    decreases actions
  {
    actions == [] || (Enabled(s, actions[0]) && Runs(Act(s, actions[0]), actions[1..]))
  }

  function After(s: System, actions: seq<Action>): System
    requires Runs(s, actions)
    decreases actions
  {
    if actions == [] then s else After(Act(s, actions[0]), actions[1..])
  }

  // ---- events do not depend on when the record is read

  lemma ActInv(s: System, a: Action)
    requires Inv(s.base) && Enabled(s, a)
    ensures Inv(Act(s, a).base)
  {
    hide Inv, Polled, Next;
    match a {
      case Authenticate(_) =>
      case Finish(k, p) =>
        WatermarksAside(s.base, s.read[k]);
        PolledInv(s.base.(watermarks := s.read[k]), p.(saved := true));
        WatermarksAside(Polled(s.base.(watermarks := s.read[k]), p.(saved := true)), s.base.watermarks);
      case Other(step) => StepInv(s.base, step);
    }
  }

  /** Pending events are exactly what is outstanding, however polls overlap. */
  lemma {:induction false} OverlappingPollsKeep(s: System, actions: seq<Action>)
    requires Inv(s.base) && Runs(s, actions)
    ensures Inv(After(s, actions).base)
    decreases actions
  {
    hide Inv, Enabled, Act;
    if actions != [] {
      ActInv(s, actions[0]);
      OverlappingPollsKeep(Act(s, actions[0]), actions[1..]);
    }
  }

  // ---- when a watermark falls

  /** How far a poll's own acknowledgements move a target's watermark, whatever was read. */
  function Reached(s: State, p: Poll, t: Id): nat {
    MarkOf(AckAll(Registered(s.(watermarks := map[]), p), p.acks).watermarks, t)
  }

  lemma MarkedOf(marks: Marks, pending: Pending, id: Id, t: Id)
    ensures MarkOf(Marked(marks, pending, id), t)
            == if t in pending && pending[t].id == id then Max(MarkOf(marks, t), pending[t].last) else MarkOf(marks, t)
  {
  }

  lemma {:induction false} AckAllFrom(s: State, acks: seq<Id>, read: Marks, t: Id)
    requires s.memory.Some?
    ensures var a, b := AckAll(s.(watermarks := read), acks), AckAll(s.(watermarks := map[]), acks);
            a.(watermarks := b.watermarks) == b
                && MarkOf(a.watermarks, t) == Max(MarkOf(read, t), MarkOf(b.watermarks, t))
  {
    hide Marked, Unacked;
    if acks == [] {
      assert MarkOf(map[], t) == 0;
    } else {
      var front, id := acks[..|acks| - 1], acks[|acks| - 1];
      AckAllFrom(s, front, read, t);
      var a, b := AckAll(s.(watermarks := read), front), AckAll(s.(watermarks := map[]), front);
      MarkedOf(a.watermarks, PendingOf(a), id, t);
      MarkedOf(b.watermarks, PendingOf(b), id, t);
    }
  }

  lemma RegisteredAside(s: State, p: Poll, read: Marks)
    ensures Registered(s.(watermarks := read), p) == Registered(s, p).(watermarks := read)
    ensures Registered(s, p).memory.Some?
  {
    hide Kept;
  }

  lemma {:induction false} CatchUpMarksSame(s: State, targets: seq<Target>, view: View)
    ensures CatchUp(s, targets, view).watermarks == s.watermarks
  {
    if targets != [] { CatchUpMarksSame(s, targets[..|targets| - 1], view); }
  }

  /** A stored poll leaves each watermark at the later of what it read and what it acknowledged. */
  lemma StoredMark(s: State, p: Poll, read: Marks, t: Id)
    requires p.saved
    ensures MarkOf(PolledWith(s, p, read).watermarks, t) == Max(MarkOf(read, t), Reached(s, p, t))
  {
    hide Registered, AckAll, CatchUp, MarkOf;
    RegisteredAside(s, p, read);
    RegisteredAside(s, p, map[]);
    AckAllFrom(Registered(s, p), p.acks, read, t);
    CatchUpMarksSame(AckAll(Registered(s.(watermarks := read), p), p.acks), p.targets, p.view);
  }

  /** A stored watermark falls exactly when a poll is stored that read an earlier one and did not itself get as far. */
  lemma FallsIff(s: System, a: Action, t: Id)
    requires Enabled(s, a) && Inv(s.base)
    ensures MarkOf(Act(s, a).base.watermarks, t) < MarkOf(s.base.watermarks, t)
            <==> a.Finish? && a.poll.saved
                 && Max(MarkOf(s.read[a.k], t), Reached(s.base, a.poll, t)) < MarkOf(s.base.watermarks, t)
  {
    hide Polled, Next, MarkOf, Reached, Inv;
    match a {
      case Authenticate(_) =>
      case Finish(k, p) =>
        if p.saved { StoredMark(s.base, p, s.read[k], t); }
      case Other(step) => StepInv(s.base, step);
    }
  }

  /** Every poll that is stored read the watermarks that are stored: none was stored in between. */
  predicate Current(s: System, a: Action) {
    a.Finish? && a.k in s.read && a.poll.saved ==> s.read[a.k] == s.base.watermarks
  }

  predicate AllCurrent(s: System, actions: seq<Action>)
    requires Runs(s, actions)
    decreases actions
  {
    actions == [] || (Current(s, actions[0]) && AllCurrent(Act(s, actions[0]), actions[1..]))
  }

  lemma {:induction false} CurrentPollsNeverFall(s: System, actions: seq<Action>, t: Id)
    requires Inv(s.base) && Runs(s, actions) && AllCurrent(s, actions)
    ensures MarkOf(s.base.watermarks, t) <= MarkOf(After(s, actions).base.watermarks, t)
    decreases actions
  {
    hide Inv, Act, MarkOf, Reached;
    if actions != [] {
      ActInv(s, actions[0]);
      FallsIff(s, actions[0], t);
      CurrentPollsNeverFall(Act(s, actions[0]), actions[1..], t);
    }
  }

  // ---- it can fall

  lemma OneAction(s: System, a: Action)
    requires Enabled(s, a)
    ensures Runs(s, [a]) && After(s, [a]) == Act(s, a)
  {
    hide Act;
    assert [a][1..] == [] && [a][0] == a;
  }

  lemma TwoActions(s: System, a: Action, b: Action)
    requires Enabled(s, a) && Enabled(Act(s, a), b)
    ensures Runs(s, [a, b]) && After(s, [a, b]) == Act(Act(s, a), b)
  {
    hide Act;
    OneAction(Act(s, a), b);
    assert [a, b][1..] == [b] && [a, b][0] == a;
  }

  /**
    Two polls that read the same record, the first of which acknowledges the event pending for a target: when the
    second, which acknowledges nothing, is stored after it, the target's watermark is back where it was.
   */
  lemma OverlapUndoes(s: System, first: Poll, second: Poll, j: nat, k: nat, t: Id)
    requires Inv(s.base) && j != k && j in s.read && k in s.read && s.read[j] == s.read[k] == s.base.watermarks
    requires first.saved && second.saved && second.acks == []
    requires MarkOf(s.base.watermarks, t) < Reached(s.base, first, t)
    ensures var actions := [Finish(j, first), Finish(k, second)];
            && Runs(s, actions)
            && MarkOf(Act(s, actions[0]).base.watermarks, t) == Reached(s.base, first, t)
            && MarkOf(After(s, actions).base.watermarks, t) == MarkOf(s.base.watermarks, t)
  {
    hide Runs, After, PolledWith, MarkOf, Reached, Inv;
    var s1 := Act(s, Finish(j, first));
    StoredMark(s.base, first, s.read[j], t);
    StoredMark(s1.base, second, s.read[k], t);
    assert Reached(s1.base, second, t) == 0 by { NoAcks(s1.base, second, t); }
    TwoActions(s, Finish(j, first), Finish(k, second));
  }

  lemma NoAcks(s: State, p: Poll, t: Id)
    requires p.acks == []
    ensures Reached(s, p, t) == 0
  {
    hide Registered;
    RegisteredAside(s, p, map[]);
  }

  // ---- and such polls do meet

  const TV := Target(0, 0, 0, 0)
  const ONLINE := View({0}, map[], map[])

  function PollOf(acks: seq<Id>, now: nat): Poll {
    Poll([TV], acks, now, ONLINE, true)
  }

  /** One target registered at time zero. */
  function RegisteredState(log: Log): State {
    State(Some(Registration([TV], LEASE_MS, 0, map[], 1)), map[], 0, log)
  }

  lemma FirstPoll()
    ensures PolledWith(INITIAL, PollOf([], 0), map[]) == RegisteredState([] + [Retained(IdsOf([TV]))])
  {
    var p := PollOf([], 0);
    assert Kept(map[], IdsOf([TV])) == map[];
    var s := Registered(INITIAL, p);
    assert s == RegisteredState([] + [Retained(IdsOf([TV]))]);
    assert AckAll(s, []) == s;
    assert [TV][..0] == [];
    assert CatchUp(s, [], ONLINE) == s;
    assert CatchUp(s, [TV], ONLINE) == s;
  }

  /** And a request in its lane at time five. */
  lemma FirstTrigger(log: Log)
    ensures var s := Notified(RegisteredState(log), InLane(0), 5);
            && s.memory == Some(Registration([TV], LEASE_MS, 0, map[0 := Event(0, {Assistant}, 5, 5)], 1))
            && s.watermarks == map[]
  {
    var s := RegisteredState(log);
    assert [TV][..0] == [];
    assert RaiseAll(s, [], InLane(0), Trigger(Assistant, 5)) == s;
  }

  lemma FirstReached(s: State)
    requires s.memory == Some(Registration([TV], LEASE_MS, 0, map[0 := Event(0, {Assistant}, 5, 5)], 1))
    ensures Reached(s, PollOf([0], 6), 0) == 5
  {
    var p := PollOf([0], 6);
    var r := Registered(s.(watermarks := map[]), p);
    assert PendingOf(r) == map[0 := Event(0, {Assistant}, 5, 5)] && r.watermarks == map[];
    assert [0][..0] == [];
    assert AckAll(r, [0]) == AckOne(r, 0);
    MarkedOf(map[], PendingOf(r), 0, 0);
  }

  lemma {:induction false} Extend(s: System, actions: seq<Action>, a: Action)
    requires Runs(s, actions) && Enabled(After(s, actions), a)
    ensures Runs(s, actions + [a]) && After(s, actions + [a]) == Act(After(s, actions), a)
    decreases actions
  {
    hide Act;
    if actions == [] {
      assert (actions + [a])[1..] == [];
    } else {
      Extend(Act(s, actions[0]), actions[1..], a);
      assert (actions + [a])[1..] == actions[1..] + [a];
    }
  }

  /** From a controller that has never polled, a run in which a stored watermark goes from five back to zero. */
  lemma WatermarkFalls() returns (actions: seq<Action>, last: Action)
    ensures Runs(START, actions) && Enabled(After(START, actions), last)
    ensures MarkOf(After(START, actions).base.watermarks, 0) == 5
    ensures MarkOf(Act(After(START, actions), last).base.watermarks, 0) == 0
  {
    hide Runs, After, PolledWith, Notified, Reached, Inv;
    assert Runs(START, []) && After(START, []) == START by { Nothing(START); }
    Extend(START, [], Authenticate(0));
    actions := [] + [Authenticate(0)];
    FirstPoll();
    Extend(START, actions, Finish(0, PollOf([], 0)));
    actions := actions + [Finish(0, PollOf([], 0))];
    FirstTrigger([] + [Retained(IdsOf([TV]))]);
    Extend(START, actions, Other(Notify(InLane(0), 5)));
    actions := actions + [Other(Notify(InLane(0), 5))];
    Extend(START, actions, Authenticate(1));
    actions := actions + [Authenticate(1)];
    Extend(START, actions, Authenticate(2));
    actions := actions + [Authenticate(2)];
    var s := After(START, actions);
    InitialInv();
    OverlappingPollsKeep(START, actions);
    FirstReached(s.base);
    OverlapUndoes(s, PollOf([0], 6), PollOf([], 7), 1, 2, 0);
    Extend(START, actions, Finish(1, PollOf([0], 6)));
    actions := actions + [Finish(1, PollOf([0], 6))];
    last := Finish(2, PollOf([], 7));
    TwoActions(s, Finish(1, PollOf([0], 6)), last);
  }

  lemma Nothing(s: System)
    ensures Runs(s, []) && After(s, []) == s
  {
  }
}

/**
  One wake controller: triggers that arrive while its lease runs, polls that register targets, acknowledge events and
  catch up on what arrived without it, and the restarts that empty its memory but not its stored watermarks. A poll is
  one atomic step.
 */
module WakeController {
  import opened Results
  import opened Bytes
  import opened WakeEvents

  const LEASE_MS: nat := 60_000

  /** `caption` stands for the name and capabilities, which only registration compares. */
  datatype Target = Target(id: Id, inbox: Id, tv: Id, caption: nat)

  datatype Registration =
    Registration(targets: seq<Target>, leaseUntil: nat, registeredAt: nat, pending: Pending, generation: nat)

  /** The rest of the server as a poll sees it: which TVs are online, and what waits in inboxes and lanes. */
  datatype View = View(online: set<Id>, inboxes: map<Id, (nat, nat)>, lanes: map<Id, nat>)

  datatype Poll = Poll(targets: seq<Target>, acks: seq<Id>, now: nat, view: View, saved: bool)

  datatype State = State(
    memory: Option<Registration>,
    watermarks: Marks,   // stored
    next: Id,
    log: Log)

  const INITIAL := State(None, map[], 0, [])

  function PendingOf(s: State): Pending {
    if s.memory.Some? then s.memory.value.pending else map[]
  }

  predicate UniqueIds(targets: seq<Target>) {
    forall i, j :: 0 <= i < j < |targets| ==> targets[i].id != targets[j].id
  }

  function IdsOf(targets: seq<Target>): set<Id> {
    set i | 0 <= i < |targets| :: targets[i].id
  }

  // ---- triggers

  /** `add_event` on the registration, when there is one. */
  function Raise(s: State, t: Id, trigger: Trigger): State {
    if s.memory.None? then s
    else
      var r := s.memory.value;
      s.(memory := Some(r.(pending := Added(r.pending, t, trigger, s.next))),
         next := s.next + 1,
         log := s.log + [Raised(t, trigger, s.next)])
  }

  predicate Leased(s: State, at: nat) {
    s.memory.Some? && s.memory.value.leaseUntil > at
  }

  /** What arrived: a request in a lane, or a message in an inbox while these TVs are online. */
  datatype News = InLane(lane: Id) | InInbox(inbox: Id, online: set<Id>)

  /** The targets it concerns: for a message, none whose TV is online and needs no waking. */
  predicate Wants(target: Target, news: News) {
    match news
    case InLane(lane) => target.tv == lane
    case InInbox(inbox, online) => target.inbox == inbox && target.tv !in online
  }

  /** A trigger for every listed target that wants it, in order. */
  function RaiseAll(s: State, targets: seq<Target>, news: News, trigger: Trigger): State {
    if targets == [] then s
    else
      var before := RaiseAll(s, targets[..|targets| - 1], news, trigger);
      var target := targets[|targets| - 1];
      if Wants(target, news) then Raise(before, target.id, trigger) else before
  }

  function SourceOf(news: News): Source {
    if news.InLane? then Assistant else Inbox
  }

  /** `notify_assistant` and `notify_inbox`, while the lease runs. */
  function Notified(s: State, news: News, at: nat): State {
    if Leased(s, at) then RaiseAll(s, s.memory.value.targets, news, Trigger(SourceOf(news), at)) else s
  }

  // ---- polls

  predicate Changed(s: State, p: Poll) {
    s.memory.None? || s.memory.value.targets != p.targets || s.memory.value.leaseUntil <= p.now
  }

  /** The lease, the targets and the generation, before acknowledgements. */
  function Registered(s: State, p: Poll): State {
    var generation := if s.memory.Some? then s.memory.value.generation else 0;
    if Changed(s, p) then
      s.(memory := Some(Registration(p.targets, p.now + LEASE_MS, p.now, Kept(PendingOf(s), IdsOf(p.targets)),
                                     (generation + 1) % U64_LIMIT)),
         log := s.log + [Retained(IdsOf(p.targets))])
    else
      s.(memory := Some(s.memory.value.(leaseUntil := p.now + LEASE_MS, generation := (generation + 1) % U64_LIMIT)))
  }

  /** One acknowledgement: the events it names go, and their targets' watermarks move. */
  function AckOne(s: State, id: Id): State
    requires s.memory.Some?
  {
    var r := s.memory.value;
    s.(memory := Some(r.(pending := Unacked(r.pending, id))),
       watermarks := Marked(s.watermarks, r.pending, id),
       log := s.log + [Acked(id)])
  }

  function AckAll(s: State, acks: seq<Id>): (s': State)
    requires s.memory.Some?
    ensures s'.memory.Some?
  {
    if acks == [] then s else AckOne(AckAll(s, acks[..|acks| - 1]), acks[|acks| - 1])
  }

  /** What waits in a target's inbox arrived after its watermark and its TV is offline. */
  predicate InboxWaits(marks: Marks, target: Target, view: View) {
    && target.tv !in view.online
    && target.inbox in view.inboxes && view.inboxes[target.inbox].1 > MarkOf(marks, target.id)
  }

  /** The newest request queued in a target's lane arrived after its watermark and its TV is offline. */
  predicate LaneWaits(marks: Marks, target: Target, view: View) {
    && target.tv !in view.online
    && target.tv in view.lanes && view.lanes[target.tv] > MarkOf(marks, target.id)
  }

  function CatchUpInbox(s: State, target: Target, view: View): State {
    if InboxWaits(s.watermarks, target, view) then
      var (first, last) := view.inboxes[target.inbox];
      var s1 := Raise(s, target.id, Trigger(Inbox, first));
      if last != first then Raise(s1, target.id, Trigger(Inbox, last)) else s1
    else s
  }

  function CatchUpLane(s: State, target: Target, view: View): State {
    if LaneWaits(s.watermarks, target, view) then Raise(s, target.id, Trigger(Assistant, view.lanes[target.tv])) else s
  }

  function CatchUp(s: State, targets: seq<Target>, view: View): State {
    if targets == [] then s
    else
      var before := CatchUp(s, targets[..|targets| - 1], view);
      var target := targets[|targets| - 1];
      CatchUpLane(CatchUpInbox(before, target, view), target, view)
  }

  /** The poll step; the moved watermarks are kept when the snapshot is stored. */
  function Polled(s: State, p: Poll): State {
    var acked := AckAll(Registered(s, p), p.acks);
    var caught := if Changed(s, p) then CatchUp(acked, p.targets, p.view) else acked;
    if p.saved then caught else caught.(watermarks := s.watermarks)
  }

  datatype Step =
    | Notify(news: News, at: nat)
    | ToPoll(poll: Poll)
    | Restart

  function Next(s: State, e: Step): State {
    match e
    case Notify(news, at) => Notified(s, news, at)
    case ToPoll(p) => Polled(s, p)
    case Restart => s.(memory := None, log := s.log + [Forgotten])
  }

  function After(es: seq<Step>): State {
    if es == [] then INITIAL else Next(After(es[..|es| - 1]), es[|es| - 1])
  }

  // ---- what every step keeps

  ghost predicate Inv(s: State) {
    Stands(s.log, PendingOf(s)) && IdsRise(s.log, s.next)
  }

  lemma RaiseInv(s: State, t: Id, trigger: Trigger)
    requires Inv(s)
    ensures Inv(Raise(s, t, trigger))
    ensures Raise(s, t, trigger).watermarks == s.watermarks && (s.memory.Some? <==> Raise(s, t, trigger).memory.Some?)
  {
    hide Stands, Added;
    RaisedStands(s.log, PendingOf(s), t, trigger, s.next);
  }

  lemma {:induction false} RaiseAllInv(s: State, targets: seq<Target>, news: News, trigger: Trigger)
    requires Inv(s)
    ensures Inv(RaiseAll(s, targets, news, trigger))
    ensures RaiseAll(s, targets, news, trigger).watermarks == s.watermarks
  {
    hide Inv, Raise;
    if targets != [] {
      RaiseAllInv(s, targets[..|targets| - 1], news, trigger);
      RaiseInv(RaiseAll(s, targets[..|targets| - 1], news, trigger), targets[|targets| - 1].id, trigger);
    }
  }

  lemma RegisteredInv(s: State, p: Poll)
    requires Inv(s)
    ensures Inv(Registered(s, p)) && Registered(s, p).watermarks == s.watermarks
  {
    hide Stands, Kept;
    RetainedStands(s.log, PendingOf(s), IdsOf(p.targets));
  }

  lemma {:induction false} AckAllInv(s: State, acks: seq<Id>)
    requires Inv(s) && s.memory.Some?
    ensures Inv(AckAll(s, acks))
    ensures forall t :: MarkOf(s.watermarks, t) <= MarkOf(AckAll(s, acks).watermarks, t)
  {
    hide Stands, Unacked, Marked;
    if acks != [] {
      var id := acks[|acks| - 1];
      AckAllInv(s, acks[..|acks| - 1]);
      var before := AckAll(s, acks[..|acks| - 1]);
      AckedStands(before.log, PendingOf(before), id);
      forall t ensures MarkOf(before.watermarks, t) <= MarkOf(Marked(before.watermarks, PendingOf(before), id), t) {
        MarkedGrows(before.watermarks, PendingOf(before), id, t);
      }
    }
  }

  lemma CatchUpOneInv(s: State, target: Target, view: View)
    requires Inv(s)
    ensures var s' := CatchUpLane(CatchUpInbox(s, target, view), target, view);
            Inv(s') && s'.watermarks == s.watermarks
  {
    hide Inv, Raise;
    if InboxWaits(s.watermarks, target, view) {
      var (first, last) := view.inboxes[target.inbox];
      RaiseInv(s, target.id, Trigger(Inbox, first));
      RaiseInv(Raise(s, target.id, Trigger(Inbox, first)), target.id, Trigger(Inbox, last));
    }
    var s1 := CatchUpInbox(s, target, view);
    if LaneWaits(s1.watermarks, target, view) { RaiseInv(s1, target.id, Trigger(Assistant, view.lanes[target.tv])); }
  }

  lemma {:induction false} CatchUpInv(s: State, targets: seq<Target>, view: View)
    requires Inv(s)
    ensures Inv(CatchUp(s, targets, view)) && CatchUp(s, targets, view).watermarks == s.watermarks
  {
    hide Inv, CatchUpLane, CatchUpInbox;
    if targets != [] {
      CatchUpInv(s, targets[..|targets| - 1], view);
      CatchUpOneInv(CatchUp(s, targets[..|targets| - 1], view), targets[|targets| - 1], view);
    }
  }

  lemma PolledInv(s: State, p: Poll)
    requires Inv(s)
    ensures Inv(Polled(s, p))
    ensures forall t :: MarkOf(s.watermarks, t) <= MarkOf(Polled(s, p).watermarks, t)
  {
    hide Inv, Registered, AckAll, CatchUp, MarkOf;
    assert Registered(s, p).memory.Some? by { RegisteredSome(s, p); }
    RegisteredInv(s, p);
    AckAllInv(Registered(s, p), p.acks);
    var acked := AckAll(Registered(s, p), p.acks);
    CatchUpInv(acked, p.targets, p.view);
    var caught := if Changed(s, p) then CatchUp(acked, p.targets, p.view) else acked;
    assert Inv(caught.(watermarks := s.watermarks)) by { WatermarksAside(caught, s.watermarks); }
  }

  lemma RegisteredSome(s: State, p: Poll)
    ensures Registered(s, p).memory.Some?
  {
  }

  lemma WatermarksAside(s: State, marks: Marks)
    requires Inv(s)
    ensures Inv(s.(watermarks := marks))
  {
  }

  lemma StepInv(s: State, e: Step)
    requires Inv(s)
    ensures Inv(Next(s, e))
    ensures forall t :: MarkOf(s.watermarks, t) <= MarkOf(Next(s, e).watermarks, t)
  {
    hide Stands, RaiseAll, Polled;
    match e {
      case Notify(news, at) =>
        if Leased(s, at) { RaiseAllInv(s, s.memory.value.targets, news, Trigger(SourceOf(news), at)); }
      case ToPoll(p) => PolledInv(s, p);
      case Restart => ForgottenStands(s.log);
    }
  }

  /**
    In every reachable state a target's pending event exists exactly when a trigger is outstanding, and is the union of
    the outstanding sources and the first and last of their times.
   */
  lemma {:induction false} PendingIsOutstanding(es: seq<Step>)
    ensures Inv(After(es))
  {
    hide Inv, Next;
    if es == [] {
      InitialInv();
    } else {
      PendingIsOutstanding(es[..|es| - 1]);
      StepInv(After(es[..|es| - 1]), es[|es| - 1]);
    }
  }

  lemma InitialInv()
    ensures Inv(INITIAL)
  {
  }

  /** A stored watermark never moves back, across failed saves and restarts. */
  lemma {:induction false} WatermarksNeverFall(es: seq<Step>, more: seq<Step>, t: Id)
    ensures MarkOf(After(es).watermarks, t) <= MarkOf(After(es + more).watermarks, t)
  {
    hide Next, Inv, MarkOf;
    if more == [] {
      assert es + more == es;
    } else {
      var front := more[..|more| - 1];
      WatermarksNeverFall(es, front, t);
      PendingIsOutstanding(es + front);
      StepInv(After(es + front), more[|more| - 1]);
      assert (es + more)[..|es + more| - 1] == es + front;
    }
  }

  // ---- the watermarks are what was acknowledged

  predicate AllSaved(es: seq<Step>) {
    forall i :: 0 <= i < |es| && es[i].ToPoll? ==> es[i].poll.saved
  }

  ghost predicate MarksTrue(s: State) {
    forall t :: MarkOf(s.watermarks, t) == Mark(s.log, t)
  }

  lemma RaiseMarks(s: State, t: Id, trigger: Trigger)
    requires MarksTrue(s)
    ensures MarksTrue(Raise(s, t, trigger))
  {
    hide Added, MarkOf, Mark;
    if s.memory.Some? {
      forall u ensures Mark(s.log + [Raised(t, trigger, s.next)], u) == Mark(s.log, u) {
        MarkOther(s.log, Raised(t, trigger, s.next), u);
      }
    }
  }

  lemma {:induction false} RaiseAllMarks(s: State, targets: seq<Target>, news: News, trigger: Trigger)
    requires MarksTrue(s)
    ensures MarksTrue(RaiseAll(s, targets, news, trigger))
  {
    hide MarksTrue, Raise;
    if targets != [] {
      RaiseAllMarks(s, targets[..|targets| - 1], news, trigger);
      RaiseMarks(RaiseAll(s, targets[..|targets| - 1], news, trigger), targets[|targets| - 1].id, trigger);
    }
  }

  lemma {:induction false} AckAllMarks(s: State, acks: seq<Id>)
    requires Inv(s) && s.memory.Some? && MarksTrue(s)
    ensures MarksTrue(AckAll(s, acks))
  {
    hide Stands, Unacked, Marked, Mark, MarkOf;
    if acks != [] {
      var id := acks[|acks| - 1];
      var before := AckAll(s, acks[..|acks| - 1]);
      AckAllInv(s, acks[..|acks| - 1]);
      AckAllMarks(s, acks[..|acks| - 1]);
      forall t
        ensures MarkOf(Marked(before.watermarks, PendingOf(before), id), t) == Mark(before.log + [Acked(id)], t)
      {
        Instance(before.log, PendingOf(before), t);
        MarkedIsMark(before.log, PendingOf(before), before.watermarks, id, t);
      }
    }
  }

  lemma CatchUpOneMarks(s: State, target: Target, view: View)
    requires MarksTrue(s)
    ensures MarksTrue(CatchUpLane(CatchUpInbox(s, target, view), target, view))
  {
    hide MarksTrue, Raise;
    if InboxWaits(s.watermarks, target, view) {
      var (first, last) := view.inboxes[target.inbox];
      RaiseMarks(s, target.id, Trigger(Inbox, first));
      RaiseMarks(Raise(s, target.id, Trigger(Inbox, first)), target.id, Trigger(Inbox, last));
    }
    var s1 := CatchUpInbox(s, target, view);
    if LaneWaits(s1.watermarks, target, view) { RaiseMarks(s1, target.id, Trigger(Assistant, view.lanes[target.tv])); }
  }

  lemma {:induction false} CatchUpMarks(s: State, targets: seq<Target>, view: View)
    requires MarksTrue(s)
    ensures MarksTrue(CatchUp(s, targets, view))
  {
    hide MarksTrue, CatchUpLane, CatchUpInbox;
    if targets != [] {
      CatchUpMarks(s, targets[..|targets| - 1], view);
      CatchUpOneMarks(CatchUp(s, targets[..|targets| - 1], view), targets[|targets| - 1], view);
    }
  }

  lemma EntryMarks(s: State, s': State, e: Entry)
    requires MarksTrue(s) && !e.Acked? && s'.watermarks == s.watermarks && (s'.log == s.log || s'.log == s.log + [e])
    ensures MarksTrue(s')
  {
    hide Mark, MarkOf;
    forall t ensures Mark(s'.log, t) == Mark(s.log, t) { MarkOther(s.log, e, t); }
  }

  lemma StepMarks(s: State, e: Step)
    requires Inv(s) && MarksTrue(s) && (e.ToPoll? ==> e.poll.saved)
    ensures MarksTrue(Next(s, e))
  {
    hide Inv, MarksTrue, RaiseAll, AckAll, CatchUp;
    match e {
      case Notify(news, at) =>
        if Leased(s, at) { RaiseAllMarks(s, s.memory.value.targets, news, Trigger(SourceOf(news), at)); }
      case ToPoll(p) =>
        EntryMarks(s, Registered(s, p), Retained(IdsOf(p.targets)));
        RegisteredInv(s, p);
        AckAllMarks(Registered(s, p), p.acks);
        CatchUpMarks(AckAll(Registered(s, p), p.acks), p.targets, p.view);
      case Restart => EntryMarks(s, Next(s, e), Forgotten);
    }
  }

  /** With every snapshot stored, a target's watermark is exactly the latest trigger an acknowledgement ever cleared. */
  lemma {:induction false} WatermarksAreAcked(es: seq<Step>)
    requires AllSaved(es)
    ensures MarksTrue(After(es))
  {
    hide Next, Inv;
    if es != [] {
      var front := es[..|es| - 1];
      WatermarksAreAcked(front);
      PendingIsOutstanding(front);
      StepMarks(After(front), es[|es| - 1]);
    }
  }

  // ---- catching up

  /** The latest trigger a target's controller has acknowledged, if any. */
  function Seen(marks: Marks, t: Id): nat {
    if t in marks then marks[t] else 0
  }

  /** The oldest and the newest message of a target's inbox, once the newest came after what was acknowledged. */
  function InboxDue(marks: Marks, target: Target, view: View): seq<Trigger> {
    if target.tv in view.online || target.inbox !in view.inboxes then []
    else
      var (first, last) := view.inboxes[target.inbox];
      if last <= Seen(marks, target.id) then []
      else if last == first then [Trigger(Inbox, first)]
      else [Trigger(Inbox, first), Trigger(Inbox, last)]
  }

  /** The newest request in the lane of a target's TV, on the same terms. */
  function LaneDue(marks: Marks, target: Target, view: View): seq<Trigger> {
    if target.tv in view.online || target.tv !in view.lanes || view.lanes[target.tv] <= Seen(marks, target.id) then []
    else [Trigger(Assistant, view.lanes[target.tv])]
  }

  function Due(marks: Marks, target: Target, view: View): seq<Trigger> {
    InboxDue(marks, target, view) + LaneDue(marks, target, view)
  }

  lemma RaiseOutstanding(s: State, t: Id, trigger: Trigger, u: Id)
    requires s.memory.Some?
    ensures Raise(s, t, trigger).memory.Some? && Raise(s, t, trigger).watermarks == s.watermarks
    ensures Outstanding(Raise(s, t, trigger).log, u) == Outstanding(s.log, u) + if t == u then [trigger] else []
  {
    Front(s.log, Raised(t, trigger, s.next));
    assert Outstanding(s.log, u) + [] == Outstanding(s.log, u);
  }

  lemma CatchUpOneOutstanding(s: State, target: Target, view: View, u: Id)
    requires s.memory.Some?
    ensures var s' := CatchUpLane(CatchUpInbox(s, target, view), target, view);
            && s'.memory.Some? && s'.watermarks == s.watermarks
            && Outstanding(s'.log, u) == Outstanding(s.log, u)
               + if target.id == u then Due(s.watermarks, target, view) else []
  {
    hide Raise, Outstanding;
    var t := target.id;
    if InboxWaits(s.watermarks, target, view) {
      var (first, last) := view.inboxes[target.inbox];
      RaiseOutstanding(s, t, Trigger(Inbox, first), u);
      RaiseOutstanding(Raise(s, t, Trigger(Inbox, first)), t, Trigger(Inbox, last), u);
    }
    var s1 := CatchUpInbox(s, target, view);
    if LaneWaits(s1.watermarks, target, view) { RaiseOutstanding(s1, t, Trigger(Assistant, view.lanes[target.tv]), u); }
  }

  /** Catching up adds to each target exactly what is due to it, and nothing to any other. */
  lemma {:induction false} CatchUpOutstanding(s: State, targets: seq<Target>, view: View, k: nat, u: Id)
    requires s.memory.Some? && UniqueIds(targets) && (k < |targets| ==> targets[k].id == u)
    requires k >= |targets| ==> u !in IdsOf(targets)
    ensures CatchUp(s, targets, view).memory.Some? && CatchUp(s, targets, view).watermarks == s.watermarks
    ensures Outstanding(CatchUp(s, targets, view).log, u)
            == Outstanding(s.log, u)
               + if k < |targets| then Due(s.watermarks, targets[k], view) else []
  {
    hide CatchUpLane, CatchUpInbox, Outstanding, Due;
    if targets == [] {
      assert Outstanding(s.log, u) + [] == Outstanding(s.log, u);
    } else {
      var last := |targets| - 1;
      var front := targets[..last];
      assert u in IdsOf(front) ==> u in IdsOf(targets) by {
        if u in IdsOf(front) { var i :| 0 <= i < last && front[i].id == u; assert targets[i].id == u; }
      }
      assert k == last ==> u !in IdsOf(front);
      assert targets[last].id == u ==> k == last by { assert targets[last].id in IdsOf(targets); }
      CatchUpOutstanding(s, front, view, k, u);
      CatchUpOneOutstanding(CatchUp(s, front, view), targets[last], view, u);
    }
  }

  /** A poll registers anew: after a restart, after a lapse, or with other targets. */
  predicate Anew(s: State, p: Poll) {
    match s.memory
    case None => true
    case Some(r) => r.targets != p.targets || r.leaseUntil <= p.now
  }

  function AckEntries(acks: seq<Id>): Log {
    seq(|acks|, i requires 0 <= i < |acks| => Acked(acks[i]))
  }

  /** What a poll enters in the log before it catches up: whom it registers, if anew, and its acknowledgements. */
  function PollEntries(s: State, p: Poll): Log {
    (if Anew(s, p) then [Retained(IdsOf(p.targets))] else []) + AckEntries(p.acks)
  }

  lemma {:induction false} AckAllLog(s: State, acks: seq<Id>)
    requires s.memory.Some?
    ensures AckAll(s, acks).log == s.log + AckEntries(acks)
    ensures AckAll(s, acks).memory.value.targets == s.memory.value.targets
    ensures AckAll(s, acks).memory.value.leaseUntil == s.memory.value.leaseUntil
    ensures AckAll(s, acks).memory.value.registeredAt == s.memory.value.registeredAt
  {
    hide Unacked, Marked;
    if acks != [] {
      AckAllLog(s, acks[..|acks| - 1]);
      assert AckEntries(acks) == AckEntries(acks[..|acks| - 1]) + [Acked(acks[|acks| - 1])];
    }
  }

  /**
    A poll that registers anew, after a lapse or with other targets, raises again the newest request queued in a
    target's lane exactly when it arrived after the target's watermark and the TV is offline, beside what its inbox
    holds on the same terms; a poll that only renews the lease raises nothing.
   */
  lemma CatchUpExact(s: State, p: Poll, k: nat)
    requires UniqueIds(p.targets) && k < |p.targets|
    ensures Registered(s, p).memory.Some?
    ensures var target := p.targets[k];
            var marks := AckAll(Registered(s, p), p.acks).watermarks;
            Outstanding(Polled(s, p).log, target.id)
            == Outstanding(s.log + PollEntries(s, p), target.id)
               + if Anew(s, p) then Due(marks, target, p.view) else []
  {
    hide AckAll, CatchUp, Outstanding, Due, Kept, IdsOf;
    var acked := AckAll(Registered(s, p), p.acks);
    AckAllLog(Registered(s, p), p.acks);
    assert acked.log == s.log + PollEntries(s, p);
    if Changed(s, p) {
      CatchUpOutstanding(acked, p.targets, p.view, k, p.targets[k].id);
    } else {
      assert Outstanding(acked.log, p.targets[k].id) + [] == Outstanding(acked.log, p.targets[k].id);
    }
  }

  // ---- news

  /** The news is for target `u`: in the lane of its TV, or in its inbox while its TV is offline. */
  ghost predicate IsFor(targets: seq<Target>, news: News, u: Id) {
    exists k :: 0 <= k < |targets| && targets[k].id == u && Concerns(targets[k], news)
  }

  predicate Concerns(target: Target, news: News) {
    || (news.InLane? && target.tv == news.lane)
    || (news.InInbox? && target.inbox == news.inbox && target.tv !in news.online)
  }

  lemma {:induction false} RaiseAllOutstanding(s: State, targets: seq<Target>, news: News, trigger: Trigger, u: Id)
    requires s.memory.Some? && UniqueIds(targets)
    ensures RaiseAll(s, targets, news, trigger).memory.Some?
    ensures Outstanding(RaiseAll(s, targets, news, trigger).log, u)
            == Outstanding(s.log, u) + if IsFor(targets, news, u) then [trigger] else []
  {
    hide Raise, Outstanding;
    if targets == [] {
      assert Outstanding(s.log, u) + [] == Outstanding(s.log, u);
    } else {
      var last := |targets| - 1;
      var front := targets[..last];
      RaiseAllOutstanding(s, front, news, trigger, u);
      RaiseOutstanding(RaiseAll(s, front, news, trigger), targets[last].id, trigger, u);
      IsForSnoc(targets, news, u);
    }
  }

  lemma IsForSnoc(targets: seq<Target>, news: News, u: Id)
    requires targets != [] && UniqueIds(targets)
    ensures var last := |targets| - 1;
            var here := targets[last].id == u && Concerns(targets[last], news);
            && (IsFor(targets, news, u) <==> IsFor(targets[..last], news, u) || here)
            && !(IsFor(targets[..last], news, u) && here)
  {
    var last := |targets| - 1;
    var front := targets[..last];
    if IsFor(front, news, u) {
      var k :| 0 <= k < |front| && front[k].id == u && Concerns(front[k], news);
      assert targets[k] == front[k] && targets[k].id != targets[last].id;
    }
    if IsFor(targets, news, u) {
      var k :| 0 <= k < |targets| && targets[k].id == u && Concerns(targets[k], news);
      if k < last { assert front[k] == targets[k]; }
    }
  }

  /**
    News at `at` leaves one trigger more outstanding for a target, of its own source and time, exactly when the lease
    runs past `at` and the news is for that target; nothing else it leaves outstanding changes.
   */
  lemma NewsExact(s: State, news: News, at: nat, u: Id)
    requires s.memory.Some? ==> UniqueIds(s.memory.value.targets)
    ensures var due := s.memory.Some? && s.memory.value.leaseUntil > at && IsFor(s.memory.value.targets, news, u);
            Outstanding(Notified(s, news, at).log, u)
            == Outstanding(s.log, u)
               + if due then [Trigger(if news.InLane? then Assistant else Inbox, at)] else []
  {
    hide RaiseAll, Outstanding, IsFor;
    if Leased(s, at) {
      RaiseAllOutstanding(s, s.memory.value.targets, news, Trigger(SourceOf(news), at), u);
    } else {
      assert Outstanding(s.log, u) + [] == Outstanding(s.log, u);
    }
  }

  lemma {:induction false} CatchUpRegistration(s: State, targets: seq<Target>, view: View)
    requires s.memory.Some?
    ensures CatchUp(s, targets, view).memory.Some?
    ensures CatchUp(s, targets, view).memory.value == s.memory.value.(pending := PendingOf(CatchUp(s, targets, view)))
  {
    hide Added, InboxWaits, LaneWaits;
    if targets != [] { CatchUpRegistration(s, targets[..|targets| - 1], view); }
  }

  /** A poll leases its targets for a minute: news for them reaches the controller until then, and not after. */
  lemma PollLeases(s: State, p: Poll, news: News, at: nat, u: Id)
    requires UniqueIds(p.targets)
    ensures var s' := Polled(s, p);
            && s'.memory.Some? && s'.memory.value.targets == p.targets
            && s'.memory.value.leaseUntil == p.now + 60_000
            && s'.memory.value.registeredAt == (if Anew(s, p) then p.now else s.memory.value.registeredAt)
            && Outstanding(Notified(s', news, at).log, u)
               == Outstanding(s'.log, u)
                  + if at < p.now + 60_000 && IsFor(p.targets, news, u)
                    then [Trigger(if news.InLane? then Assistant else Inbox, at)] else []
  {
    hide AckAll, CatchUp, Outstanding, IsFor, Kept, IdsOf, Notified;
    var acked := AckAll(Registered(s, p), p.acks);
    AckAllLog(Registered(s, p), p.acks);
    CatchUpRegistration(acked, p.targets, p.view);
    NewsExact(Polled(s, p), news, at, u);
  }
}

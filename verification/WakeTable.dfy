/** A wake controller's registration, pending table and watermarks, updated in place. */
module WakeTable {
  import opened Results
  import opened Bytes
  import opened WakeEvents
  import opened WakeController

  function Visited(pending: Pending, keys: set<Id>): Pending {
    map t | t in pending && t !in keys :: pending[t]
  }

  lemma MarkedStep(marks: Marks, pending: Pending, id: Id, keys: set<Id>, t: Id)
    requires t in pending && t in keys
    ensures var before := Marked(marks, Visited(pending, keys), id);
            var after := Marked(marks, Visited(pending, keys - {t}), id);
            after == if pending[t].id == id then before[t := Max(MarkOf(before, t), pending[t].last)] else before
  {
  }

  lemma VisitedAll(pending: Pending)
    ensures Visited(pending, {}) == pending
  {
  }

  lemma VisitedNone(pending: Pending, marks: Marks, id: Id)
    ensures Marked(marks, Visited(pending, pending.Keys), id) == marks
  {
  }

  /** `pending.retain`: the events an acknowledgement names go, each moving its target's watermark. */
  method Retain(pending: Pending, marks: Marks, id: Id) returns (rest: Pending, moved: Marks)
    ensures rest == Unacked(pending, id) && moved == Marked(marks, pending, id)
  {
    hide Marked, MarkOf;
    rest, moved := pending, marks;
    var keys := pending.Keys;
    VisitedNone(pending, marks, id);
    while keys != {}
      invariant keys <= pending.Keys
      invariant forall t :: t in rest <==> t in pending && (t in keys || pending[t].id != id)
      invariant forall t :: t in rest ==> rest[t] == pending[t]
      invariant moved == Marked(marks, Visited(pending, keys), id)
      decreases |keys|
    {
      var t :| t in keys;
      MarkedStep(marks, pending, id, keys, t);
      if rest[t].id == id {
        moved := moved[t := Max(MarkOf(moved, t), rest[t].last)];
        rest := rest - {t};
      }
      keys := keys - {t};
    }
    VisitedAll(pending);
  }

  class Controller {
    var registered: bool
    var targets: seq<Target>
    var leaseUntil: nat
    var registeredAt: nat
    var pending: Pending
    var generation: nat
    var watermarks: Marks
    var next: Id
    ghost var log: Log

    ghost function Model(): State
      reads this
    {
      State(if registered then Some(Registration(targets, leaseUntil, registeredAt, pending, generation)) else None,
            watermarks, next, log)
    }

    /** `add_event`. */
    method AddEvent(t: Id, source: Source, at: nat)
      requires registered
      modifies this`pending, this`next, this`log
      ensures registered && Model() == Raise(old(Model()), t, Trigger(source, at))
    {
      var id := next;
      if t in pending {
        var current := pending[t];
        pending := pending[t := Event(id, current.sources + {source}, Min(current.first, at), Max(current.last, at))];
      } else {
        pending := pending[t := Event(id, {source}, at, at)];
      }
      next := next + 1;
      log := log + [Raised(t, Trigger(source, at), id)];
    }

    /** `notify_assistant` and `notify_inbox`, on one controller. */
    method Notify(news: News, at: nat)
      modifies this
      ensures Model() == Notified(old(Model()), news, at)
    {
      if !registered || leaseUntil <= at { return; }
      ghost var was := Model();
      var listed := targets;
      assert listed[..0] == [];
      for i := 0 to |listed|
        invariant registered && Model() == RaiseAll(was, listed[..i], news, Trigger(SourceOf(news), at))
      {
        assert listed[..i + 1][..i] == listed[..i];
        if Wants(listed[i], news) { AddEvent(listed[i].id, SourceOf(news), at); }
      }
      assert listed[..|listed|] == listed;
    }

    /** The lease, the targets and the generation of a poll. */
    method Register(p: Poll) returns (changed: bool)
      modifies this
      ensures registered && changed == Changed(old(Model()), p) && Model() == Registered(old(Model()), p)
    {
      changed := !registered || targets != p.targets || leaseUntil <= p.now;
      if !registered {
        registered, pending, generation := true, map[], 0;
      }
      if changed {
        targets, registeredAt := p.targets, p.now;
        pending := Kept(pending, IdsOf(p.targets));
        log := log + [Retained(IdsOf(p.targets))];
      }
      leaseUntil := p.now + LEASE_MS;
      generation := (generation + 1) % U64_LIMIT;
    }

    /** One acknowledgement. */
    method Ack(id: Id)
      requires registered
      modifies this`pending, this`watermarks, this`log
      ensures registered && Model() == AckOne(old(Model()), id)
    {
      pending, watermarks := Retain(pending, watermarks, id);
      log := log + [Acked(id)];
    }

    method AckEach(acks: seq<Id>)
      requires registered
      modifies this
      ensures registered && Model() == AckAll(old(Model()), acks)
    {
      ghost var was := Model();
      assert acks[..0] == [];
      for i := 0 to |acks|
        invariant registered && Model() == AckAll(was, acks[..i])
      {
        assert acks[..i + 1][..i] == acks[..i];
        Ack(acks[i]);
      }
      assert acks[..|acks|] == acks;
    }

    method CatchUpEach(listed: seq<Target>, view: View)
      requires registered
      modifies this
      ensures registered && Model() == CatchUp(old(Model()), listed, view)
    {
      ghost var was := Model();
      assert listed[..0] == [];
      for i := 0 to |listed|
        invariant registered && Model() == CatchUp(was, listed[..i], view)
      {
        assert listed[..i + 1][..i] == listed[..i];
        var target := listed[i];
        if target.tv !in view.online && target.inbox in view.inboxes {
          var (first, last) := view.inboxes[target.inbox];
          if last > MarkOf(watermarks, target.id) {
            AddEvent(target.id, Inbox, first);
            if last != first { AddEvent(target.id, Inbox, last); }
          }
        }
        if target.tv !in view.online && target.tv in view.lanes
            && view.lanes[target.tv] > MarkOf(watermarks, target.id) {
          AddEvent(target.id, Assistant, view.lanes[target.tv]);
        }
      }
      assert listed[..|listed|] == listed;
    }

    /** The poll step: registration, acknowledgements, catching up, and the snapshot that may fail to be stored. */
    method PollStep(p: Poll)
      modifies this
      ensures registered && Model() == Polled(old(Model()), p)
    {
      hide Registered, AckAll, CatchUp;
      var stored := watermarks;
      var changed := Register(p);
      AckEach(p.acks);
      if changed { CatchUpEach(p.targets, p.view); }
      if !p.saved { watermarks := stored; }
    }
  }
}

/**
  Coalesced wake events: one pending event per target, given a new id by every trigger, so that acknowledging an id
  clears only what had arrived when that id was reported. The history of a controller is a log; what a target has
  outstanding is read off the log alone, and the pending table is proved to be its summary.
 */
module WakeEvents {
  import opened Results

  /** Opaque identifiers, only ever compared. Event ids are random; they are modelled as never given out twice. */
  type Id = nat

  datatype Source = Inbox | Assistant

  datatype Event = Event(id: Id, sources: set<Source>, first: nat, last: nat)

  datatype Trigger = Trigger(source: Source, at: nat)

  datatype Entry =
    | Raised(target: Id, trigger: Trigger, id: Id)
    | Acked(id: Id)
    | Retained(targets: set<Id>)
    | Forgotten

  type Log = seq<Entry>

  // ---- read off the log

  /** The id a target's event was last given. */
  function LastId(log: Log, t: Id): Option<Id> {
    if log == [] then None
    else
      var e := log[|log| - 1];
      if e.Raised? && e.target == t then Some(e.id) else LastId(log[..|log| - 1], t)
  }

  /** The triggers that arrived since the last acknowledgement of everything there was, oldest first. */
  function Outstanding(log: Log, t: Id): seq<Trigger> {
    if log == [] then []
    else
      var before := Outstanding(log[..|log| - 1], t);
      match log[|log| - 1]
      case Raised(target, trigger, _) => if target == t then before + [trigger] else before
      case Acked(id) => if LastId(log[..|log| - 1], t) == Some(id) then [] else before
      case Retained(targets) => if t in targets then before else []
      case Forgotten => []
  }

  /** The latest trigger ever cleared for a target by an acknowledgement. */
  function Mark(log: Log, t: Id): nat {
    if log == [] then 0
    else
      var front := log[..|log| - 1];
      var e := log[|log| - 1];
      if e.Acked? && LastId(front, t) == Some(e.id) then Max(Mark(front, t), Latest(Outstanding(front, t)))
      else Mark(front, t)
  }

  function Max(a: nat, b: nat): nat { if a < b then b else a }
  function Min(a: nat, b: nat): nat { if b < a then b else a }

  function Latest(o: seq<Trigger>): nat {
    if o == [] then 0 else Max(Latest(o[..|o| - 1]), o[|o| - 1].at)
  }

  /** The event says of the triggers what they all are together. */
  ghost predicate Summarises(e: Event, o: seq<Trigger>) {
    && o != []
    && (forall source :: source in e.sources <==> exists i :: 0 <= i < |o| && o[i].source == source)
    && (forall i :: 0 <= i < |o| ==> e.first <= o[i].at <= e.last)
    && (exists i :: 0 <= i < |o| && o[i].at == e.first)
    && (exists i :: 0 <= i < |o| && o[i].at == e.last)
  }

  // ---- the pending table

  type Pending = map<Id, Event>

  /** `add_event`. */
  function Added(pending: Pending, t: Id, trigger: Trigger, id: Id): Pending {
    if t in pending then
      var e := pending[t];
      pending[t := Event(id, e.sources + {trigger.source}, Min(e.first, trigger.at), Max(e.last, trigger.at))]
    else pending[t := Event(id, {trigger.source}, trigger.at, trigger.at)]
  }

  /** The events an acknowledgement does not name. */
  function Unacked(pending: Pending, id: Id): Pending {
    map t | t in pending && pending[t].id != id :: pending[t]
  }

  type Marks = map<Id, nat>

  function MarkOf(marks: Marks, t: Id): nat {
    if t in marks then marks[t] else 0
  }

  /** The watermarks after an acknowledgement: each target it clears moves to its event's last time, never back. */
  function Marked(marks: Marks, pending: Pending, id: Id): Marks {
    map t | t in marks.Keys + pending.Keys && (t in marks || pending[t].id == id)
      :: if t in pending && pending[t].id == id then Max(MarkOf(marks, t), pending[t].last) else marks[t]
  }

  function Kept(pending: Pending, targets: set<Id>): Pending {
    map t | t in pending && t in targets :: pending[t]
  }

  /** The table is exactly the summary of what the log leaves outstanding. */
  ghost predicate TargetStands(log: Log, pending: Pending, t: Id) {
    && (t in pending <==> Outstanding(log, t) != [])
    && (t in pending ==> Summarises(pending[t], Outstanding(log, t)) && LastId(log, t) == Some(pending[t].id))
  }

  ghost predicate Stands(log: Log, pending: Pending) {
    forall t :: TargetStands(log, pending, t)
  }

  /** Ids are given out once each: every id in the log is below the next, and later ones are larger. */
  predicate IdsRise(log: Log, next: Id) {
    && (forall i :: 0 <= i < |log| && log[i].Raised? ==> log[i].id < next)
    && (forall i, j :: 0 <= i < j < |log| && log[i].Raised? && log[j].Raised? ==> log[i].id < log[j].id)
  }

  // ---- each entry

  lemma Front(log: Log, e: Entry)
    ensures (log + [e])[..|log + [e]| - 1] == log && (log + [e])[|log + [e]| - 1] == e
  {
  }

  lemma LastIdRaised(log: Log, target: Id, trigger: Trigger, id: Id, t: Id)
    ensures LastId(log + [Raised(target, trigger, id)], t) == if target == t then Some(id) else LastId(log, t)
  {
    Front(log, Raised(target, trigger, id));
  }

  lemma LastIdOther(log: Log, e: Entry, t: Id)
    requires !e.Raised?
    ensures LastId(log + [e], t) == LastId(log, t)
  {
    Front(log, e);
  }

  lemma SummaryGrows(e: Event, o: seq<Trigger>, trigger: Trigger, id: Id)
    requires Summarises(e, o)
    ensures Summarises(Event(id, e.sources + {trigger.source}, Min(e.first, trigger.at), Max(e.last, trigger.at)),
            o + [trigger])
  {
    var o' := o + [trigger];
    assert forall i :: 0 <= i < |o| ==> o'[i] == o[i];
    assert o'[|o|] == trigger;
  }

  lemma SummaryStarts(trigger: Trigger, id: Id)
    ensures Summarises(Event(id, {trigger.source}, trigger.at, trigger.at), [] + [trigger])
  {
    assert ([] + [trigger])[0] == trigger;
  }

  lemma RaisedStands(log: Log, pending: Pending, target: Id, trigger: Trigger, id: Id)
    requires Stands(log, pending)
    ensures Stands(log + [Raised(target, trigger, id)], Added(pending, target, trigger, id))
  {
    hide LastId, Summarises, Stands;
    var entry := Raised(target, trigger, id);
    var log' := log + [entry];
    var pending' := Added(pending, target, trigger, id);
    forall t ensures TargetStands(log', pending', t) {
      Front(log, entry);
      LastIdRaised(log, target, trigger, id, t);
      assert TargetStands(log, pending, t) by { Instance(log, pending, t); }
      if t == target {
        if t in pending {
          SummaryGrows(pending[t], Outstanding(log, t), trigger, id);
        } else {
          SummaryStarts(trigger, id);
        }
      }
    }
    Collect(log', pending');
  }

  lemma Instance(log: Log, pending: Pending, t: Id)
    requires Stands(log, pending)
    ensures TargetStands(log, pending, t)
  {
  }

  lemma Collect(log: Log, pending: Pending)
    requires forall t :: TargetStands(log, pending, t)
    ensures Stands(log, pending)
  {
  }

  lemma AckedStands(log: Log, pending: Pending, id: Id)
    requires Stands(log, pending)
    ensures Stands(log + [Acked(id)], Unacked(pending, id))
  {
    hide LastId, Summarises, Stands;
    var log' := log + [Acked(id)];
    forall t ensures TargetStands(log', Unacked(pending, id), t) {
      Front(log, Acked(id));
      LastIdOther(log, Acked(id), t);
      Instance(log, pending, t);
    }
    Collect(log', Unacked(pending, id));
  }

  lemma RetainedStands(log: Log, pending: Pending, targets: set<Id>)
    requires Stands(log, pending)
    ensures Stands(log + [Retained(targets)], Kept(pending, targets))
  {
    hide LastId, Summarises, Stands;
    var log' := log + [Retained(targets)];
    forall t ensures TargetStands(log', Kept(pending, targets), t) {
      Front(log, Retained(targets));
      LastIdOther(log, Retained(targets), t);
      Instance(log, pending, t);
    }
    Collect(log', Kept(pending, targets));
  }

  lemma ForgottenStands(log: Log)
    ensures Stands(log + [Forgotten], map[])
  {
    forall t ensures TargetStands(log + [Forgotten], map[], t) { Front(log, Forgotten); }
  }

  // ---- the watermarks

  lemma {:induction false} LatestIs(o: seq<Trigger>, last: nat)
    requires o != [] && (forall i :: 0 <= i < |o| ==> o[i].at <= last) && (exists i :: 0 <= i < |o| && o[i].at == last)
    ensures Latest(o) == last
  {
    LatestBounds(o);
    var i :| 0 <= i < |o| && o[i].at == last;
    assert o[i].at <= Latest(o);
  }

  lemma {:induction false} LatestBounds(o: seq<Trigger>)
    ensures forall i :: 0 <= i < |o| ==> o[i].at <= Latest(o)
    ensures o != [] ==> exists i :: 0 <= i < |o| && o[i].at == Latest(o)
  {
    if o != [] {
      var front := o[..|o| - 1];
      LatestBounds(front);
      assert forall i :: 0 <= i < |front| ==> front[i] == o[i];
      if Latest(front) <= o[|o| - 1].at {
        assert o[|o| - 1].at == Latest(o);
      } else {
        var i :| 0 <= i < |front| && front[i].at == Latest(front);
        assert o[i].at == Latest(o);
      }
    }
  }

  /** An acknowledgement moves each watermark to the latest trigger it clears, as the log has it. */
  lemma MarkedIsMark(log: Log, pending: Pending, marks: Marks, id: Id, t: Id)
    requires TargetStands(log, pending, t) && MarkOf(marks, t) == Mark(log, t)
    ensures MarkOf(Marked(marks, pending, id), t) == Mark(log + [Acked(id)], t)
  {
    Front(log, Acked(id));
    if t in pending {
      LatestIs(Outstanding(log, t), pending[t].last);
    } else {
      assert Latest([]) == 0;
    }
  }

  lemma MarkOther(log: Log, e: Entry, t: Id)
    requires !e.Acked?
    ensures Mark(log + [e], t) == Mark(log, t)
  {
    Front(log, e);
  }

  lemma MarkedGrows(marks: Marks, pending: Pending, id: Id, t: Id)
    ensures MarkOf(marks, t) <= MarkOf(Marked(marks, pending, id), t)
  {
  }

  // ---- nothing newer is swallowed

  /** The entry neither forgets the target nor acknowledges a trigger of it raised at or after position `from`. */
  predicate Spares(log: Log, from: nat, t: Id, e: Entry) {
    match e
    case Raised(_, _, _) => true
    case Acked(id) => forall j :: from <= j < |log| && log[j].Raised? && log[j].target == t ==> log[j].id != id
    case Retained(targets) => t in targets
    case Forgotten => false
  }

  /** Since position `from`, nothing that could clear the trigger raised there has come. */
  predicate Spared(log: Log, from: nat, t: Id)
    decreases |log|
  {
    from + 1 >= |log| || (Spares(log[..|log| - 1], from, t, log[|log| - 1]) && Spared(log[..|log| - 1], from, t))
  }

  lemma {:induction false} LastIdSince(log: Log, from: nat, t: Id)
    requires from < |log| && log[from].Raised? && log[from].target == t
    ensures LastId(log, t).Some?
    ensures exists j :: from <= j < |log| && log[j].Raised? && log[j].target == t && LastId(log, t) == Some(log[j].id)
    decreases |log|
  {
    var last := |log| - 1;
    if log[last].Raised? && log[last].target == t {
      assert LastId(log, t) == Some(log[last].id);
    } else {
      LastIdSince(log[..last], from, t);
      var j :| from <= j < last && log[..last][j].Raised? && log[..last][j].target == t
          && LastId(log[..last], t) == Some(log[..last][j].id);
      assert log[j] == log[..last][j];
    }
  }

  /**
    A trigger stays outstanding until the target is dropped or an id issued for it at or after the trigger is
    acknowledged: acknowledging an older id never swallows it.
   */
  lemma {:induction false} NeverSwallowed(log: Log, from: nat, t: Id)
    requires from < |log| && log[from].Raised? && log[from].target == t && Spared(log, from, t)
    ensures log[from].trigger in Outstanding(log, t)
    decreases |log|
  {
    var last := |log| - 1;
    if from < last {
      var front := log[..last];
      assert front[from] == log[from];
      NeverSwallowed(front, from, t);
      if log[last].Acked? {
        LastIdSince(front, from, t);
        var j :| from <= j < |front| && front[j].Raised? && front[j].target == t
            && LastId(front, t) == Some(front[j].id);
        assert front[j].id != log[last].id;
      }
    }
  }

  /** An id given out before a trigger can be acknowledged after it without touching it. */
  lemma OlderIdSpares(log: Log, next: Id, older: nat, from: nat, t: Id)
    requires IdsRise(log, next) && older < from <= |log| && log[older].Raised?
    ensures Spares(log, from, t, Acked(log[older].id))
  {
  }
}

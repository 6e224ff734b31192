/**
  Held requests: the places of one route, each charged to an owner and woken by a write to any of its keys. A hold
  is known by its id; `permits` is the set of holds whose `Notify` keeps a wake-up for a wait still to come.
 */
module Holds {

  datatype State = State(
    waiting: map<string, seq<nat>>,
    owners: map<string, nat>,
    active: map<nat, string>,
    total: nat,
    next: nat)

  const EMPTY := State(map[], map[], map[], 0, 0)

  datatype Caps = Caps(total: nat, perOwner: nat)

  /** One held request's place, as its guard remembers it. */
  datatype Hold = Hold(id: nat, owner: string, keys: seq<string>)

  function Count(owners: map<string, nat>, owner: string): nat {
    if owner in owners then owners[owner] else 0
  }

  // ---- what each operation does to the state

  predicate CapReached(s: State, caps: Caps, owner: string) {
    s.total >= caps.total || Count(s.owners, owner) >= caps.perOwner
  }

  function Enlist(waiting: map<string, seq<nat>>, keys: seq<string>, id: nat): map<string, seq<nat>> {
    if keys == [] then waiting
    else
      var w, k := Enlist(waiting, keys[..|keys| - 1], id), keys[|keys| - 1];
      w[k := (if k in w then w[k] else []) + [id]]
  }

  /** `hold`, once the caps allow it. */
  function Taken(s: State, owner: string, keys: seq<string>): State {
    var id := s.next + 1;
    State(Enlist(s.waiting, keys, id), s.owners[owner := Count(s.owners, owner) + 1], s.active[id := owner],
          s.total + 1, id)
  }

  function Without(ids: seq<nat>, gone: set<nat>): (r: seq<nat>)
    ensures forall x :: x in r <==> x in ids && x !in gone
  {
    if ids == [] then []
    else
      var rest := Without(ids[..|ids| - 1], gone);
      assert ids == ids[..|ids| - 1] + [ids[|ids| - 1]];
      if ids[|ids| - 1] in gone then rest else rest + [ids[|ids| - 1]]
  }

  function Delist(waiting: map<string, seq<nat>>, keys: seq<string>, id: nat): map<string, seq<nat>> {
    if keys == [] then waiting
    else
      var w, k := Delist(waiting, keys[..|keys| - 1], id), keys[|keys| - 1];
      if k !in w then w
      else if Without(w[k], {id}) == [] then w - {k}
      else w[k := Without(w[k], {id})]
  }

  /** `Drop for Hold`: nothing at all for a hold that is no longer active. */
  function Dropped(s: State, h: Hold): State {
    if h.id !in s.active then s
    else
      var owners := if h.owner !in s.owners then s.owners
                    else if s.owners[h.owner] <= 1 then s.owners - {h.owner}
                    else s.owners[h.owner := s.owners[h.owner] - 1];
      State(Delist(s.waiting, h.keys, h.id), owners, s.active - {h.id}, if s.total > 0 then s.total - 1 else 0, s.next)
  }

  function OwnedBy(active: map<nat, string>, owner: string): set<nat> {
    set id | id in active && active[id] == owner
  }

  /** The lists under `keys` without the ids that go; a list left empty goes too. */
  function Filtered(waiting: map<string, seq<nat>>, ids: set<nat>, keys: set<string>): map<string, seq<nat>> {
    map k | k in keys && k in waiting && Without(waiting[k], ids) != [] :: Without(waiting[k], ids)
  }

  /** `cancel_owner`. */
  function Cancelled(s: State, owner: string): State {
    var ids := OwnedBy(s.active, owner);
    if ids == {} then s
    else
      State(Filtered(s.waiting, ids, s.waiting.Keys),
            s.owners - {owner}, s.active - ids, if s.total >= |ids| then s.total - |ids| else 0, s.next)
  }

  /** The holds a write to `key` wakes. */
  function WokenBy(s: State, key: string): set<nat> {
    if key in s.waiting then set id | id in s.waiting[key] else {}
  }

  // ---- what every operation keeps

  /** The guards alive: handed out by `hold` and not dropped yet, cancelled or not. */
  type Guards = map<nat, Hold>

  /** The counters count the active holds, and the caps hold. */
  ghost predicate Counted(s: State, caps: Caps) {
    && s.total == |s.active| <= caps.total
    && forall o :: CountedOwner(s, caps, o)
  }

  ghost predicate CountedOwner(s: State, caps: Caps, o: string) {
    && (o in s.owners <==> OwnedBy(s.active, o) != {})
    && Count(s.owners, o) == |OwnedBy(s.active, o)| <= caps.perOwner
  }

  ghost predicate Guarded(s: State, guards: Guards) {
    && (forall id :: id in s.active ==> id in guards && guards[id].owner == s.active[id])
    && (forall id :: id in guards ==> id <= s.next && guards[id].id == id)
  }

  ghost predicate Consistent(s: State, caps: Caps, guards: Guards) {
    Counted(s, caps) && Guarded(s, guards) && Listed(s.waiting, s.active, guards)
  }

  /** The waiting lists name exactly the active holds, each under exactly its keys, and none is empty. */
  ghost predicate Listed(waiting: map<string, seq<nat>>, active: map<nat, string>, guards: Guards) {
    && (forall k :: k in waiting ==> waiting[k] != [])
    && (forall k, id :: k in waiting && id in waiting[k] ==> id in active && id in guards && k in guards[id].keys)
    && (forall id, k :: id in active && id in guards && k in guards[id].keys ==> k in waiting && id in waiting[k])
  }

  lemma {:induction false} EnlistSpec(waiting: map<string, seq<nat>>, keys: seq<string>, id: nat)
    requires forall k :: k in waiting ==> waiting[k] != []
    ensures var w := Enlist(waiting, keys, id);
            && (forall k :: k in w <==> k in waiting || k in keys)
            && (forall k :: k in w ==> w[k] != [])
            && (forall k, x :: k in w ==> (x in w[k] <==> (k in waiting && x in waiting[k]) || (k in keys && x == id)))
  {
    if keys != [] {
      EnlistSpec(waiting, keys[..|keys| - 1], id);
      assert keys == keys[..|keys| - 1] + [keys[|keys| - 1]];
    }
  }

  lemma {:induction false} DelistSpec(waiting: map<string, seq<nat>>, keys: seq<string>, id: nat)
    requires forall k :: k in waiting ==> waiting[k] != []
    ensures var w := Delist(waiting, keys, id);
            && (forall k :: k in w ==> k in waiting && w[k] != [])
            && (forall k, x :: k in w ==> (x in w[k] <==> x in waiting[k] && !(x == id && k in keys)))
            && (forall k, x :: k in waiting && x in waiting[k] && !(x == id && k in keys) ==> k in w)
  {
    if keys != [] {
      var init, key := keys[..|keys| - 1], keys[|keys| - 1];
      DelistSpec(waiting, init, id);
      assert keys == init + [key];
      var w, w' := Delist(waiting, init, id), Delist(waiting, keys, id);
      forall k, x | k in waiting && x in waiting[k] && !(x == id && k in keys)
        ensures k in w'
      {
        assert k in w && x in w[k];
        if k == key { assert x in Without(w[k], {id}); }
      }
    }
  }

  lemma TakenListed(s: State, owner: string, keys: seq<string>, guards: Guards)
    requires Listed(s.waiting, s.active, guards)
    requires s.next + 1 !in guards && s.next + 1 !in s.active
    ensures var h := Hold(s.next + 1, owner, keys);
            Listed(Taken(s, owner, keys).waiting, Taken(s, owner, keys).active, guards[h.id := h])
  {
    hide Enlist;
    EnlistSpec(s.waiting, keys, s.next + 1);
  }

  lemma DroppedListed(waiting: map<string, seq<nat>>, active: map<nat, string>, guards: Guards, h: Hold)
    requires Listed(waiting, active, guards)
    requires h.id in guards && guards[h.id] == h
    ensures Listed(Delist(waiting, h.keys, h.id), active - {h.id}, guards - {h.id})
  {
    hide Delist;
    DelistSpec(waiting, h.keys, h.id);
    var w, left := Delist(waiting, h.keys, h.id), guards - {h.id};
    forall k, id | k in w && id in w[k]
      ensures id in active - {h.id} && id in left && k in left[id].keys
    {
      assert k in waiting && id in waiting[k];
    }
    forall id, k | id in active - {h.id} && id in left && k in left[id].keys
      ensures k in w && id in w[k]
    {
      assert k in waiting && id in waiting[k];
    }
  }

  lemma TakenCounted(s: State, caps: Caps, owner: string, keys: seq<string>)
    requires Counted(s, caps) && !CapReached(s, caps, owner) && s.next + 1 !in s.active
    ensures Counted(Taken(s, owner, keys), caps)
  {
    hide Enlist, CountedOwner;
    assert Taken(s, owner, keys).active.Keys == s.active.Keys + {s.next + 1};
    forall o ensures CountedOwner(Taken(s, owner, keys), caps, o) {
      TakenCountedOwner(s, caps, owner, keys, o);
    }
  }

  lemma TakenCountedOwner(s: State, caps: Caps, owner: string, keys: seq<string>, o: string)
    requires CountedOwner(s, caps, o) && !CapReached(s, caps, owner) && s.next + 1 !in s.active
    ensures CountedOwner(Taken(s, owner, keys), caps, o)
  {
    hide Enlist;
    var id, active := s.next + 1, Taken(s, owner, keys).active;
    assert OwnedBy(active, o) == OwnedBy(s.active, o) + (if o == owner then {id} else {});
  }

  lemma FreshId(s: State, guards: Guards)
    requires Guarded(s, guards)
    ensures s.next + 1 !in guards && s.next + 1 !in s.active
  {
  }

  lemma TakenGuarded(s: State, guards: Guards, owner: string, keys: seq<string>)
    requires Guarded(s, guards)
    ensures var h := Hold(s.next + 1, owner, keys); Guarded(Taken(s, owner, keys), guards[h.id := h])
  {
    hide Enlist;
  }

  lemma TakenConsistent(s: State, caps: Caps, guards: Guards, owner: string, keys: seq<string>)
    requires Consistent(s, caps, guards) && !CapReached(s, caps, owner)
    ensures var h := Hold(s.next + 1, owner, keys); Consistent(Taken(s, owner, keys), caps, guards[h.id := h])
  {
    hide Listed, Guarded, Counted, Taken;
    FreshId(s, guards);
    TakenCounted(s, caps, owner, keys);
    TakenGuarded(s, guards, owner, keys);
    TakenListed(s, owner, keys, guards);
  }

  lemma DroppedCounted(s: State, caps: Caps, h: Hold)
    requires Counted(s, caps) && h.id in s.active && s.active[h.id] == h.owner
    ensures Counted(Dropped(s, h), caps)
    ensures Dropped(s, h).total == s.total - 1
    ensures forall o :: Count(Dropped(s, h).owners, o) == Count(s.owners, o) - (if o == h.owner then 1 else 0)
  {
    hide Delist, CountedOwner, Count;
    assert Dropped(s, h).active.Keys == s.active.Keys - {h.id};
    forall o
      ensures CountedOwner(Dropped(s, h), caps, o)
      ensures Count(Dropped(s, h).owners, o) == Count(s.owners, o) - (if o == h.owner then 1 else 0)
    {
      DroppedCountedOwner(s, caps, h, o);
    }
  }

  lemma DroppedCountedOwner(s: State, caps: Caps, h: Hold, o: string)
    requires CountedOwner(s, caps, o) && CountedOwner(s, caps, h.owner)
    requires h.id in s.active && s.active[h.id] == h.owner
    ensures CountedOwner(Dropped(s, h), caps, o)
    ensures Count(Dropped(s, h).owners, o) == Count(s.owners, o) - (if o == h.owner then 1 else 0)
  {
    hide Delist;
    assert h.id in OwnedBy(s.active, h.owner);
    assert OwnedBy(Dropped(s, h).active, o) == OwnedBy(s.active, o) - {h.id};
  }

  /** Dropping a guard, cancelled or not: a cancelled one gives back nothing. */
  lemma DroppedConsistent(s: State, caps: Caps, guards: Guards, h: Hold)
    requires Consistent(s, caps, guards) && h.id in guards && guards[h.id] == h
    ensures Consistent(Dropped(s, h), caps, guards - {h.id})
    ensures h.id !in s.active ==> Dropped(s, h) == s
    ensures h.id in s.active ==>
              && Dropped(s, h).total == s.total - 1
              && forall o :: Count(Dropped(s, h).owners, o) == Count(s.owners, o) - (if o == h.owner then 1 else 0)
  {
    hide Listed, Delist, Counted;
    if h.id in s.active {
      DroppedListed(s.waiting, s.active, guards, h);
      DroppedCounted(s, caps, h);
    } else {
      InactiveListed(s.waiting, s.active, guards, h.id);
    }
  }

  lemma InactiveListed(waiting: map<string, seq<nat>>, active: map<nat, string>, guards: Guards, id: nat)
    requires Listed(waiting, active, guards) && id !in active
    ensures Listed(waiting, active, guards - {id})
  {
  }

  lemma CancelledListed(s: State, guards: Guards, ids: set<nat>)
    requires Listed(s.waiting, s.active, guards)
    ensures Listed(Filtered(s.waiting, ids, s.waiting.Keys), s.active - ids, guards)
  {
    var w := Filtered(s.waiting, ids, s.waiting.Keys);
    forall id, k | id in s.active - ids && id in guards && k in guards[id].keys
      ensures k in w && id in w[k]
    {
      assert k in s.waiting && id in Without(s.waiting[k], ids);
    }
  }

  lemma CancelledCounted(s: State, caps: Caps, owner: string)
    requires Counted(s, caps)
    ensures Counted(Cancelled(s, owner), caps)
    ensures Count(Cancelled(s, owner).owners, owner) == 0
    ensures Cancelled(s, owner).total == s.total - Count(s.owners, owner)
  {
    var ids := OwnedBy(s.active, owner);
    assert CountedOwner(s, caps, owner);
    if ids != {} {
      var s' := Cancelled(s, owner);
      assert s'.active.Keys == s.active.Keys - ids && ids <= s.active.Keys;
      SizeWithout(s.active.Keys, ids);
      forall o ensures CountedOwner(s', caps, o) {
        assert CountedOwner(s, caps, o);
        assert OwnedBy(s'.active, o) == if o == owner then {} else OwnedBy(s.active, o);
      }
    }
  }

  /** A cancelled owner's whole share is free at once, and its guards are still there to be dropped. */
  lemma CancelledConsistent(s: State, caps: Caps, guards: Guards, owner: string)
    requires Consistent(s, caps, guards)
    ensures Consistent(Cancelled(s, owner), caps, guards)
    ensures Count(Cancelled(s, owner).owners, owner) == 0
    ensures Cancelled(s, owner).total == s.total - Count(s.owners, owner)
  {
    hide Listed, Counted;
    CancelledCounted(s, caps, owner);
    CancelledListed(s, guards, OwnedBy(s.active, owner));
  }

  lemma SizeWithout(s: set<nat>, t: set<nat>)
    requires t <= s
    ensures |s - t| == |s| - |t|
  {
    assert s == (s - t) + t;
  }

  // ---- every run of operations

  datatype Step =
    | HoldStep(owner: string, keys: seq<string>)
    | DropStep(id: nat)
    | CancelStep(owner: string)

  datatype World = World(s: State, guards: Guards)

  function Next(w: World, caps: Caps, step: Step): World {
    match step
    case HoldStep(owner, keys) =>
      if CapReached(w.s, caps, owner) then w
      else World(Taken(w.s, owner, keys), w.guards[w.s.next + 1 := Hold(w.s.next + 1, owner, keys)])
    case DropStep(id) =>
      if id in w.guards then World(Dropped(w.s, w.guards[id]), w.guards - {id}) else w
    case CancelStep(owner) => World(Cancelled(w.s, owner), w.guards)
  }

  function After(caps: Caps, steps: seq<Step>): World {
    if steps == [] then World(EMPTY, map[]) else Next(After(caps, steps[..|steps| - 1]), caps, steps[|steps| - 1])
  }

  /** In every reachable state the counters count the active holds, the caps hold and the lists are exact. */
  lemma {:induction false} AlwaysConsistent(caps: Caps, steps: seq<Step>)
    ensures Consistent(After(caps, steps).s, caps, After(caps, steps).guards)
  {
    hide Next;
    if steps == [] {
      forall o ensures CountedOwner(EMPTY, caps, o) { assert OwnedBy(EMPTY.active, o) == {}; }
    } else {
      var w := After(caps, steps[..|steps| - 1]);
      AlwaysConsistent(caps, steps[..|steps| - 1]);
      NextConsistent(w, caps, steps[|steps| - 1]);
    }
  }

  lemma NextConsistent(w: World, caps: Caps, step: Step)
    requires Consistent(w.s, caps, w.guards)
    ensures var w' := Next(w, caps, step); Consistent(w'.s, caps, w'.guards)
  {
    hide Consistent;
    match step
    case HoldStep(owner, keys) =>
      if !CapReached(w.s, caps, owner) { TakenConsistent(w.s, caps, w.guards, owner, keys); }
    case DropStep(id) =>
      if id in w.guards {
        GuardHasItsId(w.s, caps, w.guards, id);
        DroppedConsistent(w.s, caps, w.guards, w.guards[id]);
      }
    case CancelStep(owner) => CancelledConsistent(w.s, caps, w.guards, owner);
  }

  lemma GuardHasItsId(s: State, caps: Caps, guards: Guards, id: nat)
    requires Consistent(s, caps, guards) && id in guards
    ensures guards[id].id == id
  {
  }

  /**
    A hold replaced by `cancel_owner` and a new `hold` may be dropped at any later time, after any other steps,
    without giving back the replacement's place.
   */
  lemma {:induction false} StaleDropsGiveNothingBack(caps: Caps, steps: seq<Step>, owner: string,
                                                     later: seq<Step>, stale: nat)
    requires stale in After(caps, steps).guards && After(caps, steps).guards[stale].owner == owner
    ensures var w := After(caps, steps + [CancelStep(owner)] + later);
            stale !in w.s.active && Next(w, caps, DropStep(stale)).s == w.s
  {
    hide Next;
    var cancelled := steps + [CancelStep(owner)];
    assert cancelled[..|steps|] == steps;
    AlwaysConsistent(caps, steps);
    CancelEnds(After(caps, steps), caps, owner, stale);
    StaysInactive(caps, cancelled, later, stale);
    InactiveDrop(After(caps, cancelled + later), caps, stale);
  }

  lemma CancelEnds(w: World, caps: Caps, owner: string, stale: nat)
    requires Consistent(w.s, caps, w.guards) && stale in w.guards && w.guards[stale].owner == owner
    ensures var w' := Next(w, caps, CancelStep(owner)); stale !in w'.s.active && stale <= w'.s.next
  {
    hide Listed, Counted;
    if stale in w.s.active { assert stale in OwnedBy(w.s.active, owner); }
  }

  lemma InactiveDrop(w: World, caps: Caps, id: nat)
    requires id !in w.s.active
    requires id in w.guards ==> w.guards[id].id == id
    ensures Next(w, caps, DropStep(id)).s == w.s
  {
  }

  /** An id that has been handed out and is no longer active never becomes active again. */
  lemma {:induction false} StaysInactive(caps: Caps, steps: seq<Step>, later: seq<Step>, id: nat)
    requires id !in After(caps, steps).s.active && id <= After(caps, steps).s.next
    ensures var w := After(caps, steps + later);
            && id !in w.s.active && id <= w.s.next
            && (id in w.guards ==> w.guards[id].id == id)
  {
    hide Next;
    AlwaysConsistent(caps, steps + later);
    if later == [] {
      assert steps + later == steps;
    } else {
      var init, last := later[..|later| - 1], later[|later| - 1];
      StaysInactive(caps, steps, init, id);
      assert (steps + later)[..|steps + later| - 1] == steps + init;
      InactiveNext(After(caps, steps + init), caps, last, id);
    }
  }

  lemma InactiveNext(w: World, caps: Caps, step: Step, id: nat)
    requires id !in w.s.active && id <= w.s.next
    ensures id !in Next(w, caps, step).s.active && id <= Next(w, caps, step).s.next
  {
    hide Enlist, Delist;
  }

  // ---- what is held, told from the steps alone

  /** The places in use and the number handed out so far. */
  datatype Open = Open(places: map<nat, string>, given: nat)

  function OpenAfter(caps: Caps, steps: seq<Step>): Open {
    if steps == [] then Open(map[], 0)
    else
      var o := OpenAfter(caps, steps[..|steps| - 1]);
      match steps[|steps| - 1]
      case HoldStep(owner, _) =>
        if |o.places| < caps.total && |OwnedBy(o.places, owner)| < caps.perOwner
        then Open(o.places[o.given + 1 := owner], o.given + 1) else o
      case DropStep(id) => o.(places := o.places - {id})
      case CancelStep(owner) => o.(places := o.places - OwnedBy(o.places, owner))
  }

  lemma OpenStep(w: World, caps: Caps, step: Step)
    requires Consistent(w.s, caps, w.guards)
    ensures var w' := Next(w, caps, step);
            match step
            case HoldStep(owner, _) =>
              if |w.s.active| < caps.total && |OwnedBy(w.s.active, owner)| < caps.perOwner
              then w'.s.active == w.s.active[w.s.next + 1 := owner] && w'.s.next == w.s.next + 1 else w' == w
            case DropStep(id) => w'.s.active == w.s.active - {id} && w'.s.next == w.s.next
            case CancelStep(owner) =>
              w'.s.active == w.s.active - OwnedBy(w.s.active, owner) && w'.s.next == w.s.next
  {
    hide Enlist, Delist, Listed, OwnedBy;
    if step.HoldStep? { assert CountedOwner(w.s, caps, step.owner); }
  }

  /**
    Over every run, the places in use are exactly those given and neither given back nor cancelled since, and one is
    given exactly while both caps leave room. A write to a key wakes exactly the holds in use that wait on it.
   */
  lemma {:induction false} HeldExactly(caps: Caps, steps: seq<Step>, key: string)
    ensures var w := After(caps, steps);
            && w.s.active == OpenAfter(caps, steps).places && w.s.next == OpenAfter(caps, steps).given
            && WokenBy(w.s, key) == set id | id in w.s.active && id in w.guards && key in w.guards[id].keys
  {
    hide Next, Consistent, OwnedBy, WokenBy;
    AlwaysConsistent(caps, steps);
    WokenExactly(After(caps, steps), caps, key);
    if steps != [] {
      HeldExactly(caps, steps[..|steps| - 1], key);
      AlwaysConsistent(caps, steps[..|steps| - 1]);
      OpenStep(After(caps, steps[..|steps| - 1]), caps, steps[|steps| - 1]);
    }
  }

  lemma WokenExactly(w: World, caps: Caps, key: string)
    requires Consistent(w.s, caps, w.guards)
    ensures WokenBy(w.s, key) == set id | id in w.s.active && id in w.guards && key in w.guards[id].keys
  {
    hide Counted, Guarded;
  }
}

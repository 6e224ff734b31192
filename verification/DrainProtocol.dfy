/**
  Drains and appends as interleaved steps. A drain registers its hold, then reads the queue, then waits if it read
  nothing; an append saves the queue, then wakes the holds on it. Any number of each may be under way.
 */
module DrainProtocol {
  import opened Results
  import opened Holds
  import Q = AssistantQueue

  datatype Pc =
    | Begun(wants: bool)
    | Registered(held: Option<Hold>)
    | Blocked(hold: Hold)
    | Rereading
    | Answered(messages: seq<Q.Entry>)

  /** A drain of the queue whose holds wait on `key`, for a caller charged to `owner`; `waits` counts its waits. */
  datatype Drain = Drain(key: string, owner: string, pc: Pc, waits: nat)

  /** An append between its save and its wake. */
  datatype Pending = Pending(key: string, n: nat)

  datatype System = System(
    holds: State,
    guards: Guards,
    permits: set<nat>,
    stopping: bool,
    stored: map<string, Q.Queue>,
    now: nat,
    drains: map<nat, Drain>,
    appends: map<nat, Pending>,
    dropped: set<Pending>)   // appends whose requests went away after the save and before the wake

  const START := System(EMPTY, map[], {}, false, map[], 0, map[], map[], {})

  datatype Event =
    | Begin(p: nat, key: string, owner: string, wants: bool)
    | Register(p: nat)
    | Read(p: nat)
    | EndWait(p: nat)
    | Abandon(p: nat)
    | Save(a: nat, key: string, sealed: string)
    | WakeAll(a: nat)
    | DropAppend(a: nat)
    | Ack(key: string, upTo: nat)
    | Tick(to: nat)
    | Stop

  /** The route's caps, and which lane each queue is. */
  datatype Setup = Setup(caps: Caps, lane: string -> Q.Lane)

  function StoredAt(s: System, key: string): Option<Q.Queue> {
    if key in s.stored then Some(s.stored[key]) else None
  }

  function Messages(s: System, setup: Setup, key: string): seq<Q.Entry> {
    Q.Load(StoredAt(s, key), Q.Ttl(setup.lane(key)), s.now).messages
  }

  function Release(s: System, h: Hold): System {
    s.(holds := Dropped(s.holds, h), guards := s.guards - {h.id}, permits := s.permits - {h.id})
  }

  function WithPc(s: System, p: nat, pc: Pc, waits: nat): System
    requires p in s.drains
  {
    s.(drains := s.drains[p := s.drains[p].(pc := pc, waits := waits)])
  }

  function RegisterStep(s: System, setup: Setup, p: nat): System
    requires p in s.drains
  {
    var d := s.drains[p];
    if !d.pc.Begun? then s
    else if !d.pc.wants || s.stopping || CapReached(s.holds, setup.caps, d.owner)
    then WithPc(s, p, Registered(None), d.waits)
    else
      var h := Hold(s.holds.next + 1, d.owner, [d.key]);
      WithPc(s.(holds := Taken(s.holds, d.owner, [d.key]), guards := s.guards[h.id := h]),
             p, Registered(Some(h)), d.waits)
  }

  /** One turn of the drain loop up to its wait or its answer. */
  function ReadStep(s: System, setup: Setup, p: nat): System
    requires p in s.drains
  {
    var d := s.drains[p];
    var found := Messages(s, setup, d.key);
    match d.pc
    case Registered(Some(h)) =>
      if found == [] then WithPc(s, p, Blocked(h), d.waits + 1)
      else WithPc(Release(s, h), p, Answered(found), d.waits)
    case Registered(None) => WithPc(s, p, Answered(found), d.waits)
    case Rereading => WithPc(s, p, Answered(found), d.waits)
    case _ => s
  }

  /** Woken, timed out, or the process stops: in each case the hold is dropped and the queue read once more. */
  function EndWaitStep(s: System, p: nat): System
    requires p in s.drains
  {
    if !s.drains[p].pc.Blocked? then s
    else WithPc(Release(s, s.drains[p].pc.hold), p, Rereading, s.drains[p].waits)
  }

  /**
    The client went away, or no place in its lane came free after the wait: the drain ends without reading, wherever
    it is, and its hold with it.
   */
  function AbandonStep(s: System, p: nat): System
    requires p in s.drains
  {
    var gone := s.(drains := s.drains - {p});
    if Holding(s.drains[p]) then Release(gone, HoldOf(s.drains[p])) else gone
  }

  function SaveStep(s: System, setup: Setup, a: nat, key: string, sealed: string): System {
    var q := Q.Appended(StoredAt(s, key), setup.lane(key), s.now, sealed);
    if a in s.appends || q.None? then s
    else s.(stored := s.stored[key := q.value],
            appends := s.appends[a := Pending(key, if q.value.next > 0 then q.value.next - 1 else 0)])
  }

  function WakeStep(s: System, a: nat): System {
    if a !in s.appends then s
    else s.(permits := s.permits + WokenBy(s.holds, s.appends[a].key), appends := s.appends - {a})
  }

  /** The client of an append went away once its queue was saved: nothing is woken. */
  function DropStep(s: System, a: nat): System {
    if a !in s.appends then s
    else s.(dropped := s.dropped + {s.appends[a]}, appends := s.appends - {a})
  }

  function AckStep(s: System, setup: Setup, key: string, upTo: nat): System {
    var q := Q.Acked(StoredAt(s, key), setup.lane(key), s.now, upTo);
    if q.None? then s else s.(stored := s.stored[key := q.value])
  }

  /** An event that cannot happen in a state changes nothing. */
  function Next(s: System, setup: Setup, e: Event): System {
    match e
    case Begin(p, key, owner, wants) =>
      if p in s.drains then s else s.(drains := s.drains[p := Drain(key, owner, Begun(wants), 0)])
    case Register(p) => if p in s.drains then RegisterStep(s, setup, p) else s
    case Read(p) => if p in s.drains then ReadStep(s, setup, p) else s
    case EndWait(p) => if p in s.drains then EndWaitStep(s, p) else s
    case Abandon(p) => if p in s.drains then AbandonStep(s, p) else s
    case Save(a, key, sealed) => SaveStep(s, setup, a, key, sealed)
    case WakeAll(a) => WakeStep(s, a)
    case DropAppend(a) => DropStep(s, a)
    case Ack(key, upTo) => AckStep(s, setup, key, upTo)
    case Tick(to) => if to < s.now then s else s.(now := to)
    case Stop => s.(stopping := true)
  }

  function After(setup: Setup, events: seq<Event>): System {
    if events == [] then START else Next(After(setup, events[..|events| - 1]), setup, events[|events| - 1])
  }

  // ---- the invariant

  predicate Holding(d: Drain) {
    d.pc.Blocked? || (d.pc.Registered? && d.pc.held.Some?)
  }

  function HoldOf(d: Drain): Hold
    requires Holding(d)
  {
    if d.pc.Blocked? then d.pc.hold else d.pc.held.value
  }

  /** A drain's hold is its own, active, and on its queue's key. */
  ghost predicate Owns(s: System, p: nat)
    requires p in s.drains && Holding(s.drains[p])
  {
    var h := HoldOf(s.drains[p]);
    && h.id in s.guards && s.guards[h.id] == h && h.id in s.holds.active && h.keys == [s.drains[p].key]
    && forall o :: o in s.drains && o != p && Holding(s.drains[o]) ==> HoldOf(s.drains[o]).id != h.id
  }

  /** The append of message `n` to the queue on `key` has saved and not woken yet. */
  ghost predicate BetweenSaveAndWake(s: System, key: string, n: nat) {
    exists a :: a in s.appends && s.appends[a] == Pending(key, n)
  }

  /** Or it was dropped in between, and will never wake. */
  ghost predicate Unwoken(s: System, key: string, n: nat) {
    BetweenSaveAndWake(s, key, n) || Pending(key, n) in s.dropped
  }

  ghost predicate NotLost(s: System, setup: Setup, p: nat)
    requires p in s.drains
  {
    var d := s.drains[p];
    d.pc.Blocked? ==>
      d.pc.hold.id in s.permits
      || forall m :: m in Messages(s, setup, d.key) ==> Unwoken(s, d.key, m.n)
  }

  predicate WaitsOnce(d: Drain) {
    d.waits <= 1 && (d.pc.Begun? || d.pc.Registered? ==> d.waits == 0)
  }

  ghost predicate DrainsKept(s: System, setup: Setup) {
    forall p :: p in s.drains ==>
      && (Holding(s.drains[p]) ==> Owns(s, p))
      && NotLost(s, setup, p)
      && WaitsOnce(s.drains[p])
  }

  ghost predicate Inv(s: System, setup: Setup) {
    Consistent(s.holds, setup.caps, s.guards) && DrainsKept(s, setup)
  }

  // ---- the queue under the protocol

  lemma {:induction false} FreshIsSubset(messages: seq<Q.Entry>, ttl: nat, now: nat)
    ensures forall m :: m in Q.FreshEntries(messages, ttl, now) <==> m in messages && Q.Fresh(m.receivedAt, ttl, now)
  {
    if messages != [] {
      FreshIsSubset(messages[..|messages| - 1], ttl, now);
      assert messages == messages[..|messages| - 1] + [messages[|messages| - 1]];
    }
  }

  lemma {:induction false} PastIsSubset(messages: seq<Q.Entry>, upTo: nat)
    ensures forall m :: m in Q.Past(messages, upTo) ==> m in messages
  {
    if messages != [] {
      PastIsSubset(messages[..|messages| - 1], upTo);
      assert messages == messages[..|messages| - 1] + [messages[|messages| - 1]];
    }
  }

  /** Time only takes messages away. */
  lemma TickShrinks(s: System, setup: Setup, key: string, to: nat)
    requires s.now <= to
    ensures forall m :: m in Messages(s.(now := to), setup, key) ==> m in Messages(s, setup, key)
  {
    if key in s.stored {
      FreshIsSubset(s.stored[key].messages, Q.Ttl(setup.lane(key)), s.now);
      FreshIsSubset(s.stored[key].messages, Q.Ttl(setup.lane(key)), to);
    }
  }

  lemma AckShrinks(s: System, setup: Setup, key: string, upTo: nat, other: string)
    ensures forall m :: m in Messages(AckStep(s, setup, key, upTo), setup, other) ==> m in Messages(s, setup, other)
  {
    var ttl := Q.Ttl(setup.lane(key));
    var q := Q.Load(StoredAt(s, key), ttl, s.now);
    if key == other && Q.UpTo(q.messages, upTo) != [] {
      PastIsSubset(q.messages, upTo);
      FreshIsSubset(Q.Past(q.messages, upTo), ttl, s.now);
    }
  }

  /** An append adds its own message to its own queue and nothing else. */
  lemma SaveAddsOne(s: System, setup: Setup, a: nat, key: string, sealed: string, other: string)
    requires a !in s.appends && Q.Appended(StoredAt(s, key), setup.lane(key), s.now, sealed).Some?
    ensures var s' := SaveStep(s, setup, a, key, sealed);
            forall m :: m in Messages(s', setup, other) ==>
              m in Messages(s, setup, other) || (other == key && s'.appends[a] == Pending(key, m.n))
  {
    var ttl := Q.Ttl(setup.lane(key));
    var q := Q.Load(StoredAt(s, key), ttl, s.now);
    if key == other {
      FreshIsSubset(q.messages + [Q.Entry(q.next, sealed, s.now)], ttl, s.now);
    }
  }

  // ---- every step keeps the invariant

  /** What one drain's part of the invariant depends on. */
  lemma Undisturbed(s: System, s': System, setup: Setup, p: nat)
    requires p in s.drains && p in s'.drains && s'.drains[p] == s.drains[p]
    requires Holding(s.drains[p]) ==> Owns(s', p)
    requires NotLost(s, setup, p) && WaitsOnce(s.drains[p])
    requires s.drains[p].pc.Blocked? && s.drains[p].pc.hold.id in s.permits ==> s.drains[p].pc.hold.id in s'.permits
    requires s.drains[p].pc.Blocked? ==>
               forall m :: m in Messages(s', setup, s.drains[p].key) ==>
                 m in Messages(s, setup, s.drains[p].key) || Unwoken(s', s.drains[p].key, m.n)
    requires forall k, n :: Unwoken(s, k, n) ==> Unwoken(s', k, n)
    ensures NotLost(s', setup, p)
  {
  }

  lemma TickKept(s: System, setup: Setup, to: nat)
    requires Inv(s, setup) && s.now <= to
    ensures Inv(s.(now := to), setup)
  {
    hide Consistent, Messages;
    var s' := s.(now := to);
    forall p | p in s'.drains ensures (Holding(s'.drains[p]) ==> Owns(s', p)) && NotLost(s', setup, p) {
      TickShrinks(s, setup, s.drains[p].key, to);
      assert forall k, n :: Unwoken(s, k, n) ==> Unwoken(s', k, n);
    }
  }

  lemma AckKept(s: System, setup: Setup, key: string, upTo: nat)
    requires Inv(s, setup)
    ensures Inv(AckStep(s, setup, key, upTo), setup)
  {
    hide Consistent, Messages, Q.Acked;
    var s' := AckStep(s, setup, key, upTo);
    forall p | p in s'.drains ensures (Holding(s'.drains[p]) ==> Owns(s', p)) && NotLost(s', setup, p) {
      AckShrinks(s, setup, key, upTo, s.drains[p].key);
      assert forall k, n :: Unwoken(s, k, n) ==> Unwoken(s', k, n);
    }
  }

  lemma SaveKept(s: System, setup: Setup, a: nat, key: string, sealed: string)
    requires Inv(s, setup)
    ensures Inv(SaveStep(s, setup, a, key, sealed), setup)
  {
    hide Consistent, Messages, Q.Appended;
    var s' := SaveStep(s, setup, a, key, sealed);
    if s' != s {
      forall k, n | Unwoken(s, k, n) ensures Unwoken(s', k, n) {
        if Pending(k, n) !in s.dropped {
          var b :| b in s.appends && s.appends[b] == Pending(k, n);
          assert s'.appends[b] == Pending(k, n);
        }
      }
      forall p | p in s'.drains ensures (Holding(s'.drains[p]) ==> Owns(s', p)) && NotLost(s', setup, p) {
        SaveAddsOne(s, setup, a, key, sealed, s.drains[p].key);
        assert Holding(s.drains[p]) ==> Owns(s, p);
        Undisturbed(s, s', setup, p);
      }
    }
  }

  lemma WakeKept(s: System, setup: Setup, a: nat)
    requires Inv(s, setup)
    ensures Inv(WakeStep(s, a), setup)
  {
    hide Messages, Counted;
    var s' := WakeStep(s, a);
    if s' != s {
      var key := s.appends[a].key;
      forall p | p in s'.drains ensures (Holding(s'.drains[p]) ==> Owns(s', p)) && NotLost(s', setup, p) {
        var d := s.drains[p];
        SameMessages(s, s', setup, d.key);
        assert Holding(d) ==> Owns(s, p);
        if d.pc.Blocked? && d.key == key {
          assert d.key in s.guards[d.pc.hold.id].keys;
          assert d.pc.hold.id in WokenBy(s.holds, key);
        } else if d.pc.Blocked? && d.pc.hold.id !in s.permits {
          forall m | m in Messages(s', setup, d.key) ensures Unwoken(s', d.key, m.n) {
            assert Unwoken(s, d.key, m.n);
            if Pending(d.key, m.n) !in s.dropped {
              var b :| b in s.appends && s.appends[b] == Pending(d.key, m.n);
              assert b != a && s'.appends[b] == Pending(d.key, m.n);
            }
          }
        }
      }
    }
  }

  lemma DropKept(s: System, setup: Setup, a: nat)
    requires Inv(s, setup)
    ensures Inv(DropStep(s, a), setup)
  {
    hide Consistent, Messages;
    var s' := DropStep(s, a);
    if s' != s {
      forall k, n | Unwoken(s, k, n) ensures Unwoken(s', k, n) {
        if Pending(k, n) !in s'.dropped {
          var b :| b in s.appends && s.appends[b] == Pending(k, n);
          assert b != a && s'.appends[b] == Pending(k, n);
        }
      }
      forall p | p in s'.drains ensures (Holding(s'.drains[p]) ==> Owns(s', p)) && NotLost(s', setup, p) {
        SameMessages(s, s', setup, s.drains[p].key);
        assert Holding(s.drains[p]) ==> Owns(s, p);
        Undisturbed(s, s', setup, p);
      }
    }
  }

  lemma SameMessages(s: System, s': System, setup: Setup, key: string)
    requires s'.stored == s.stored && s'.now == s.now
    ensures Messages(s', setup, key) == Messages(s, setup, key)
  {
  }

  /** A step of one drain that leaves the queues, the appends and every other drain's hold as they were. */
  lemma OthersKept(s: System, s': System, setup: Setup, p: nat, o: nat)
    requires DrainsKept(s, setup) && o in s.drains && o in s'.drains && s'.drains[o] == s.drains[o]
    requires s'.stored == s.stored && s'.now == s.now && s'.appends == s.appends && s'.dropped == s.dropped
    requires Holding(s.drains[o]) ==> Owns(s', o)
    requires Holding(s.drains[o]) && HoldOf(s.drains[o]).id in s.permits ==> HoldOf(s.drains[o]).id in s'.permits
    ensures NotLost(s', setup, o) && WaitsOnce(s'.drains[o])
  {
    hide Messages;
    SameMessages(s, s', setup, s.drains[o].key);
    assert forall k, n :: Unwoken(s, k, n) <==> Unwoken(s', k, n);
  }

  lemma OwnsAfterRelease(s: System, s': System, setup: Setup, p: nat, o: nat)
    requires Inv(s, setup) && p in s.drains && Holding(s.drains[p])
    requires o in s.drains && o != p && Holding(s.drains[o])
    requires s'.holds == Dropped(s.holds, HoldOf(s.drains[p])) && s'.guards == s.guards - {HoldOf(s.drains[p]).id}
    requires o in s'.drains && s'.drains[o] == s.drains[o]
    requires forall q :: q in s'.drains && q != p ==> q in s.drains && s'.drains[q] == s.drains[q]
    requires p in s'.drains ==> !Holding(s'.drains[p])
    ensures Owns(s', o)
    ensures HoldOf(s.drains[o]).id != HoldOf(s.drains[p]).id
  {
    hide Consistent, Messages, Delist;
    assert Owns(s, o) && Owns(s, p);
  }

  /** A drain whose hold is dropped and that holds none afterwards. */
  lemma ReleaseKept(s: System, s': System, setup: Setup, p: nat)
    requires Inv(s, setup) && p in s.drains && Holding(s.drains[p])
    requires s'.holds == Dropped(s.holds, HoldOf(s.drains[p])) && s'.guards == s.guards - {HoldOf(s.drains[p]).id}
    requires s'.permits == s.permits - {HoldOf(s.drains[p]).id}
    requires s'.stored == s.stored && s'.now == s.now && s'.appends == s.appends && s'.dropped == s.dropped
    requires s'.drains.Keys <= s.drains.Keys
    requires forall q :: q in s'.drains && q != p ==> s'.drains[q] == s.drains[q]
    requires p in s'.drains ==> !Holding(s'.drains[p]) && WaitsOnce(s'.drains[p])
    ensures Inv(s', setup)
  {
    hide Consistent, Messages, Dropped, NotLost;
    var h := HoldOf(s.drains[p]);
    assert Owns(s, p);
    DroppedConsistent(s.holds, setup.caps, s.guards, h);
    forall o | o in s'.drains
      ensures (Holding(s'.drains[o]) ==> Owns(s', o)) && NotLost(s', setup, o) && WaitsOnce(s'.drains[o])
    {
      if o != p {
        assert o in s.drains;
        if Holding(s.drains[o]) { OwnsAfterRelease(s, s', setup, p, o); }
        OthersKept(s, s', setup, p, o);
      } else {
        NotBlocked(s', setup, p);
      }
    }
  }

  lemma NotBlocked(s: System, setup: Setup, p: nat)
    requires p in s.drains && !s.drains[p].pc.Blocked?
    ensures NotLost(s, setup, p)
  {
  }

  /** A new hold is nobody else's. */
  lemma HeldKept(s: System, s': System, setup: Setup, p: nat, h: Hold)
    requires DrainsKept(s, setup) && p in s.drains && s.drains[p].pc.Begun?
    requires h.id !in s.guards && h.keys == [s.drains[p].key]
    requires h.id in s'.holds.active && forall id :: id in s.holds.active ==> id in s'.holds.active
    requires s' == s.(holds := s'.holds, guards := s.guards[h.id := h],
                      drains := s.drains[p := s.drains[p].(pc := Registered(Some(h)))])
    ensures DrainsKept(s', setup)
  {
    hide Messages, NotLost;
    forall o | o in s'.drains
      ensures (Holding(s'.drains[o]) ==> Owns(s', o)) && NotLost(s', setup, o) && WaitsOnce(s'.drains[o])
    {
      if o != p {
        assert Holding(s.drains[o]) ==> Owns(s, o);
        OthersKept(s, s', setup, p, o);
      } else {
        assert forall q :: q in s.drains && Holding(s.drains[q]) ==> Owns(s, q);
        NotBlocked(s', setup, p);
      }
    }
  }

  lemma RegisterKept(s: System, setup: Setup, p: nat)
    requires Inv(s, setup) && p in s.drains
    ensures Inv(RegisterStep(s, setup, p), setup)
  {
    hide Counted, Holds.Listed, Guarded, Enlist, DrainsKept, CapReached;
    var s', d := RegisterStep(s, setup, p), s.drains[p];
    if d.pc.Begun? {
      if !d.pc.wants || s.stopping || CapReached(s.holds, setup.caps, d.owner) {
        AnswerKept(s, setup, p, Registered(None));
      } else {
        var h := Hold(s.holds.next + 1, d.owner, [d.key]);
        FreshId(s.holds, s.guards);
        TakenConsistent(s.holds, setup.caps, s.guards, d.owner, [d.key]);
        HeldKept(s, s', setup, p, h);
      }
    }
  }

  /** Reading nothing: no message is waiting at this moment, so none is missed. */
  lemma BlockKept(s: System, setup: Setup, p: nat)
    requires Inv(s, setup) && p in s.drains && s.drains[p].pc.Registered? && s.drains[p].pc.held.Some?
    requires Messages(s, setup, s.drains[p].key) == []
    ensures Inv(WithPc(s, p, Blocked(s.drains[p].pc.held.value), s.drains[p].waits + 1), setup)
  {
    hide Messages, Consistent;
    var s' := WithPc(s, p, Blocked(s.drains[p].pc.held.value), s.drains[p].waits + 1);
    SameMessages(s, s', setup, s.drains[p].key);
    forall o | o in s'.drains
      ensures (Holding(s'.drains[o]) ==> Owns(s', o)) && NotLost(s', setup, o) && WaitsOnce(s'.drains[o])
    {
      assert Holding(s.drains[o]) ==> Owns(s, o);
      if o != p { OthersKept(s, s', setup, p, o); }
    }
  }

  lemma AnswerKept(s: System, setup: Setup, p: nat, pc: Pc)
    requires Inv(s, setup) && p in s.drains && !Holding(s.drains[p])
    requires pc.Answered? || (pc == Registered(None) && s.drains[p].pc.Begun?)
    ensures Inv(WithPc(s, p, pc, s.drains[p].waits), setup)
  {
    hide Messages, NotLost, Consistent;
    var s' := WithPc(s, p, pc, s.drains[p].waits);
    forall o | o in s'.drains
      ensures (Holding(s'.drains[o]) ==> Owns(s', o)) && NotLost(s', setup, o) && WaitsOnce(s'.drains[o])
    {
      assert Holding(s.drains[o]) ==> Owns(s, o);
      if o != p { OthersKept(s, s', setup, p, o); } else { NotBlocked(s', setup, p); }
    }
  }

  lemma ReadKept(s: System, setup: Setup, p: nat)
    requires Inv(s, setup) && p in s.drains
    ensures Inv(ReadStep(s, setup, p), setup)
  {
    hide Messages, Consistent, NotLost, Owns, Dropped;
    var d := s.drains[p];
    var found := Messages(s, setup, d.key);
    match d.pc
    case Registered(Some(h)) =>
      if found == [] { BlockKept(s, setup, p); }
      else { ReleaseKept(s, ReadStep(s, setup, p), setup, p); }
    case Registered(None) => AnswerKept(s, setup, p, Answered(found));
    case Rereading => AnswerKept(s, setup, p, Answered(found));
    case _ =>
  }

  lemma BeginKept(s: System, setup: Setup, p: nat, key: string, owner: string, wants: bool)
    requires Inv(s, setup) && p !in s.drains
    ensures Inv(s.(drains := s.drains[p := Drain(key, owner, Begun(wants), 0)]), setup)
  {
    hide Messages, NotLost, Consistent;
    var s' := s.(drains := s.drains[p := Drain(key, owner, Begun(wants), 0)]);
    forall o | o in s'.drains
      ensures (Holding(s'.drains[o]) ==> Owns(s', o)) && NotLost(s', setup, o) && WaitsOnce(s'.drains[o])
    {
      if o != p {
        assert o in s.drains && (Holding(s.drains[o]) ==> Owns(s, o));
        OthersKept(s, s', setup, p, o);
      } else {
        NotBlocked(s', setup, p);
      }
    }
  }

  lemma AbandonKept(s: System, setup: Setup, p: nat)
    requires Inv(s, setup) && p in s.drains
    ensures Inv(AbandonStep(s, p), setup)
  {
    hide Messages, NotLost, Consistent, Dropped;
    var s' := AbandonStep(s, p);
    if Holding(s.drains[p]) {
      ReleaseKept(s, s', setup, p);
    } else {
      forall o | o in s'.drains
        ensures (Holding(s'.drains[o]) ==> Owns(s', o)) && NotLost(s', setup, o) && WaitsOnce(s'.drains[o])
      {
        assert o in s.drains && (Holding(s.drains[o]) ==> Owns(s, o));
        OthersKept(s, s', setup, p, o);
      }
    }
  }

  lemma StopKept(s: System, setup: Setup)
    requires Inv(s, setup)
    ensures Inv(s.(stopping := true), setup)
  {
    hide Messages, NotLost, Consistent;
    var s' := s.(stopping := true);
    forall o | o in s'.drains
      ensures (Holding(s'.drains[o]) ==> Owns(s', o)) && NotLost(s', setup, o) && WaitsOnce(s'.drains[o])
    {
      assert o in s.drains && (Holding(s.drains[o]) ==> Owns(s, o));
      OthersKept(s, s', setup, o, o);
    }
  }

  lemma NextKept(s: System, setup: Setup, e: Event)
    requires Inv(s, setup)
    ensures Inv(Next(s, setup, e), setup)
  {
    hide Inv, RegisterStep, ReadStep, AbandonStep, SaveStep, WakeStep, DropStep, AckStep, Dropped;
    match e
    case Begin(p, key, owner, wants) => if p !in s.drains { BeginKept(s, setup, p, key, owner, wants); }
    case Register(p) => if p in s.drains { RegisterKept(s, setup, p); }
    case Read(p) => if p in s.drains { ReadKept(s, setup, p); }
    case EndWait(p) => if p in s.drains { EndWaitKept(s, setup, p); }
    case Abandon(p) => if p in s.drains { AbandonKept(s, setup, p); }
    case Save(a, key, sealed) => SaveKept(s, setup, a, key, sealed);
    case WakeAll(a) => WakeKept(s, setup, a);
    case DropAppend(a) => DropKept(s, setup, a);
    case Ack(key, upTo) => AckKept(s, setup, key, upTo);
    case Tick(to) => if s.now <= to { TickKept(s, setup, to); }
    case Stop => StopKept(s, setup);
  }

  lemma EndWaitKept(s: System, setup: Setup, p: nat)
    requires Inv(s, setup) && p in s.drains
    ensures Inv(EndWaitStep(s, p), setup)
  {
    hide Messages, NotLost, Consistent, Dropped, Owns;
    if s.drains[p].pc.Blocked? { ReleaseKept(s, EndWaitStep(s, p), setup, p); }
  }

  lemma {:induction false} AlwaysKept(setup: Setup, events: seq<Event>)
    ensures Inv(After(setup, events), setup)
  {
    hide Next;
    if events == [] {
      AlwaysConsistent(setup.caps, []);
    } else {
      AlwaysKept(setup, events[..|events| - 1]);
      NextKept(After(setup, events[..|events| - 1]), setup, events[|events| - 1]);
    }
  }

  /**
    Over every interleaving, a drain that waits with no wake-up kept for it while a committed request it has not read is
    waiting in its queue means the append of that request has saved and not woken yet, or was dropped in between.
   */
  lemma NoLostWakeUp(setup: Setup, events: seq<Event>, p: nat, m: Q.Entry)
    requires var s := After(setup, events);
             && p in s.drains && s.drains[p].pc.Blocked? && s.drains[p].pc.hold.id !in s.permits
             && m in Messages(s, setup, s.drains[p].key)
    ensures var s := After(setup, events);
            BetweenSaveAndWake(s, s.drains[p].key, m.n) || Pending(s.drains[p].key, m.n) in s.dropped
  {
    hide Consistent, Messages, After;
    AlwaysKept(setup, events);
    var s := After(setup, events);
    assert NotLost(s, setup, p);
  }

  /** So no wake-up is lost while no append is dropped between its save and its wake. */
  lemma {:induction false} NoneDropped(setup: Setup, events: seq<Event>)
    requires forall i :: 0 <= i < |events| ==> !events[i].DropAppend?
    ensures After(setup, events).dropped == {}
  {
    hide Next;
    if events != [] {
      NoneDropped(setup, events[..|events| - 1]);
      DropsOnlyByDropping(After(setup, events[..|events| - 1]), setup, events[|events| - 1]);
    }
  }

  lemma DropsOnlyByDropping(s: System, setup: Setup, e: Event)
    requires !e.DropAppend?
    ensures Next(s, setup, e).dropped == s.dropped
  {
    hide Dropped, Taken, Messages, CapReached, WokenBy;
  }

  lemma Snoc(events: seq<Event>, e: Event)
    ensures (events + [e])[..|events + [e]| - 1] == events && (events + [e])[|events + [e]| - 1] == e
  {
  }

  /** And it is lost when one is: a drain blocks on an empty queue, and the append that then saves is dropped. */
  lemma DroppedAppendLosesWakeUp(setup: Setup, key: string, owner: string, sealed: string) returns (events: seq<Event>)
    requires setup.caps.total > 0 && setup.caps.perOwner > 0
    ensures var s := After(setup, events);
            && 0 in s.drains && s.drains[0].key == key && s.drains[0].pc.Blocked?
                && s.drains[0].pc.hold.id !in s.permits
            && Messages(s, setup, key) != [] && s.appends == map[]
  {
    hide After, Taken;
    var e0, e1, e2 := Begin(0, key, owner, true), Register(0), Read(0);
    var e3, e4 := Save(0, key, sealed), DropAppend(0);
    events := [];
    assert After(setup, []) == START by { Nothing(setup); }
    Follow(setup, events, e0);
    events := events + [e0];
    Follow(setup, events, e1);
    events := events + [e1];
    Follow(setup, events, e2);
    events := events + [e2];
    Follow(setup, events, e3);
    events := events + [e3];
    Follow(setup, events, e4);
    events := events + [e4];
  }

  lemma Nothing(setup: Setup)
    ensures After(setup, []) == START
  {
  }

  lemma Follow(setup: Setup, events: seq<Event>, e: Event)
    ensures After(setup, events + [e]) == Next(After(setup, events), setup, e)
  {
    hide Next;
    Snoc(events, e);
  }

  /** And a drain waits at most once, whatever wakes it. */
  lemma AtMostOneWait(setup: Setup, events: seq<Event>, p: nat)
    requires p in After(setup, events).drains
    ensures After(setup, events).drains[p].waits <= 1
  {
    hide Consistent, Messages, After;
    AlwaysKept(setup, events);
  }
}

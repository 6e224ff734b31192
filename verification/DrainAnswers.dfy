/**
  What a drain answers, told from the history of its queue alone: which requests were saved, when, and up to which
  number they were acknowledged.
 */
module DrainAnswers {
  import H = Holds
  import Q = AssistantQueue
  import opened DrainProtocol

  /** One queue's history: its requests in the order saved, and how many of them, from the first, are acknowledged. */
  datatype History = History(now: nat, issued: seq<Q.Issued>, acked: nat)

  /** How long a request stays, and how many may wait. */
  function Lifetime(lane: Q.Lane): nat { if lane.Library? then 604_800_000 else 600_000 }
  function Room(lane: Q.Lane): nat { if lane.Library? then 200 else 20 }

  /** Request `n` has not been acknowledged and its time is not over; the clock's last instant ends every time. */
  predicate StillWaits(h: History, lane: Q.Lane, n: nat) {
    h.acked < n <= |h.issued| && h.now < h.issued[n - 1].at + Lifetime(lane) && h.now < 0xFFFF_FFFF_FFFF_FFFF
  }

  function Waiters(h: History, lane: Q.Lane): set<nat> {
    set n | 1 <= n <= |h.issued| && StillWaits(h, lane, n)
  }

  /** Kept beside the run: a save counts while fewer wait than there is room for, an acknowledgement only upwards. */
  function HistoryOf(setup: Setup, events: seq<Event>, key: string): History {
    if events == [] then History(0, [], 0)
    else
      var init, e := events[..|events| - 1], events[|events| - 1];
      var h := HistoryOf(setup, init, key);
      match e
      case Save(a, k, sealed) =>
        if k == key && a !in After(setup, init).appends && |Waiters(h, setup.lane(key))| < Room(setup.lane(key))
        then h.(issued := h.issued + [Q.Issued(sealed, h.now)]) else h
      case Ack(k, upTo) => if k == key then h.(acked := Q.Greater(h.acked, Q.Lesser(upTo, |h.issued|))) else h
      case Tick(to) => h.(now := Q.Greater(h.now, to))
      case _ => h
  }

  /** `ms` holds every waiting request once, as it was saved, oldest first, and nothing else. */
  ghost predicate ExactlyWaiting(ms: seq<Q.Entry>, h: History, lane: Q.Lane) {
    && (forall i, j :: 0 <= i < j < |ms| ==> ms[i].n < ms[j].n)
    && (forall i :: 0 <= i < |ms| ==>
          StillWaits(h, lane, ms[i].n) && Q.Issued(ms[i].sealed, ms[i].receivedAt) == h.issued[ms[i].n - 1])
    && (forall n :: StillWaits(h, lane, n) ==> Q.Has(ms, n))
  }

  // ---- the queue stands for its history

  function Standing(s: System, key: string, h: History): Q.World {
    Q.World(StoredAt(s, key), h.now, h.issued, h.acked)
  }

  ghost predicate Tied(s: System, setup: Setup, key: string, h: History) {
    s.now == h.now && Q.Stands(Standing(s, key, h), setup.lane(key))
  }

  lemma FreshMeans(at: nat, lane: Q.Lane, now: nat)
    ensures Q.Fresh(at, Q.Ttl(lane), now) <==> now < at + Lifetime(lane) && now < 0xFFFF_FFFF_FFFF_FFFF
  {
  }

  lemma {:induction false} WaitingContents(issued: seq<Q.Issued>, lo: nat, hi: nat, ttl: nat, now: nat)
    requires lo <= hi <= |issued|
    ensures forall m :: m in Q.Waiting(issued, lo, hi, ttl, now) ==>
              && lo < m.n <= hi && Q.Fresh(m.receivedAt, ttl, now)
              && Q.Issued(m.sealed, m.receivedAt) == issued[m.n - 1]
  {
    hide Q.Fresh;
    if lo < hi { WaitingContents(issued, lo, hi - 1, ttl, now); }
  }

  lemma WaitingIsExact(h: History, lane: Q.Lane)
    requires h.acked <= |h.issued|
    ensures ExactlyWaiting(Q.Waiting(h.issued, h.acked, |h.issued|, Q.Ttl(lane), h.now), h, lane)
  {
    hide Q.Waiting, Q.Fresh, Q.Has, Lifetime, Q.Ttl;
    var ms := Q.Waiting(h.issued, h.acked, |h.issued|, Q.Ttl(lane), h.now);
    Q.WaitingAscends(h.issued, h.acked, |h.issued|, Q.Ttl(lane), h.now);
    WaitingContents(h.issued, h.acked, |h.issued|, Q.Ttl(lane), h.now);
    forall i | 0 <= i < |ms| ensures StillWaits(h, lane, ms[i].n) {
      assert ms[i] in ms;
      FreshMeans(ms[i].receivedAt, lane, h.now);
    }
    forall n | StillWaits(h, lane, n) ensures Q.Has(ms, n) {
      FreshMeans(h.issued[n - 1].at, lane, h.now);
      Q.WaitingHas(h.issued, h.acked, |h.issued|, Q.Ttl(lane), h.now, n);
    }
  }

  /** As many messages as there are waiting requests. */
  lemma {:induction false} CountExact(ms: seq<Q.Entry>, ns: set<nat>)
    requires forall i, j :: 0 <= i < j < |ms| ==> ms[i].n < ms[j].n
    requires forall n :: n in ns <==> Q.Has(ms, n)
    ensures |ns| == |ms|
  {
    if ms == [] {
      assert ns == {};
    } else {
      var init, last := ms[..|ms| - 1], ms[|ms| - 1];
      assert ms == init + [last] && ms[|ms| - 1].n == last.n;
      forall n ensures n in ns - {last.n} <==> Q.Has(init, n) {
        Q.HasSnoc(init, last, n);
        if Q.Has(init, n) {
          var i :| 0 <= i < |init| && init[i].n == n;
          assert ms[i].n < ms[|ms| - 1].n;
        }
      }
      CountExact(init, ns - {last.n});
      Q.HasSnoc(init, last, last.n);
    }
  }

  lemma ExactlyCounted(ms: seq<Q.Entry>, h: History, lane: Q.Lane)
    requires ExactlyWaiting(ms, h, lane)
    ensures |ms| == |Waiters(h, lane)|
  {
    hide StillWaits;
    forall n ensures n in Waiters(h, lane) <==> Q.Has(ms, n) {
      if Q.Has(ms, n) {
        var i :| 0 <= i < |ms| && ms[i].n == n;
        assert StillWaits(h, lane, ms[i].n);
        WaiterNumber(h, lane, n);
      }
    }
    CountExact(ms, Waiters(h, lane));
  }

  lemma WaiterNumber(h: History, lane: Q.Lane, n: nat)
    requires StillWaits(h, lane, n)
    ensures 1 <= n <= |h.issued|
  {
  }

  lemma MessagesExact(s: System, setup: Setup, key: string, h: History)
    requires Tied(s, setup, key, h)
    ensures ExactlyWaiting(Messages(s, setup, key), h, setup.lane(key))
    ensures |Messages(s, setup, key)| == |Waiters(h, setup.lane(key))|
  {
    hide Q.Waiting, ExactlyWaiting, Q.Load;
    assert Q.StandsAt(Standing(s, key, h), setup.lane(key), h.now);
    WaitingIsExact(h, setup.lane(key));
    ExactlyCounted(Messages(s, setup, key), h, setup.lane(key));
  }

  lemma SaveTied(s: System, setup: Setup, a: nat, k: string, sealed: string, key: string, h: History)
    requires Tied(s, setup, key, h)
    ensures var counts := k == key && a !in s.appends && |Waiters(h, setup.lane(key))| < Room(setup.lane(key));
            Tied(SaveStep(s, setup, a, k, sealed), setup, key,
                 if counts then h.(issued := h.issued + [Q.Issued(sealed, h.now)]) else h)
  {
    hide Q.Stands, Q.Load, Waiters;
    MessagesExact(s, setup, key, h);
    if k == key && a !in s.appends { Q.AppendStands(Standing(s, key, h), setup.lane(key), sealed); }
  }

  lemma AckTied(s: System, setup: Setup, k: string, upTo: nat, key: string, h: History)
    requires Tied(s, setup, key, h)
    ensures Tied(AckStep(s, setup, k, upTo), setup, key,
                 if k == key then h.(acked := Q.Greater(h.acked, Q.Lesser(upTo, |h.issued|))) else h)
  {
    hide Q.Stands, Q.Load, Q.Greater, Q.Lesser;
    if k == key { Q.NextStands(Standing(s, key, h), setup.lane(key), Q.Ack(upTo)); }
  }

  lemma QueuesUntouched(s: System, setup: Setup, e: Event)
    requires !e.Save? && !e.Ack? && !e.Tick?
    ensures Next(s, setup, e).stored == s.stored && Next(s, setup, e).now == s.now
  {
    hide H.Dropped, H.Taken, Messages, H.CapReached, H.WokenBy;
  }

  lemma {:induction false} HistoryHolds(setup: Setup, events: seq<Event>, key: string)
    ensures Tied(After(setup, events), setup, key, HistoryOf(setup, events, key))
  {
    hide Q.Stands, SaveStep, AckStep, Waiters;
    if events == [] {
      assert Q.After(setup.lane(key), []) == Q.NEW;
      Q.AlwaysStands(setup.lane(key), []);
    } else {
      var init, e := events[..|events| - 1], events[|events| - 1];
      var s, h := After(setup, init), HistoryOf(setup, init, key);
      HistoryHolds(setup, init, key);
      match e
      case Save(a, k, sealed) => SaveTied(s, setup, a, k, sealed, key, h);
      case Ack(k, upTo) => AckTied(s, setup, k, upTo, key, h);
      case Tick(to) => Q.NextStands(Standing(s, key, h), setup.lane(key), Q.Tick(to));
      case _ => QueuesUntouched(s, setup, e);
    }
  }

  // ---- the answers

  predicate Unanswered(s: System, p: nat) {
    p in s.drains ==> !s.drains[p].pc.Answered?
  }

  lemma OthersDoNotAnswer(s: System, setup: Setup, e: Event, p: nat)
    requires Unanswered(s, p) && !e.Read?
    ensures Unanswered(Next(s, setup, e), p)
  {
    hide H.Dropped, H.Taken, Messages, H.CapReached, H.WokenBy, Q.Appended, Q.Acked;
  }

  lemma AnswersOnlyByReading(s: System, setup: Setup, e: Event, p: nat)
    requires Unanswered(s, p) && !Unanswered(Next(s, setup, e), p)
    ensures e == Read(p) && p in s.drains && Next(s, setup, e).drains[p].key == s.drains[p].key
    ensures Next(s, setup, e).drains[p].pc.messages == Messages(s, setup, s.drains[p].key)
  {
    hide H.Dropped, Messages, RegisterStep, EndWaitStep, AbandonStep, SaveStep, WakeStep, DropStep, AckStep;
    if !e.Read? { OthersDoNotAnswer(s, setup, e, p); }
  }

  /**
    Over every run, whenever a drain comes to answer, held, refused a hold or woken, what it answers is exactly the
    requests of its queue that wait at that moment, oldest first, as they were saved.
   */
  lemma AnswersWhatWaits(setup: Setup, events: seq<Event>, e: Event, p: nat)
    requires p in After(setup, events + [e]).drains && After(setup, events + [e]).drains[p].pc.Answered?
    requires p in After(setup, events).drains ==> !After(setup, events).drains[p].pc.Answered?
    ensures var d := After(setup, events + [e]).drains[p];
            ExactlyWaiting(d.pc.messages, HistoryOf(setup, events + [e], d.key), setup.lane(d.key))
  {
    hide Next, After, Messages, ExactlyWaiting;
    var s := After(setup, events);
    Follow(setup, events, e);
    AnswersOnlyByReading(s, setup, e, p);
    var key := s.drains[p].key;
    HistoryHolds(setup, events, key);
    MessagesExact(s, setup, key, HistoryOf(setup, events, key));
    Snoc(events, e);
  }

  /** A read waits exactly when it holds a place and nothing waits; otherwise it answers. */
  lemma ReadDecides(setup: Setup, events: seq<Event>, p: nat)
    requires p in After(setup, events).drains
    requires After(setup, events).drains[p].pc.Registered? || After(setup, events).drains[p].pc.Rereading?
    ensures var d, d' := After(setup, events).drains[p], After(setup, events + [Read(p)]).drains;
            var none := Waiters(HistoryOf(setup, events, d.key), setup.lane(d.key)) == {};
            && p in d'
            && (if Holding(d) && none then d'[p].pc == Blocked(HoldOf(d)) else d'[p].pc.Answered?)
  {
    hide H.Dropped, Messages, After, Waiters;
    var s := After(setup, events);
    var key := s.drains[p].key;
    Follow(setup, events, Read(p));
    HistoryHolds(setup, events, key);
    MessagesExact(s, setup, key, HistoryOf(setup, events, key));
  }

  /** So a waiting drain that is woken, by an append, its deadline or a stop, answers what waits by then. */
  lemma WokenAnswers(setup: Setup, events: seq<Event>, p: nat)
    requires p in After(setup, events).drains && After(setup, events).drains[p].pc.Blocked?
    ensures var key := After(setup, events).drains[p].key;
            var d := After(setup, events + [EndWait(p)] + [Read(p)]).drains;
            && p in d && d[p].pc.Answered?
            && ExactlyWaiting(d[p].pc.messages, HistoryOf(setup, events, key), setup.lane(key))
  {
    hide Messages, ExactlyWaiting, H.Dropped, After;
    var s, key := After(setup, events), After(setup, events).drains[p].key;
    var h := HistoryOf(setup, events, key);
    HistoryHolds(setup, events, key);
    MessagesExact(s, setup, key, h);
    Follow(setup, events, EndWait(p));
    Follow(setup, events + [EndWait(p)], Read(p));
    SameMessages(s, After(setup, events + [EndWait(p)]), setup, key);
  }

  /** An append is taken exactly while there is room, and is numbered one past every request saved before it. */
  lemma AppendNumbered(setup: Setup, events: seq<Event>, a: nat, key: string, sealed: string)
    requires a !in After(setup, events).appends
    ensures var h, pending := HistoryOf(setup, events, key), After(setup, events + [Save(a, key, sealed)]).appends;
            && (a in pending <==> |Waiters(h, setup.lane(key))| < Room(setup.lane(key)))
            && (a in pending ==> pending[a] == Pending(key, |h.issued| + 1))
  {
    hide After, Waiters, Q.Waiting, Q.Load;
    var s, h := After(setup, events), HistoryOf(setup, events, key);
    Follow(setup, events, Save(a, key, sealed));
    HistoryHolds(setup, events, key);
    MessagesExact(s, setup, key, h);
    assert Q.StandsAt(Standing(s, key, h), setup.lane(key), h.now);
  }

  ghost predicate PlaceGiven(s: System, s': System, setup: Setup, p: nat)
    requires p in s.drains && s.drains[p].pc.Begun?
  {
    var d := s.drains[p];
    && p in s'.drains && s'.drains[p].pc.Registered?
    && (s'.drains[p].pc.held.Some? <==>
          && d.pc.wants && !s.stopping
          && |s.holds.active| < setup.caps.total
          && |H.OwnedBy(s.holds.active, d.owner)| < setup.caps.perOwner)
    && (s'.drains[p].pc.held.Some? ==>
          var h := s'.drains[p].pc.held.value;
          && h.keys == [d.key] && h.id !in s.holds.active && s'.holds.active == s.holds.active[h.id := d.owner])
    && (s'.drains[p].pc.held.None? ==> s'.holds == s.holds)
  }

  lemma RegisterGives(s: System, setup: Setup, p: nat)
    requires p in s.drains && s.drains[p].pc.Begun?
    requires s.holds.next + 1 !in s.holds.active && s.holds.total == |s.holds.active|
    requires H.Count(s.holds.owners, s.drains[p].owner) == |H.OwnedBy(s.holds.active, s.drains[p].owner)|
    ensures PlaceGiven(s, RegisterStep(s, setup, p), setup, p)
  {
    hide H.Enlist, H.Count, H.OwnedBy;
  }

  /** A drain is given a place exactly when it asks for one, the process runs on, and both caps have one left. */
  lemma PlaceGivenIff(setup: Setup, events: seq<Event>, p: nat)
    requires p in After(setup, events).drains && After(setup, events).drains[p].pc.Begun?
    ensures PlaceGiven(After(setup, events), After(setup, events + [Register(p)]), setup, p)
  {
    hide After, DrainsKept, H.Listed, H.OwnedBy, H.Guarded, H.Count, RegisterStep, PlaceGiven;
    var s := After(setup, events);
    AlwaysKept(setup, events);
    Follow(setup, events, Register(p));
    H.FreshId(s.holds, s.guards);
    assert H.CountedOwner(s.holds, setup.caps, s.drains[p].owner);
    RegisterGives(s, setup, p);
  }
}

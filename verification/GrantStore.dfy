/**
  The grants of one server: the stored records and library pointers, the device tickets held in memory, and the steps
  taken under the grants lock. A save can fail before anything is stored, or after: the record is put, and then the
  directory fails to sync.
 */
module GrantStore {
  import opened Results
  import opened Counting
  import opened GrantRecord

  type Gid = nat
  type TicketId = nat

  const TICKET_MS: nat := 600_000
  const MAX_TICKETS: nat := 3

  datatype Ticket = Ticket(gid: Gid, expiresAt: nat)
  type Tickets = map<TicketId, Ticket>

  /**
    How a save ends: stored, not stored, or stored with a directory that fails to sync, which is reported as failed.
   */
  datatype Save = Done | Lost | Unsynced

  /** A device stored by spending a ticket. */
  datatype Admission = Admission(ticket: TicketId, device: Hash, save: Save)

  datatype State = State(
    records: map<Gid, Record>,
    pointers: map<nat, Gid>,
    tickets: Tickets,
    minted: TicketId,        // every ticket below this has been given out
    log: seq<Admission>)

  const INITIAL := State(map[], map[], map[], 0, [])

  datatype Event =
    | Create(gid: Gid, host: nat, code: Hash, body: Body, now: nat, save: Save)
    | Operate(gid: Gid, op: Op, now: nat, save: Save)
    | Mint(gid: Gid, now: nat, kept: set<TicketId>)
    | Spend(ticket: TicketId, device: Hash, now: nat, save: Save)
    | Claim(gid: Gid, reservation: Reservation, now: nat, save: Save, pointed: Save)
    | Reap(gid: Gid, now: nat, unpointed: bool, removed: bool)   // which of the two deletions succeed
    | Forget(gid: Gid)
    | Restart

  // ---- tickets

  function Unexpired(tickets: Tickets, now: nat): Tickets {
    map t | t in tickets && tickets[t].expiresAt > now :: tickets[t]
  }

  function Mine(tickets: Tickets, gid: Gid): set<TicketId> {
    set t | t in tickets && tickets[t].gid == gid
  }

  /** Of a grant's tickets, the ones left when the oldest make room for one more. */
  predicate Newest(tickets: Tickets, gid: Gid, kept: set<TicketId>) {
    var mine := Mine(tickets, gid);
    && kept <= mine
    && |kept| < MAX_TICKETS
    && (|mine| < MAX_TICKETS ==> kept == mine)
    && (|mine| >= MAX_TICKETS ==> |kept| == MAX_TICKETS - 1)
    && forall t, u :: t in kept && u in mine - kept ==> tickets[u].expiresAt <= tickets[t].expiresAt
  }

  /** Every other grant's tickets, and of this one's only these. */
  function Holding(tickets: Tickets, gid: Gid, kept: set<TicketId>): Tickets {
    map t | t in tickets && (tickets[t].gid != gid || t in kept) :: tickets[t]
  }

  function Minted(tickets: Tickets, gid: Gid, now: nat, kept: set<TicketId>, id: TicketId): Tickets {
    Holding(Unexpired(tickets, now), gid, kept)[id := Ticket(gid, now + TICKET_MS)]
  }

  lemma HoldingLess(tickets: Tickets, gid: Gid, kept: set<TicketId>, t: TicketId)
    requires t in kept && kept <= Mine(tickets, gid)
    ensures Holding(tickets, gid, kept) - {t} == Holding(tickets, gid, kept - {t})
  {
  }

  lemma HoldingMine(tickets: Tickets, gid: Gid, kept: set<TicketId>, id: TicketId, expiresAt: nat)
    requires kept <= Mine(tickets, gid) && id !in tickets
    ensures Mine(Holding(tickets, gid, kept)[id := Ticket(gid, expiresAt)], gid) == kept + {id} && id !in kept
  {
  }

  lemma HoldingAll(tickets: Tickets, gid: Gid)
    ensures Holding(tickets, gid, Mine(tickets, gid)) == tickets
  {
  }

  function Forgotten(tickets: Tickets, gid: Gid): Tickets {
    map t | t in tickets && tickets[t].gid != gid :: tickets[t]
  }

  /** `mint_ticket`: lapsed tickets go, and the grant's oldest while it has too many. */
  method MintTicket(tickets: Tickets, gid: Gid, now: nat, id: TicketId) returns (after: Tickets)
    requires id !in tickets
    ensures var kept := Mine(after, gid) - {id};
            Newest(Unexpired(tickets, now), gid, kept) && after == Minted(tickets, gid, now, kept, id)
  {
    hide Holding, Mine;
    var live := Unexpired(tickets, now);
    var mine := Mine(live, gid);
    assert mine <= live.Keys by { MineThere(live, gid); }
    ghost var all := mine;
    after := live;
    HoldingAll(live, gid);
    while |mine| >= MAX_TICKETS
      invariant mine <= all && (|all| < MAX_TICKETS ==> mine == all) && (|all| >= MAX_TICKETS
                ==> |mine| >= MAX_TICKETS - 1)
      invariant forall t, u :: t in mine && u in all - mine ==> live[u].expiresAt <= live[t].expiresAt
      invariant after == Holding(live, gid, mine)
    {
      var oldest := Oldest(live, mine);
      HoldingLess(live, gid, mine, oldest);
      mine := mine - {oldest};
      after := after - {oldest};
    }
    HoldingMine(live, gid, mine, id, now + TICKET_MS);
    after := after[id := Ticket(gid, now + TICKET_MS)];
    assert mine + {id} - {id} == mine;
  }

  lemma MineThere(tickets: Tickets, gid: Gid)
    ensures Mine(tickets, gid) <= tickets.Keys
  {
  }

  method Oldest(tickets: Tickets, mine: set<TicketId>) returns (oldest: TicketId)
    requires mine != {} && mine <= tickets.Keys
    ensures oldest in mine && forall t :: t in mine ==> tickets[oldest].expiresAt <= tickets[t].expiresAt
  {
    oldest :| oldest in mine;
    var rest := mine - {oldest};
    while rest != {}
      invariant rest <= mine && oldest in mine
      invariant forall t :: t in mine && t !in rest ==> tickets[oldest].expiresAt <= tickets[t].expiresAt
      decreases |rest|
    {
      var t :| t in rest;
      if tickets[t].expiresAt < tickets[oldest].expiresAt { oldest := t; }
      rest := rest - {t};
    }
  }

  // ---- steps

  function Stored(s: State, gid: Gid, r: Record, save: Save): State {
    if save.Lost? then s else s.(records := s.records[gid := r])
  }

  /** Another grant's record claims the library, by the pointer to it. */
  predicate ClaimedByOther(s: State, id: nat, gid: Gid) {
    && id in s.pointers && s.pointers[id] != gid && s.pointers[id] in s.records
    && s.records[s.pointers[id]].library.Some? && s.records[s.pointers[id]].library.value.id == id
  }

  predicate Enabled(s: State, e: Event) {
    match e
    case Create(gid, host, code, body, now, _) => gid !in s.records && Created(host, code, body, now).Some?
    case Operate(gid, op, now, _) =>
      gid in s.records && !op.SpendTicket? && !op.Reserve? && Outcome(s.records[gid], op, now).Some?
    case Mint(gid, now, kept) => Newest(Unexpired(s.tickets, now), gid, kept)
    case Spend(ticket, device, now, _) =>
      && ticket in s.tickets && s.tickets[ticket].expiresAt > now && s.tickets[ticket].gid in s.records
      && Outcome(s.records[s.tickets[ticket].gid], SpendTicket(device), now).Some?
    case Claim(gid, reservation, now, _, _) =>
      && gid in s.records
      && Outcome(s.records[gid], Reserve(reservation, ClaimedByOther(s, reservation.id, gid)), now).Some?
    case Reap(gid, now, _, _) =>
      gid in s.records && EndedAt(s.records[gid], now).Some? && now >= EndedAt(s.records[gid], now).value + REAP_MS
    case Forget(_) => true
    case Restart => true
  }

  function Spent(s: State, ticket: TicketId, device: Hash, now: nat, save: Save): State
    requires Enabled(s, Spend(ticket, device, now, save))
  {
    var gid := s.tickets[ticket].gid;
    var r := s.records[gid];
    var r' := Outcome(r, SpendTicket(device), now).value;
    if device in r.devices then s.(tickets := s.tickets - {ticket})
    else
      var stored := Stored(s, gid, r', save);
      stored.(tickets := if save.Done? then s.tickets - {ticket} else s.tickets,
              log := if save.Lost? then s.log else s.log + [Admission(ticket, device, save)])
  }

  function Claimed(s: State, gid: Gid, reservation: Reservation, now: nat, save: Save, pointed: Save): State
    requires Enabled(s, Claim(gid, reservation, now, save, pointed))
  {
    var r := s.records[gid];
    var r' := Outcome(r, Reserve(reservation, ClaimedByOther(s, reservation.id, gid)), now).value;
    var stored := if r.library.Some? then s else Stored(s, gid, r', save);
    if (r.library.Some? || save.Done?) && !pointed.Lost?
    then stored.(pointers := stored.pointers[reservation.id := gid]) else stored
  }

  function Next(s: State, e: Event): State
    requires Enabled(s, e)
  {
    match e
    case Create(gid, host, code, body, now, save) => Stored(s, gid, Created(host, code, body, now).value, save)
    case Operate(gid, op, now, save) => Stored(s, gid, Outcome(s.records[gid], op, now).value, save)
    case Mint(gid, now, kept) => s.(tickets := Minted(s.tickets, gid, now, kept, s.minted), minted := s.minted + 1)
    case Spend(ticket, device, now, save) => Spent(s, ticket, device, now, save)
    case Claim(gid, reservation, now, save, pointed) => Claimed(s, gid, reservation, now, save, pointed)
    case Reap(gid, now, unpointed, removed) =>
      var l := s.records[gid].library;
      s.(records := if removed then s.records - {gid} else s.records,
         pointers := if l.Some? && unpointed then s.pointers - {l.value.id} else s.pointers,
         tickets := if removed then Forgotten(s.tickets, gid) else s.tickets)
    case Forget(gid) => s.(tickets := Forgotten(s.tickets, gid))
    case Restart => s.(tickets := map[])
  }

  // ---- the records

  predicate RecordsGood(s: State) {
    forall gid :: gid in s.records ==> Good(s.records[gid])
  }

  /** Every step keeps every record good, and each record it does not reap evolves. */
  lemma StepKeeps(s: State, e: Event, gid: Gid)
    requires RecordsGood(s) && Enabled(s, e)
    ensures RecordsGood(Next(s, e))
    ensures gid in s.records && gid in Next(s, e).records
            ==> Evolves(s.records[gid], Next(s, e).records[gid]) && Keeps(s.records[gid], Next(s, e).records[gid])
  {
    hide Good, Outcome, Created, Newest, Minted, EndedAt;
    if gid in s.records { Itself(s.records[gid]); }
    match e {
      case Create(_, host, code, body, now, _) => CreatedGood(host, code, body, now);
      case Operate(g, op, now, _) =>
        OperationKeeps(s.records[g], op, now);
        EvolvesKeeps(s.records[g], Outcome(s.records[g], op, now).value);
      case Spend(ticket, device, now, _) =>
        var r := s.records[s.tickets[ticket].gid];
        OperationKeeps(r, SpendTicket(device), now);
        EvolvesKeeps(r, Outcome(r, SpendTicket(device), now).value);
      case Claim(g, reservation, now, _, _) =>
        var op := Reserve(reservation, ClaimedByOther(s, reservation.id, g));
        OperationKeeps(s.records[g], op, now);
        EvolvesKeeps(s.records[g], Outcome(s.records[g], op, now).value);
      case _ =>
    }
  }

  lemma Itself(r: Record)
    requires Good(r)
    ensures Evolves(r, r) && Keeps(r, r)
  {
  }

  lemma EvolvesKeeps(r: Record, r': Record)
    requires Good(r) && Good(r') && Evolves(r, r')
    ensures Keeps(r, r')
  {
  }

  // ---- whole runs

  predicate Runs(s: State, es: seq<Event>)
    decreases es
  {
    es == [] || (Enabled(s, es[0]) && Runs(Next(s, es[0]), es[1..]))
  }

  function After(s: State, es: seq<Event>): State
    requires Runs(s, es)
    decreases es
  {
    if es == [] then s else After(Next(s, es[0]), es[1..])
  }

  lemma OneStep(s: State, e: Event)
    requires Enabled(s, e)
    ensures Runs(s, [e]) && After(s, [e]) == Next(s, e)
  {
    hide Enabled, Next;
    assert [e][1..] == [] && [e][0] == e;
  }

  lemma TwoSteps(s: State, e: Event, f: Event)
    requires Enabled(s, e) && Enabled(Next(s, e), f)
    ensures Runs(s, [e, f]) && After(s, [e, f]) == Next(Next(s, e), f)
  {
    hide Enabled, Next;
    OneStep(Next(s, e), f);
    assert [e, f][1..] == [f] && [e, f][0] == e;
  }

  /** The grant is never reaped in the run. */
  predicate Unreaped(es: seq<Event>, gid: Gid) {
    forall i :: 0 <= i < |es| && es[i].Reap? && es[i].removed ==> es[i].gid != gid
  }

  lemma StillThere(s: State, e: Event, gid: Gid)
    requires Enabled(s, e) && gid in s.records && !(e.Reap? && e.removed && e.gid == gid)
    ensures gid in Next(s, e).records
  {
    hide Outcome, Created, Newest, Minted, EndedAt;
  }

  /**
    Over every run of steps, with saves that fail in either way, every record is good, and a grant that is not reaped
    stays revoked and empty-handed once revoked, and keeps its first redemption and its library.
   */
  lemma {:induction false} RunKeeps(s: State, es: seq<Event>, gid: Gid)
    requires RecordsGood(s) && Runs(s, es)
    ensures RecordsGood(After(s, es))
    ensures gid in s.records && Unreaped(es, gid)
            ==> gid in After(s, es).records && Keeps(s.records[gid], After(s, es).records[gid])
    decreases es
  {
    hide Enabled, Next, Good, Keeps, Evolves;
    if es == [] {
      if gid in s.records { Itself(s.records[gid]); }
    } else {
      var s1 := Next(s, es[0]);
      StepKeeps(s, es[0], gid);
      RunKeeps(s1, es[1..], gid);
      if gid in s.records && Unreaped(es, gid) {
        assert Unreaped(es[1..], gid) by { assert forall i :: 0 <= i < |es[1..]| ==> es[1..][i] == es[i + 1]; }
        StillThere(s, es[0], gid);
        KeepsOn(s.records[gid], s1.records[gid], After(s1, es[1..]).records[gid]);
      }
    }
  }

  lemma KeepsOn(a: Record, b: Record, c: Record)
    requires Keeps(a, b) && Keeps(b, c)
    ensures Keeps(a, c)
  {
  }

  // ---- tickets

  function Admits(log: seq<Admission>, ticket: TicketId): nat {
    if log == [] then 0
    else Admits(log[..|log| - 1], ticket) + if log[|log| - 1].ticket == ticket then 1 else 0
  }

  function Unsyncs(log: seq<Admission>, ticket: TicketId): nat {
    if log == [] then 0
    else Unsyncs(log[..|log| - 1], ticket) + if log[|log| - 1].ticket == ticket
        && log[|log| - 1].save.Unsynced? then 1 else 0
  }

  /** A ticket still held has admitted only devices whose save failed to sync; a spent one, one device more. */
  ghost predicate TicketsCount(s: State) {
    && (forall t :: t in s.tickets ==> t < s.minted)
    && (forall t :: t >= s.minted ==> Admits(s.log, t) == 0)
    && (forall t :: Admits(s.log, t) <= Unsyncs(s.log, t) + if t in s.tickets then 0 else 1)
  }

  lemma Logged(log: seq<Admission>, a: Admission, t: TicketId)
    ensures Admits(log + [a], t) == Admits(log, t) + if a.ticket == t then 1 else 0
    ensures Unsyncs(log + [a], t) == Unsyncs(log, t) + if a.ticket == t && a.save.Unsynced? then 1 else 0
  {
    assert (log + [a])[..|log|] == log;
  }

  lemma StepCounts(s: State, e: Event)
    requires TicketsCount(s) && Enabled(s, e)
    ensures TicketsCount(Next(s, e))
  {
    hide Outcome, Created, Newest, EndedAt, Admits, Unsyncs, ClaimedByOther;
    match e {
      case Spend(ticket, device, now, save) =>
        var a := Admission(ticket, device, save);
        forall t
          ensures Admits(s.log + [a], t) == Admits(s.log, t) + if ticket == t then 1 else 0
          ensures Unsyncs(s.log + [a], t) == Unsyncs(s.log, t) + if ticket == t && save.Unsynced? then 1 else 0
        {
          Logged(s.log, a, t);
        }
      case _ =>
    }
  }

  /** A ticket admits at most one device, and one more for each save that stored its device but failed to sync. */
  lemma {:induction false} TicketOnce(s: State, es: seq<Event>, ticket: TicketId)
    requires TicketsCount(s) && Runs(s, es)
    ensures TicketsCount(After(s, es)) && Admits(After(s, es).log, ticket) <= 1 + Unsyncs(After(s, es).log, ticket)
    decreases es
  {
    hide Enabled, Next, Admits, Unsyncs;
    if es != [] {
      StepCounts(s, es[0]);
      TicketOnce(Next(s, es[0]), es[1..], ticket);
    }
  }

  /**
    The exception is real: when the first save stores its device and then fails to sync, the ticket is still there for a
    second device.
   */
  lemma UnsyncedTicketAdmitsTwo(s: State, ticket: TicketId, a: Hash, b: Hash, now: nat)
    requires ticket in s.tickets && s.tickets[ticket].expiresAt > now && s.tickets[ticket].gid in s.records
    requires var r := s.records[s.tickets[ticket].gid];
             && Live(r, now) && r.redeemedAt.Some? && a != b && a !in r.devices && b !in r.devices
             && (r.maxDevices.Some? ==> |r.devices| + 2 <= r.maxDevices.value)
    ensures var es := [Spend(ticket, a, now, Unsynced), Spend(ticket, b, now, Done)];
            && Runs(s, es)
            && s.tickets[ticket].gid in After(s, es).records
            && After(s, es).records[s.tickets[ticket].gid].devices == s.records[s.tickets[ticket].gid].devices
                + [a] + [b]
  {
    hide Runs, After, Live;
    var e, f := Spend(ticket, a, now, Unsynced), Spend(ticket, b, now, Done);
    var gid := s.tickets[ticket].gid;
    var s1 := Next(s, e);
    AdmittedLive(s.records[gid], a, now);
    assert s1.tickets == s.tickets && s1.records[gid] == Admitted(s.records[gid], a);
    TwoSteps(s, e, f);
  }

  /** When a ticket was minted, and for which grant. */
  datatype Minting = Minting(gid: Gid, at: nat)

  /** The tickets a run gives out, by number. */
  function Mints(es: seq<Event>): seq<Minting> {
    if es == [] then []
    else (if es[0].Mint? then [Minting(es[0].gid, es[0].now)] else []) + Mints(es[1..])
  }

  /** Every ticket held is one of those, for its own grant, and lapses ten minutes after it was minted. */
  predicate Dated(s: State, mints: seq<Minting>) {
    && s.minted == |mints|
    && forall t :: t in s.tickets ==>
         t < |mints| && s.tickets[t].gid == mints[t].gid && s.tickets[t].expiresAt == mints[t].at + 600_000
  }

  lemma StepDated(s: State, e: Event, mints: seq<Minting>)
    requires Dated(s, mints) && Enabled(s, e)
    ensures Dated(Next(s, e), mints + if e.Mint? then [Minting(e.gid, e.now)] else [])
  {
    hide Outcome, Created, Newest, EndedAt, ClaimedByOther;
  }

  lemma {:induction false} RunDated(s: State, es: seq<Event>, mints: seq<Minting>)
    requires Dated(s, mints) && Runs(s, es)
    ensures Dated(After(s, es), mints + Mints(es))
    decreases es
  {
    hide Enabled, Next, Dated;
    if es == [] {
      assert mints + Mints(es) == mints;
    } else {
      var more := if es[0].Mint? then [Minting(es[0].gid, es[0].now)] else [];
      StepDated(s, es[0], mints);
      RunDated(Next(s, es[0]), es[1..], mints + more);
      assert mints + more + Mints(es[1..]) == mints + Mints(es);
    }
  }

  /**
    Over every run, a ticket lets a device in only within ten minutes of its minting and only to the grant it was minted
    for, while that grant is live, redeemed, and has room or the device already.
   */
  lemma TicketsLapse(es: seq<Event>, ticket: TicketId, device: Hash, now: nat, save: Save)
    requires Runs(INITIAL, es) && Enabled(After(INITIAL, es), Spend(ticket, device, now, save))
    ensures var s, mints := After(INITIAL, es), Mints(es);
            && ticket < |mints| && now < mints[ticket].at + 600_000
            && mints[ticket].gid in s.records
            && var r := s.records[mints[ticket].gid];
               && Live(r, now) && r.redeemedAt.Some?
               && (device in r.devices || r.maxDevices.None? || |r.devices| < r.maxDevices.value)
  {
    hide Runs, After, Lapsed;
    RunDated(INITIAL, es, []);
    assert [] + Mints(es) == Mints(es);
  }

  /** And a new ticket does let one in, for those ten minutes, on those terms. */
  lemma TicketWorks(s: State, gid: Gid, at: nat, kept: set<TicketId>, device: Hash, now: nat, save: Save)
    requires Enabled(s, Mint(gid, at, kept)) && gid in s.records
    ensures Enabled(Next(s, Mint(gid, at, kept)), Spend(s.minted, device, now, save)) <==>
              var r := s.records[gid];
              && now < at + 600_000 && Live(r, now) && r.redeemedAt.Some?
              && (device in r.devices || r.maxDevices.None? || |r.devices| < r.maxDevices.value)
  {
    hide Newest, Lapsed;
  }

  /** A ticket goes once its device is stored, or was there already, and not before; a save that fails keeps it. */
  lemma TicketSpent(s: State, ticket: TicketId, device: Hash, now: nat, save: Save)
    requires Enabled(s, Spend(ticket, device, now, save))
    ensures var gid, s' := s.tickets[ticket].gid, Next(s, Spend(ticket, device, now, save));
            && (ticket !in s'.tickets <==> device in s.records[gid].devices || save.Done?)
            && gid in s'.records
            && (device in s'.records[gid].devices <==> device in s.records[gid].devices || !save.Lost?)
            && s'.tickets - {ticket} == s.tickets - {ticket}
  {
    hide Lapsed;
  }

  /** Minting drops lapsed tickets, and of the rest only the grant's own oldest beyond two. */
  lemma MintSpares(s: State, gid: Gid, now: nat, kept: set<TicketId>, t: TicketId)
    requires Enabled(s, Mint(gid, now, kept)) && t in s.tickets && t < s.minted
    ensures var s', live := Next(s, Mint(gid, now, kept)), Unexpired(s.tickets, now);
            && (t in s'.tickets ==> s.tickets[t].expiresAt > now && s'.tickets[t] == s.tickets[t])
            && (s.tickets[t].expiresAt > now && t !in s'.tickets
                ==> s.tickets[t].gid == gid && |Mine(live, gid)| >= 3
                    && forall u :: u in kept ==> s.tickets[t].expiresAt <= s.tickets[u].expiresAt)
  {
  }

  /** A record is reaped exactly thirty days after its grant's end at the earliest. */
  lemma ReapedLate(s: State, gid: Gid, now: nat, unpointed: bool, removed: bool)
    ensures Enabled(s, Reap(gid, now, unpointed, removed)) <==>
              && gid in s.records && !Live(s.records[gid], now)
              && (if s.records[gid].revokedAt.Some? then now >= s.records[gid].revokedAt.value + 2_592_000_000
                  else ExpiresAt(s.records[gid]).Some? && now >= ExpiresAt(s.records[gid]).value + 2_592_000_000)
  {
  }

  /** No grant has more than three tickets outstanding. */
  ghost predicate FewTickets(s: State) {
    (forall t :: t in s.tickets ==> t < s.minted) && forall gid :: |Mine(s.tickets, gid)| <= 3
  }

  lemma FewerTickets(tickets: Tickets, rest: Tickets, gid: Gid)
    requires rest.Keys <= tickets.Keys && forall t :: t in rest ==> rest[t].gid == tickets[t].gid
    ensures |Mine(rest, gid)| <= |Mine(tickets, gid)|
  {
    SubsetSize(Mine(rest, gid), Mine(tickets, gid));
  }

  lemma MintedFew(tickets: Tickets, gid: Gid, now: nat, kept: set<TicketId>, id: TicketId, other: Gid)
    requires Newest(Unexpired(tickets, now), gid, kept) && id !in tickets
    ensures |Mine(Minted(tickets, gid, now, kept, id), other)|
            <= if other == gid then MAX_TICKETS else |Mine(tickets, other)|
  {
    var after := Minted(tickets, gid, now, kept, id);
    if other == gid {
      HoldingMine(Unexpired(tickets, now), gid, kept, id, now + TICKET_MS);
    } else {
      SubsetSize(Mine(after, other), Mine(tickets, other));
    }
  }

  lemma StepFew(s: State, e: Event)
    requires FewTickets(s) && Enabled(s, e)
    ensures FewTickets(Next(s, e))
  {
    hide Outcome, Created, Newest, EndedAt, ClaimedByOther, Mine, Minted;
    var s' := Next(s, e);
    if e.Mint? {
      assert s.minted !in s.tickets;
      forall gid ensures |Mine(s'.tickets, gid)| <= 3 {
        MintedFew(s.tickets, e.gid, e.now, e.kept, s.minted, gid);
      }
      MintedBelow(s.tickets, e.gid, e.now, e.kept, s.minted);
    } else {
      forall gid ensures |Mine(s'.tickets, gid)| <= 3 { FewerTickets(s.tickets, s'.tickets, gid); }
    }
  }

  lemma MintedBelow(tickets: Tickets, gid: Gid, now: nat, kept: set<TicketId>, id: TicketId)
    ensures forall t :: t in Minted(tickets, gid, now, kept, id) ==> t == id || t in tickets
  {
  }

  lemma {:induction false} AlwaysFewTickets(s: State, es: seq<Event>)
    requires FewTickets(s) && Runs(s, es)
    ensures FewTickets(After(s, es))
    decreases es
  {
    hide Enabled, Next, FewTickets;
    if es != [] {
      StepFew(s, es[0]);
      AlwaysFewTickets(Next(s, es[0]), es[1..]);
    }
  }

  // ---- one library, one grant

  /** Every reservation is found by its pointer, so no two records hold the same one. */
  predicate Pointed(s: State) {
    forall gid :: gid in s.records && s.records[gid].library.Some?
                  ==> s.records[gid].library.value.id in s.pointers
                      && s.pointers[s.records[gid].library.value.id] == gid
  }

  /** The pointer already names the grant, as one left behind by an earlier grant of the same number does. */
  predicate PointsTo(s: State, id: nat, gid: Gid) {
    id in s.pointers && s.pointers[id] == gid
  }

  /**
    The step leaves no record with a library its pointer does not name: a new reservation's writes all succeed, or its
    record is not stored either, and a reap that deletes the pointer deletes the record too.
   */
  predicate WritesThrough(s: State, e: Event) {
    match e
    case Claim(gid, reservation, _, save, pointed) =>
      gid in s.records && s.records[gid].library.None?
      ==> save.Lost? || (save.Done? && !pointed.Lost?) || PointsTo(s, reservation.id, gid)
    case Reap(gid, _, unpointed, removed) =>
      gid in s.records && s.records[gid].library.Some? && unpointed ==> removed
    case _ => true
  }

  lemma ClaimPoints(s: State, e: Event)
    requires Pointed(s) && e.Claim? && Enabled(s, e)
    ensures WritesThrough(s, e) ==> Pointed(Next(s, e))
  {
    hide Lapsed;
  }

  lemma ReapPoints(s: State, e: Event)
    requires Pointed(s) && e.Reap? && Enabled(s, e)
    ensures WritesThrough(s, e) ==> Pointed(Next(s, e))
  {
    hide EndedAt;
  }

  /** A step that does not write through leaves its grant with a library no pointer names. */
  lemma NotThroughUnpoints(s: State, e: Event)
    requires Pointed(s) && Enabled(s, e) && !WritesThrough(s, e)
    ensures var s' := Next(s, e);
            && e.gid in s'.records && s'.records[e.gid].library.Some?
            && !PointsTo(s', s'.records[e.gid].library.value.id, e.gid)
  {
    hide Lapsed;
  }

  /** Whether each step keeps every reservation found is decided before it. */
  lemma StepPointsIff(s: State, e: Event)
    requires Pointed(s) && Enabled(s, e)
    ensures Pointed(Next(s, e)) <==> WritesThrough(s, e)
  {
    hide Outcome, Created, Newest, EndedAt, Minted;
    match e {
      case Claim(_, _, _, _, _) =>
        ClaimPoints(s, e);
        if !WritesThrough(s, e) { NotThroughUnpoints(s, e); }
      case Reap(_, _, _, _) =>
        ReapPoints(s, e);
        if !WritesThrough(s, e) { NotThroughUnpoints(s, e); }
      case Create(_, host, code, body, now, _) =>
        CreatedUnclaimed(host, code, body, now);
      case Operate(gid, op, now, _) =>
        OnlyReserveClaims(s.records[gid], op, now);
      case Spend(ticket, device, now, _) =>
        OnlyReserveClaims(s.records[s.tickets[ticket].gid], SpendTicket(device), now);
      case _ =>
    }
  }

  /** A reservation whose pointer was never written is found again once its own grant asks for it again. */
  lemma RetryPoints(s: State, gid: Gid, reservation: Reservation, now: nat, save: Save, pointed: Save)
    requires gid in s.records && s.records[gid].library == Some(reservation)
    requires Live(s.records[gid], now) && s.records[gid].redeemedAt.Some? && !pointed.Lost?
    ensures var e := Claim(gid, reservation, now, save, pointed);
            && Enabled(s, e) && PointsTo(Next(s, e), reservation.id, gid) && Next(s, e).records == s.records
  {
    hide Lapsed;
  }

  predicate AllThrough(s: State, es: seq<Event>)
    requires Runs(s, es)
    decreases es
  {
    es == [] || (WritesThrough(s, es[0]) && AllThrough(Next(s, es[0]), es[1..]))
  }

  /** While every step writes through, no two grants ever hold the same library. */
  lemma {:induction false} LibrariesClaimedOnce(s: State, es: seq<Event>, a: Gid, b: Gid)
    requires Pointed(s) && Runs(s, es) && AllThrough(s, es)
    ensures Pointed(After(s, es))
    ensures var s' := After(s, es);
            a != b && a in s'.records && b in s'.records && s'.records[a].library.Some? && s'.records[b].library.Some?
            ==> s'.records[a].library.value.id != s'.records[b].library.value.id
    decreases es
  {
    hide Enabled, Next, WritesThrough;
    if es != [] {
      StepPointsIff(s, es[0]);
      LibrariesClaimedOnce(Next(s, es[0]), es[1..], a, b);
    }
  }

  predicate Unclaimed(s: State, gid: Gid, now: nat) {
    gid in s.records && Live(s.records[gid], now) && s.records[gid].redeemedAt.Some? && s.records[gid].library.None?
  }

  /** The reservation a step that does not write through leaves its grant with. */
  function Stranded(s: State, e: Event): Reservation
    requires Enabled(s, e) && !WritesThrough(s, e)
  {
    if e.Claim? then e.reservation else s.records[e.gid].library.value
  }

  /**
    After any step that does not write through, any other grant free to reserve can take the same library, with every
    write of its own succeeding.
   */
  lemma NotThroughClaimedTwice(s: State, e: Event, b: Gid, now: nat)
    requires Pointed(s) && Enabled(s, e) && !WritesThrough(s, e) && b != e.gid && Unclaimed(s, b, now)
    ensures var claim := Claim(b, Stranded(s, e), now, Done, Done);
            && Runs(s, [e, claim]) && WritesThrough(Next(s, e), claim)
            && var s' := After(s, [e, claim]);
               && e.gid in s'.records && b in s'.records
               && s'.records[e.gid].library == s'.records[b].library == Some(Stranded(s, e))
  {
    hide Runs, After, Lapsed, EndedAt;
    var claim := Claim(b, Stranded(s, e), now, Done, Done);
    var s1 := Next(s, e);
    assert s1.records[e.gid].library == Some(Stranded(s, e)) && s1.records[b] == s.records[b];
    assert !ClaimedByOther(s1, Stranded(s, e).id, b) by { StrandedUnclaimed(s, e, b); }
    TwoSteps(s, e, claim);
  }

  lemma StrandedUnclaimed(s: State, e: Event, b: Gid)
    requires Pointed(s) && Enabled(s, e) && !WritesThrough(s, e) && b != e.gid && b in s.records
             && s.records[b].library.None?
    ensures !ClaimedByOther(Next(s, e), Stranded(s, e).id, b)
  {
    hide Lapsed, EndedAt;
  }

  /** A server with no grants yet is where all of these start. */
  lemma InitialGood()
    ensures RecordsGood(INITIAL) && TicketsCount(INITIAL) && FewTickets(INITIAL) && Pointed(INITIAL)
  {
    forall gid ensures |Mine(INITIAL.tickets, gid)| <= MAX_TICKETS { assert Mine(INITIAL.tickets, gid) == {}; }
  }
}

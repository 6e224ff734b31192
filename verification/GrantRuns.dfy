/** Runs from an empty server that reach the failures the grants' write errors allow. */
module GrantRuns {
  import opened Results
  import opened GrantRecord
  import opened GrantStore

  const INVITE := Body(Given(1), Given([Scout]), Given(map[Scout := 1]), Absent, Absent, Absent, Given(5))

  /** A guest invited and let in at time zero, whose access has no end. */
  function Guest(code: Hash, device: Hash): Record {
    Record(0, Some(1), code, [device], Some(5), [Scout], map[Scout := 1], None, CODE_DEFAULT_MS,
           None, None, Some(0), None, None, false, None)
  }

  function Join(gid: Gid, code: Hash, device: Hash): seq<Event> {
    [Create(gid, 0, code, INVITE, 0, Done), Operate(gid, Redeem(code, device), 0, Done)]
  }

  lemma Invited(code: Hash)
    ensures Created(0, code, INVITE, 0) == Some(Guest(code, 0).(devices := [], redeemedAt := None))
  {
    hide Deduped;
    OneAddon();
    var r := Guest(code, 0).(devices := [], redeemedAt := None);
    var blank := Blank(0, code, 0);
    assert map[] + map[Scout := 1] == map[Scout := 1];
    assert Changed(blank, INVITE).installs == map[Scout := 1];
    assert Changed(blank, INVITE) == r;
  }

  lemma OneAddon()
    ensures Deduped([Scout]) == [Scout]
  {
    assert [Scout][..0] == [];
  }

  lemma Joined(s: State, gid: Gid, code: Hash, device: Hash)
    requires gid !in s.records
    ensures Runs(s, Join(gid, code, device))
    ensures After(s, Join(gid, code, device)) == s.(records := s.records[gid := Guest(code, device)])
  {
    hide Runs, After, Created;
    Invited(code);
    var e, f := Create(gid, 0, code, INVITE, 0, Done), Operate(gid, Redeem(code, device), 0, Done);
    var s1 := Next(s, e);
    assert [] + [device] == [device];
    assert Outcome(s1.records[gid], Redeem(code, device), 0) == Some(Guest(code, device));
    TwoSteps(s, e, f);
  }

  lemma {:induction false} Concatenated(s: State, es: seq<Event>, more: seq<Event>)
    requires Runs(s, es) && Runs(After(s, es), more)
    ensures Runs(s, es + more) && After(s, es + more) == After(After(s, es), more)
    decreases es
  {
    hide Enabled, Next;
    if es == [] {
      assert es + more == more;
    } else {
      Concatenated(Next(s, es[0]), es[1..], more);
      assert (es + more)[1..] == es[1..] + more;
    }
  }

  /** One ticket, two devices. */
  lemma TicketAdmitsTwo() returns (es: seq<Event>)
    ensures Runs(INITIAL, es) && 0 in After(INITIAL, es).records && After(INITIAL, es).records[0].devices == [7, 8, 9]
  {
    hide Runs, After, Next;
    Joined(INITIAL, 0, 5, 7);
    es := Join(0, 5, 7);
    var s1 := After(INITIAL, es);
    var mint := Mint(0, 0, {});
    assert Mine(Unexpired(s1.tickets, 0), 0) == {};
    OneStep(s1, mint);
    Concatenated(INITIAL, es, [mint]);
    es := es + [mint];
    var s2 := After(INITIAL, es);
    assert s2 == s1.(tickets := map[0 := Ticket(0, TICKET_MS)], minted := 1) by { Minting(s1, mint); }
    UnsyncedTicketAdmitsTwo(s2, 0, 8, 9, 0);
    var spends := [Spend(0, 8, 0, Unsynced), Spend(0, 9, 0, Done)];
    Concatenated(INITIAL, es, spends);
    es := es + spends;
  }

  lemma Minting(s: State, mint: Event)
    requires mint == Mint(0, 0, {}) && Enabled(s, mint) && s.tickets == map[] && s.minted == 0
    ensures Next(s, mint) == s.(tickets := map[0 := Ticket(0, TICKET_MS)], minted := 1)
  {
    assert Holding(Unexpired(s.tickets, 0), 0, {}) == map[];
  }

  const SHARED := Reservation(3, 4)

  /** The writes of a reservation that stop after its record: its save does not sync, or its pointer is not put. */
  predicate StopsShort(save: Save, pointed: Save) {
    save.Unsynced? || (save.Done? && pointed.Lost?)
  }

  /** One library, two grants, by either way a reservation stops short. */
  lemma ReservedTwice(save: Save, pointed: Save) returns (es: seq<Event>)
    requires StopsShort(save, pointed)
    ensures Runs(INITIAL, es)
    ensures var s := After(INITIAL, es);
            0 in s.records && 1 in s.records && s.records[0].library == s.records[1].library == Some(SHARED)
  {
    hide Runs, After, Next, ClaimedByOther;
    Joined(INITIAL, 0, 5, 7);
    es := Join(0, 5, 7);
    Joined(After(INITIAL, es), 1, 6, 8);
    Concatenated(INITIAL, es, Join(1, 6, 8));
    es := es + Join(1, 6, 8);
    var s := After(INITIAL, es);
    var claim := Claim(0, SHARED, 0, save, pointed);
    assert !ClaimedByOther(s, SHARED.id, 0) by { NoPointer(s); }
    NotThroughClaimedTwice(s, claim, 1, 0);
    Concatenated(INITIAL, es, [claim, Claim(1, SHARED, 0, Done, Done)]);
    es := es + [claim, Claim(1, SHARED, 0, Done, Done)];
  }

  lemma NoPointer(s: State)
    requires s.pointers == map[]
    ensures !ClaimedByOther(s, SHARED.id, 0) && !ClaimedByOther(s, SHARED.id, 1)
  {
  }

  /** A guest that reserved the library and was revoked, and another that has reserved nothing. */
  lemma OneRevoked() returns (es: seq<Event>)
    ensures Runs(INITIAL, es)
    ensures var s := After(INITIAL, es);
            && s.records == map[0 := Ended(Guest(5, 7).(library := Some(SHARED)), 0), 1 := Guest(6, 8)]
            && s.pointers == map[SHARED.id := 0]
  {
    hide Runs, After, ClaimedByOther;
    Joined(INITIAL, 0, 5, 7);
    es := Join(0, 5, 7);
    var s1 := After(INITIAL, es);
    assert !ClaimedByOther(s1, SHARED.id, 0) by { NoPointer(s1); }
    var claim, revoke := Claim(0, SHARED, 0, Done, Done), Operate(0, Op.Revoke, 0, Done);
    TwoSteps(s1, claim, revoke);
    Concatenated(INITIAL, es, [claim, revoke]);
    es := es + [claim, revoke];
    Joined(After(INITIAL, es), 1, 6, 8);
    Concatenated(INITIAL, es, Join(1, 6, 8));
    es := es + Join(1, 6, 8);
  }

  /** One library, two grants, by a sweep that deletes the pointer of an ended grant and fails to delete its record. */
  lemma SweptAndReservedAgain() returns (es: seq<Event>)
    ensures Runs(INITIAL, es)
    ensures var s := After(INITIAL, es);
            0 in s.records && 1 in s.records && s.records[0].library == s.records[1].library == Some(SHARED)
  {
    hide Runs, After, Next;
    es := OneRevoked();
    var s := After(INITIAL, es);
    var reap := Reap(0, REAP_MS, true, false);
    assert EndedAt(s.records[0], REAP_MS) == Some(0);
    NotThroughClaimedTwice(s, reap, 1, REAP_MS);
    Concatenated(INITIAL, es, [reap, Claim(1, SHARED, REAP_MS, Done, Done)]);
    es := es + [reap, Claim(1, SHARED, REAP_MS, Done, Done)];
  }
}

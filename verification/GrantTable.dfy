/** The grant operations that take the lock, load a record, change it and save it, as they change the store in place. */
module GrantTable {
  import opened Results
  import opened GrantRecord
  import opened GrantStore

  datatype Answer = Granted | Refused | Full | Closed | Failed

  /** Every device is compared, whichever matches. */
  method Known(devices: seq<Hash>, device: Hash) returns (found: bool)
    ensures found <==> device in devices
  {
    found := false;
    for i := 0 to |devices|
      invariant found <==> device in devices[..i]
    {
      assert devices[..i + 1] == devices[..i] + [devices[i]];
      found := devices[i] == device || found;
    }
    assert devices[..|devices|] == devices;
  }

  class Grants {
    var records: map<Gid, Record>
    var pointers: map<nat, Gid>
    var tickets: Tickets
    var minted: TicketId
    ghost var log: seq<Admission>

    ghost function Model(): State
      reads this
    {
      State(records, pointers, tickets, minted, log)
    }

    /** `save`: whether the caller goes on, and whether the record is there. */
    method Put(gid: Gid, r: Record, save: Save) returns (ok: bool)
      modifies this`records
      ensures Model() == Stored(old(Model()), gid, r, save) && ok == save.Done?
    {
      if !save.Lost? { records := records[gid := r]; }
      ok := save.Done?;
    }

    /** `redeem`: a device presents the invite code. */
    method RedeemCode(gid: Gid, code: Hash, device: Hash, now: nat, save: Save) returns (answer: Answer)
      modifies this
      ensures var e := Event.Operate(gid, Op.Redeem(code, device), now, save);
              if Enabled(old(Model()), e)
              then Model() == Next(old(Model()), e)
                   && answer == if save.Done? || device in old(records)[gid].devices then Granted else Failed
              else Model() == old(Model()) && answer == Refused
    {
      if gid !in records { return Refused; }
      var record := records[gid];
      if record.codeHash != code || !Live(record, now) { return Refused; }
      var known := Known(record.devices, device);
      if !known {
        if now >= record.codeExpiresAt || DevicesFull(record) { return Refused; }
        record := record.(devices := record.devices + [device]);
        if record.redeemedAt.None? { record := record.(redeemedAt := Some(now)); }
        var ok := Put(gid, record, save);
        if !ok { return Failed; }
      } else {
        assert records == records[gid := record];
      }
      answer := Granted;
    }

    /** `redeem_ticket`: a device presents a ticket, which goes only once the device is stored and synced. */
    method RedeemTicket(ticket: TicketId, device: Hash, now: nat, save: Save) returns (answer: Answer)
      modifies this
      ensures var e := Event.Spend(ticket, device, now, save);
              if Enabled(old(Model()), e)
              then Model() == Next(old(Model()), e) && (answer == Granted <==> ticket !in tickets)
              else Model() == old(Model()) && (answer == Refused || answer == Full)
    {
      if ticket !in tickets || tickets[ticket].expiresAt <= now || tickets[ticket].gid !in records { return Refused; }
      var gid := tickets[ticket].gid;
      var record := records[gid];
      if !Live(record, now) || record.redeemedAt.None? { return Refused; }
      var known := Known(record.devices, device);
      if !known {
        if DevicesFull(record) { return Full; }
        record := record.(devices := record.devices + [device]);
        var ok := Put(gid, record, save);
        if !save.Lost? { log := log + [Admission(ticket, device, save)]; }
        if !ok { return Failed; }
      }
      tickets := tickets - {ticket};
      answer := Granted;
    }

    /** `device_ticket`, for a grant whose device has proved itself. */
    method DeviceTicket(gid: Gid, now: nat) returns (id: TicketId)
      requires forall t :: t in tickets ==> t < minted
      modifies this`tickets, this`minted
      ensures var e := Event.Mint(gid, now, Mine(tickets, gid) - {id});
              id !in old(tickets) && Enabled(old(Model()), e) && Model() == Next(old(Model()), e)
    {
      id := minted;
      tickets := MintTicket(tickets, gid, now, id);
      minted := minted + 1;
    }

    /** `reserve_library`: the record first, then the pointer to it, which a retry writes again. */
    method ReserveLibrary(gid: Gid, reservation: Reservation, now: nat, save: Save, pointed: Save)
      returns (answer: Answer)
      modifies this
      ensures var e := Event.Claim(gid, reservation, now, save, pointed);
              if Enabled(old(Model()), e)
              then Model() == Next(old(Model()), e)
                   && answer == if pointed.Done? && (save.Done? || old(records)[gid].library.Some?)
                                then Granted else Failed
              else Model() == old(Model()) && (answer == Refused || answer == Closed)
    {
      if gid !in records { return Refused; }
      var record := records[gid];
      if !Live(record, now) || record.redeemedAt.None? { return Refused; }
      if record.library.Some? {
        if record.library.value != reservation { return Closed; }
      } else {
        if ClaimedByOther(State(records, pointers, tickets, minted, []), reservation.id, gid) { return Closed; }
        record := record.(library := Some(reservation));
        var ok := Put(gid, record, save);
        if !ok { return Failed; }
      }
      if !pointed.Lost? { pointers := pointers[reservation.id := gid]; }
      answer := if pointed.Done? then Granted else Failed;
    }

    /** `end_grant`: what revoking and leaving do to the record. */
    method EndGrant(gid: Gid, now: nat, save: Save) returns (answer: Answer)
      modifies this
      ensures var e := Event.Operate(gid, Op.Revoke, now, save);
              if Enabled(old(Model()), e)
              then Model() == Next(old(Model()), e) && answer == if save.Done? then Granted else Failed
              else Model() == old(Model()) && answer == Refused
    {
      if gid !in records { return Refused; }
      var record := records[gid];
      if record.revokedAt.None? { record := record.(revokedAt := Some(now)); }
      var ended := record.revokedAt.value;
      if record.killFor != Some(ended) { record := record.(killFor := Some(ended), killAcked := false); }
      record := record.(devices := [], installs := map[], denInstall := None);
      var ok := Put(gid, record, save);
      answer := if ok then Granted else Failed;
    }
  }
}

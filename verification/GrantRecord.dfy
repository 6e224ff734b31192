/**
  One guest grant: the record, what time makes of it, and every operation that saves it again. Hashes, names, config
  segments and library ids are opaque values; a body's fields arrive parsed, with `Invalid` for one of the wrong shape.
 */
module GrantRecord {
  import opened Results

  type Hash = nat
  type Segment = nat

  datatype Addon = Den | Scout | Atlas | Reel | Subtitles

  datatype Reservation = Reservation(id: nat, token: Hash)

  const DAY_MS: nat := 86_400_000
  const CODE_DEFAULT_MS: nat := 14 * DAY_MS
  const CODE_MAX_MS: nat := 90 * DAY_MS
  const REMUX_SESSION_MAX_MS: nat := 6 * 60 * 60 * 1000
  const REAP_MS: nat := 30 * DAY_MS

  datatype Record = Record(
    host: nat,
    name: Option<nat>,
    codeHash: Hash,
    devices: seq<Hash>,
    maxDevices: Option<nat>,
    addons: seq<Addon>,
    installs: map<Addon, Segment>,
    denInstall: Option<Segment>,
    codeExpiresAt: nat,
    accessDays: Option<nat>,
    accessUntil: Option<nat>,
    redeemedAt: Option<nat>,
    revokedAt: Option<nat>,
    killFor: Option<nat>,
    killAcked: bool,
    library: Option<Reservation>)

  // ---- what time makes of it

  /** When access ends, if that is known. */
  function End(r: Record): Option<nat> {
    if r.accessUntil.Some? then r.accessUntil
    else if r.redeemedAt.Some? && r.accessDays.Some? then Some(r.redeemedAt.value + r.accessDays.value * DAY_MS)
    else None
  }

  function ExpiresAt(r: Record): Option<nat> {
    if r.redeemedAt.Some? then End(r)
    else if End(r).Some? && End(r).value < r.codeExpiresAt then End(r)
    else Some(r.codeExpiresAt)
  }

  predicate Lapsed(r: Record, now: nat) {
    ExpiresAt(r).Some? && now >= ExpiresAt(r).value
  }

  /** Invited or active: neither revoked nor expired. */
  predicate Live(r: Record, now: nat) {
    r.revokedAt.None? && !Lapsed(r, now)
  }

  function EndedAt(r: Record, now: nat): Option<nat> {
    if r.revokedAt.Some? then r.revokedAt else if Lapsed(r, now) then ExpiresAt(r) else None
  }

  /** A grant has ended exactly when it is not live, and time alone neither revives it nor moves its end. */
  lemma TimeOnlyEnds(r: Record, now: nat, later: nat)
    requires now <= later
    ensures EndedAt(r, now).Some? <==> !Live(r, now)
    ensures EndedAt(r, now).Some? ==> EndedAt(r, later) == EndedAt(r, now)
    ensures r.revokedAt.None? && EndedAt(r, now).Some? ==> EndedAt(r, now).value <= now
  {
  }

  predicate DevicesFull(r: Record) {
    r.maxDevices.Some? && |r.devices| >= r.maxDevices.value
  }

  // ---- create and update bodies

  datatype Change<T> = Absent | Invalid | Null | Given(value: T)

  datatype Body = Body(
    name: Change<nat>,
    addons: Change<seq<Addon>>,
    installs: Change<map<Addon, Segment>>,
    codeExpiresAt: Change<nat>,
    accessDays: Change<nat>,
    accessUntil: Change<nat>,
    devices: Change<nat>)

  /** The listed addons, each once, in the order they first appear. */
  function Deduped(list: seq<Addon>): (d: seq<Addon>)
    ensures (forall i, j :: 0 <= i < j < |d| ==> d[i] != d[j]) && (forall a :: a in d <==> a in list)
  {
    if list == [] then []
    else
      var front := Deduped(list[..|list| - 1]);
      var last := list[|list| - 1];
      assert list == list[..|list| - 1] + [last];
      if last in front then front else front + [last]
  }

  predicate SharesWellFormed(b: Body, now: nat) {
    && (b.name.Absent? || b.name.Given?)
    && (b.addons.Absent? || b.addons.Given?)
    && (b.installs.Absent? || b.installs.Given?)
    && (b.codeExpiresAt.Absent? || (b.codeExpiresAt.Given? && now < b.codeExpiresAt.value <= now + CODE_MAX_MS))
  }

  predicate AccessWellFormed(b: Body, now: nat, creating: bool) {
    && !(b.accessDays.Given? && b.accessUntil.Given?)
    && !b.accessDays.Invalid? && (b.accessDays.Given? ==> 1 <= b.accessDays.value <= 365)
    && !b.accessUntil.Invalid? && (b.accessUntil.Given? && creating ==> b.accessUntil.value > now)
    && !b.devices.Invalid? && (b.devices.Given? ==> 1 <= b.devices.value <= 5)
  }

  predicate WellFormed(b: Body, now: nat, creating: bool) {
    SharesWellFormed(b, now) && AccessWellFormed(b, now, creating)
  }

  function Optional<T>(c: Change<T>, was: Option<T>): Option<T> {
    match c
    case Given(v) => Some(v)
    case Null => None
    case _ => was
  }

  function SharesChanged(r: Record, b: Body): Record {
    r.(name := if b.name.Given? then Some(b.name.value) else r.name,
       addons := if b.addons.Given? then Deduped(b.addons.value) else r.addons,
       installs := if b.installs.Given? then r.installs + b.installs.value else r.installs,
       codeExpiresAt := if b.codeExpiresAt.Given? then b.codeExpiresAt.value else r.codeExpiresAt)
  }

  function AccessChanged(r: Record, b: Body): Record {
    r.(accessDays := if b.accessUntil.Given? then None else Optional(b.accessDays, r.accessDays),
       accessUntil := if b.accessDays.Given? then None else Optional(b.accessUntil, r.accessUntil),
       maxDevices := Optional(b.devices, r.maxDevices))
  }

  function Trimmed(r: Record): Record {
    r.(installs := (map a | a in r.installs && a in r.addons :: r.installs[a]))
  }

  /** The record with a body's fields, before the grant is checked to be whole. */
  function Changed(r: Record, b: Body): Record {
    Trimmed(AccessChanged(SharesChanged(r, b), b))
  }

  predicate Whole(r: Record) {
    r.name.Some? && r.addons != [] && forall a :: a in r.addons ==> a in r.installs
  }

  /** `apply`. */
  function Applied(r: Record, b: Body, now: nat, creating: bool): Option<Record> {
    if WellFormed(b, now, creating) && Whole(Changed(r, b)) then Some(Changed(r, b)) else None
  }

  method Dedupe(list: seq<Addon>) returns (d: seq<Addon>)
    ensures d == Deduped(list)
  {
    d := [];
    for i := 0 to |list|
      invariant d == Deduped(list[..i])
    {
      assert list[..i + 1][..i] == list[..i];
      if list[i] !in d { d := d + [list[i]]; }
    }
    assert list[..|list|] == list;
  }

  method ApplyShares(was: Record, b: Body, now: nat) returns (applied: Option<Record>)
    ensures applied == if SharesWellFormed(b, now) then Some(SharesChanged(was, b)) else None
  {
    hide Deduped;
    var r := was;
    match b.name {
      case Absent =>
      case Given(name) => r := r.(name := Some(name));
      case _ => return None;
    }
    match b.addons {
      case Absent =>
      case Given(list) =>
        var d := Dedupe(list);
        r := r.(addons := d);
      case _ => return None;
    }
    match b.installs {
      case Absent =>
      case Given(installs) => r := r.(installs := r.installs + installs);
      case _ => return None;
    }
    match b.codeExpiresAt {
      case Absent =>
      case Given(at) =>
        if at <= now || at > now + CODE_MAX_MS { return None; }
        r := r.(codeExpiresAt := at);
      case _ => return None;
    }
    applied := Some(r);
  }

  method ApplyAccess(was: Record, b: Body, now: nat, creating: bool) returns (applied: Option<Record>)
    ensures applied == if AccessWellFormed(b, now, creating) then Some(AccessChanged(was, b)) else None
  {
    var r := was;
    if b.accessDays.Given? && b.accessUntil.Given? { return None; }
    match b.accessDays {
      case Absent =>
      case Null => r := r.(accessDays := None);
      case Given(days) =>
        if !(1 <= days <= 365) { return None; }
        r := r.(accessDays := Some(days), accessUntil := None);
      case Invalid => return None;
    }
    match b.accessUntil {
      case Absent =>
      case Null => r := r.(accessUntil := None);
      case Given(at) =>
        if creating && at <= now { return None; }
        r := r.(accessUntil := Some(at), accessDays := None);
      case Invalid => return None;
    }
    match b.devices {
      case Absent =>
      case Null => r := r.(maxDevices := None);
      case Given(n) =>
        if !(1 <= n <= 5) { return None; }
        r := r.(maxDevices := Some(n));
      case Invalid => return None;
    }
    applied := Some(r);
  }

  /** `apply`, field by field. */
  method Apply(was: Record, b: Body, now: nat, creating: bool) returns (applied: Option<Record>)
    ensures applied == Applied(was, b, now, creating)
  {
    hide SharesWellFormed, AccessWellFormed, SharesChanged, AccessChanged;
    var shares := ApplyShares(was, b, now);
    if shares.None? { return None; }
    var access := ApplyAccess(shares.value, b, now, creating);
    if access.None? { return None; }
    var r := Trimmed(access.value);
    applied := if Whole(r) then Some(r) else None;
  }

  // ---- the operations

  function Blank(host: nat, codeHash: Hash, now: nat): Record {
    Record(host, None, codeHash, [], Some(1), [], map[], None, now + CODE_DEFAULT_MS,
           None, None, None, None, None, false, None)
  }

  /** `create`, for a host under its caps. */
  function Created(host: nat, codeHash: Hash, b: Body, now: nat): Option<Record> {
    Applied(Blank(host, codeHash, now), b, now, true)
  }

  /** `end_grant`. */
  function Ended(r: Record, now: nat): Record {
    var at := if r.revokedAt.Some? then r.revokedAt.value else now;
    r.(revokedAt := Some(at), killFor := Some(at), killAcked := r.killFor == Some(at) && r.killAcked,
       devices := [], installs := map[], denInstall := None)
  }

  /** What a sweep makes of a record it does not reap: an ended one owes a kill for its end, a live one owes none. */
  function Swept(r: Record, now: nat): Record {
    match EndedAt(r, now)
    case Some(at) => if r.killFor == Some(at) then r else r.(killFor := Some(at), killAcked := false)
    case None => r.(killFor := None, killAcked := false)
  }

  datatype Op =
    | Update(body: Body)
    | NewCode(codeExpiresAt: Change<nat>, codeHash: Hash)
    | Redeem(code: Hash, device: Hash)
    | SpendTicket(device: Hash)
    | DenInstall(replacement: Option<Segment>)
    | Reserve(reservation: Reservation, claimed: bool)   // `claimed` by another grant
    | Revoke
    | Sweep
    | AckKill(event: nat)

  function Revived(r: Record, now: nat): Record {
    if Live(r, now) then r.(killFor := None, killAcked := false) else r
  }

  function Recoded(r: Record, expires: Change<nat>, codeHash: Hash, now: nat): Option<Record> {
    if expires.Invalid? || expires.Null? || (expires.Given? && !(now < expires.value <= now + CODE_MAX_MS)) then None
    else if r.revokedAt.Some? || (End(r).Some? && now >= End(r).value) then None
    else if DevicesFull(r) && r.maxDevices.value >= 5 then None
    else
      Some(r.(maxDevices := if DevicesFull(r) then Some(r.maxDevices.value + 1) else r.maxDevices,
              codeHash := codeHash,
              codeExpiresAt := if expires.Given? then expires.value else now + CODE_DEFAULT_MS))
  }

  function Admitted(r: Record, device: Hash): Record {
    r.(devices := r.devices + [device])
  }

  /** The record an operation leaves saved, or `None` when it is refused and nothing is saved. */
  function Outcome(r: Record, op: Op, now: nat): Option<Record> {
    match op
    case Update(b) =>
      if r.revokedAt.Some? then None
      else (match Applied(r, b, now, false)
            case None => None
            case Some(changed) => Some(Revived(changed, now)))
    case NewCode(expires, codeHash) => Recoded(r, expires, codeHash, now)
    case Redeem(code, device) =>
      if code != r.codeHash || !Live(r, now) then None
      else if device in r.devices then Some(r)
      else if now >= r.codeExpiresAt || DevicesFull(r) then None
      else Some(Admitted(r, device).(redeemedAt := if r.redeemedAt.Some? then r.redeemedAt else Some(now)))
    case SpendTicket(device) =>
      if !Live(r, now) || r.redeemedAt.None? then None
      else if device in r.devices then Some(r)
      else if DevicesFull(r) then None
      else Some(Admitted(r, device))
    case DenInstall(replacement) =>
      if r.redeemedAt.None? || !Live(r, now) then None else Some(r.(denInstall := replacement))
    case Reserve(reservation, claimed) =>
      if !Live(r, now) || r.redeemedAt.None? then None
      else if r.library.Some? then (if r.library.value == reservation then Some(r) else None)
      else if claimed then None
      else Some(r.(library := Some(reservation)))
    case Revoke => Some(Ended(r, now))
    case Sweep => Some(Swept(r, now))
    case AckKill(event) => if r.killFor == Some(event) then Some(r.(killAcked := true)) else None
  }

  // ---- what every saved record is

  predicate Distinct<T(==)>(s: seq<T>) {
    forall i, j :: 0 <= i < j < |s| ==> s[i] != s[j]
  }

  predicate Good(r: Record) {
    && (r.revokedAt.Some? ==> r.devices == [] && r.installs == map[] && r.denInstall.None?)
    && (r.revokedAt.None? ==> r.addons != [] && forall a :: a in r.installs <==> a in r.addons)
    && r.name.Some? && Distinct(r.addons)
    && !(r.accessDays.Some? && r.accessUntil.Some?)
    && Distinct(r.devices) && (r.devices != [] ==> r.redeemedAt.Some?)
    && (r.maxDevices.Some? ==> 1 <= r.maxDevices.value <= 5)
    && (r.killAcked ==> r.killFor.Some?)
    && (r.revokedAt.Some? ==> r.killFor == r.revokedAt)
  }

  /** What no operation undoes. */
  predicate Evolves(r: Record, r': Record) {
    && r'.host == r.host
    && (r.revokedAt.Some? ==> r'.revokedAt == r.revokedAt)
    && (r.redeemedAt.Some? ==> r'.redeemedAt == r.redeemedAt)
    && (r.library.Some? ==> r'.library == r.library)
    && (|| r'.devices == r.devices
        || (r'.devices == [] && r'.revokedAt.Some?)
        || (|r'.devices| == |r.devices| + 1 && !DevicesFull(r) && r.devices == r'.devices[..|r.devices|]))
  }

  lemma ChangedGood(r: Record, b: Body, now: nat, creating: bool)
    requires WellFormed(b, now, creating) && Whole(Changed(r, b))
    requires Distinct(r.addons) && Distinct(r.devices) && (r.devices != [] ==> r.redeemedAt.Some?) && r.revokedAt.None?
    requires !(r.accessDays.Some? && r.accessUntil.Some?) && (r.maxDevices.Some? ==> 1 <= r.maxDevices.value <= 5)
    requires r.killAcked ==> r.killFor.Some?
    ensures Good(Changed(r, b))
  {
    var r' := Changed(r, b);
    if b.addons.Given? { assert r'.addons == Deduped(b.addons.value); }
  }

  lemma CreatedGood(host: nat, codeHash: Hash, b: Body, now: nat)
    requires Created(host, codeHash, b, now).Some?
    ensures Good(Created(host, codeHash, b, now).value)
  {
    ChangedGood(Blank(host, codeHash, now), b, now, true);
  }

  lemma UpdateKeeps(r: Record, b: Body, now: nat)
    requires Good(r) && Outcome(r, Update(b), now).Some?
    ensures Good(Outcome(r, Update(b), now).value) && Evolves(r, Outcome(r, Update(b), now).value)
  {
    ChangedGood(r, b, now, false);
    ChangedAside(r, b);
    hide Changed, WellFormed, Whole;
  }

  /** A body leaves everything else alone. */
  lemma ChangedAside(r: Record, b: Body)
    ensures var c := Changed(r, b);
            c == r.(name := c.name, addons := c.addons, installs := c.installs, codeExpiresAt := c.codeExpiresAt,
                    accessDays := c.accessDays, accessUntil := c.accessUntil, maxDevices := c.maxDevices)
  {
  }

  lemma AdmittedKeeps(r: Record, device: Hash, redeemedAt: Option<nat>)
    requires Good(r) && r.revokedAt.None? && device !in r.devices && !DevicesFull(r)
    requires redeemedAt.Some? && (r.redeemedAt.Some? ==> redeemedAt == r.redeemedAt)
    ensures var r' := Admitted(r, device).(redeemedAt := redeemedAt); Good(r') && Evolves(r, r')
  {
    hide Distinct;
    AdmittedDistinct(r, device);
  }

  lemma Unchanged(r: Record)
    ensures Evolves(r, r)
  {
  }

  lemma AdmissionKeeps(r: Record, op: Op, now: nat)
    requires Good(r) && Outcome(r, op, now).Some? && (op.Redeem? || op.SpendTicket?)
    ensures Good(Outcome(r, op, now).value) && Evolves(r, Outcome(r, op, now).value)
  {
    hide Good, Evolves, Lapsed;
    Unchanged(r);
    if op.device !in r.devices {
      AdmittedKeeps(r, op.device, Outcome(r, op, now).value.redeemedAt);
    }
  }

  lemma OtherKeeps(r: Record, op: Op, now: nat)
    requires Good(r) && Outcome(r, op, now).Some? && !(op.Redeem? || op.SpendTicket? || op.Update?)
    ensures Good(Outcome(r, op, now).value) && Evolves(r, Outcome(r, op, now).value)
  {
    hide Lapsed;
  }

  /** Every operation saves a good record that evolves from the one it loaded. */
  lemma OperationKeeps(r: Record, op: Op, now: nat)
    requires Good(r) && Outcome(r, op, now).Some?
    ensures Good(Outcome(r, op, now).value) && Evolves(r, Outcome(r, op, now).value)
  {
    hide Good, Evolves, Outcome;
    if op.Update? { UpdateKeeps(r, op.body, now); }
    else if op.Redeem? || op.SpendTicket? { AdmissionKeeps(r, op, now); }
    else { OtherKeeps(r, op, now); }
  }

  lemma AdmittedLive(r: Record, device: Hash, now: nat)
    ensures Live(Admitted(r, device), now) <==> Live(r, now)
  {
  }

  lemma AdmittedDistinct(r: Record, device: Hash)
    requires Distinct(r.devices)
    ensures device !in r.devices ==> Distinct(Admitted(r, device).devices)
    ensures Admitted(r, device).devices[..|r.devices|] == r.devices
  {
  }

  /** Only a reservation touches the library. */
  lemma OnlyReserveClaims(r: Record, op: Op, now: nat)
    requires Outcome(r, op, now).Some? && !op.Reserve?
    ensures Outcome(r, op, now).value.library == r.library
  {
    hide Lapsed, Deduped;
  }

  lemma CreatedUnclaimed(host: nat, codeHash: Hash, b: Body, now: nat)
    requires Created(host, codeHash, b, now).Some?
    ensures Created(host, codeHash, b, now).value.library.None?
  {
  }

  /**
    A device is admitted by the current invite code before it lapses, or by a ticket to a redeemed grant, and not
    otherwise.
   */
  lemma DeviceAdmittedBy(r: Record, op: Op, now: nat, device: Hash)
    requires device !in r.devices
    ensures (Outcome(r, op, now).Some? && device in Outcome(r, op, now).value.devices)
            <==> (|| (op == Redeem(r.codeHash, device) && now < r.codeExpiresAt)
                  || (op == SpendTicket(device) && r.redeemedAt.Some?))
                 && Live(r, now) && !DevicesFull(r)
  {
    hide Lapsed, Deduped;
  }

  lemma NewCodeLeavesRoom(r: Record, expires: Change<nat>, codeHash: Hash, now: nat)
    requires Outcome(r, NewCode(expires, codeHash), now).Some?
    ensures !DevicesFull(Outcome(r, NewCode(expires, codeHash), now).value)
            <==> (r.maxDevices.Some? ==> |r.devices| <= r.maxDevices.value)
  {
  }

  /** A new code lets a new device in, in its time, exactly when the limit was not below the devices already in. */
  lemma NewCodeWorksIff(r: Record, expires: Change<nat>, codeHash: Hash, now: nat, device: Hash, later: nat)
    requires Outcome(r, NewCode(expires, codeHash), now).Some? && device !in r.devices
    requires var r' := Outcome(r, NewCode(expires, codeHash), now).value; Live(r', later) && later < r'.codeExpiresAt
    ensures Outcome(Outcome(r, NewCode(expires, codeHash), now).value, Redeem(codeHash, device), later).Some?
            <==> (r.maxDevices.Some? ==> |r.devices| <= r.maxDevices.value)
  {
    hide Lapsed;
    NewCodeLeavesRoom(r, expires, codeHash, now);
  }

  /** A host can bring that about: lowering the limit keeps the devices, and the next code raises it by one only. */
  lemma LoweredLimitLeavesNoRoom(r: Record, codeHash: Hash, now: nat)
    requires Good(r) && r.revokedAt.None? && |r.devices| == 3 && !(End(r).Some? && now >= End(r).value)
    ensures var lower := Update(Body(Absent, Absent, Absent, Absent, Absent, Absent, Given(1)));
            && Outcome(r, lower, now).Some?
            && var r1 := Outcome(r, lower, now).value;
               Outcome(r1, NewCode(Absent, codeHash), now).Some?
                   && DevicesFull(Outcome(r1, NewCode(Absent, codeHash), now).value)
  {
    hide Deduped, Distinct;
    var b := Body(Absent, Absent, Absent, Absent, Absent, Absent, Given(1));
    assert Whole(Changed(r, b));
    ChangedAside(r, b);
  }

  // ---- over a whole life

  datatype Moment = Moment(op: Op, now: nat)

  /** The record after each moment's operation, a refused one leaving it as it was. */
  function Life(r: Record, ms: seq<Moment>): Record {
    if ms == [] then r
    else
      var before := Life(r, ms[..|ms| - 1]);
      var m := ms[|ms| - 1];
      var next := Outcome(before, m.op, m.now);
      if next.Some? then next.value else before
  }

  /** What holds between any two moments of a grant's life. */
  predicate Keeps(r: Record, r': Record) {
    && r'.host == r.host
    && (r.revokedAt.Some?
        ==> r'.revokedAt == r.revokedAt && r'.devices == [] && r'.installs == map[] && r'.denInstall.None?)
    && (r.redeemedAt.Some? ==> r'.redeemedAt == r.redeemedAt)
    && (r.library.Some? ==> r'.library == r.library)
  }

  /**
    Through every run of operations a record stays good: a revoked one stays revoked and empty-handed, every other
    one's installs are exactly its addons, neither the first redemption nor the reserved library ever changes, and
    devices stay distinct and are added one at a time, only below the limit.
   */
  lemma {:induction false} LifeKeeps(r: Record, ms: seq<Moment>)
    requires Good(r)
    ensures Good(Life(r, ms)) && Keeps(r, Life(r, ms))
    ensures ms != [] ==> Evolves(Life(r, ms[..|ms| - 1]), Life(r, ms))
  {
    hide Outcome;
    if ms != [] {
      LifeKeeps(r, ms[..|ms| - 1]);
      var before := Life(r, ms[..|ms| - 1]);
      var m := ms[|ms| - 1];
      if Outcome(before, m.op, m.now).Some? { OperationKeeps(before, m.op, m.now); }
    }
  }

  /** Only a new code changes the code. */
  lemma OnlyNewCodeRecodes(r: Record, op: Op, now: nat)
    requires Outcome(r, op, now).Some?
    ensures Outcome(r, op, now).value.codeHash == if op.NewCode? then op.codeHash else r.codeHash
  {
    hide Lapsed, Deduped;
    if op.Update? { ChangedAside(r, op.body); }
  }

  /** A code that is no longer the grant's is refused for good, whatever happens, unless it is issued again. */
  lemma {:induction false} OldCodeStaysRefused(r: Record, ms: seq<Moment>, code: Hash, device: Hash, now: nat)
    requires code != r.codeHash && forall i :: 0 <= i < |ms| && ms[i].op.NewCode? ==> ms[i].op.codeHash != code
    ensures Life(r, ms).codeHash != code && Outcome(Life(r, ms), Redeem(code, device), now).None?
  {
    if ms != [] {
      OldCodeStaysRefused(r, ms[..|ms| - 1], code, device, now);
      var before, m := Life(r, ms[..|ms| - 1]), ms[|ms| - 1];
      if Outcome(before, m.op, m.now).Some? { OnlyNewCodeRecodes(before, m.op, m.now); }
      hide Outcome;
      assert Life(r, ms).codeHash != code;
    }
    assert Life(r, ms).codeHash != code;
    StaleCode(Life(r, ms), code, device, now);
  }

  lemma StaleCode(r: Record, code: Hash, device: Hash, now: nat)
    requires code != r.codeHash
    ensures Outcome(r, Redeem(code, device), now).None?
  {
  }

  // ---- what that means for host and guest

  /** Once revoked, a grant refuses everything but being revoked, swept or acknowledged again, for good. */
  lemma RevokedForGood(r: Record, ms: seq<Moment>, op: Op, now: nat)
    requires Good(r) && r.revokedAt.Some?
    ensures Outcome(Life(r, ms), op, now).Some? ==> op.Revoke? || op.Sweep? || op.AckKill?
  {
    hide Life, Good;
    LifeKeeps(r, ms);
    hide Lapsed, Applied;
  }

  /** A device let in stays in until the grant is revoked. */
  lemma {:induction false} DeviceStaysIn(r: Record, ms: seq<Moment>, device: Hash)
    requires Good(r) && device in r.devices
    ensures device in Life(r, ms).devices || Life(r, ms).revokedAt.Some?
  {
    hide Outcome, Good;
    if ms != [] {
      var front := ms[..|ms| - 1];
      DeviceStaysIn(r, front, device);
      LifeKeeps(r, front);
      LifeKeeps(r, ms);
      var before, after := Life(r, front), Life(r, ms);
      if device in before.devices && |after.devices| == |before.devices| + 1 {
        assert device in after.devices[..|before.devices|];
      }
    }
  }

  /**
    So it is let in again by the current code while the grant is live, and nothing changes: a lost answer can be
    retried.
   */
  lemma RedeemAgain(r: Record, ms: seq<Moment>, device: Hash, now: nat)
    requires Good(r) && device in r.devices && Live(Life(r, ms), now)
    ensures Outcome(Life(r, ms), Redeem(Life(r, ms).codeHash, device), now) == Some(Life(r, ms))
  {
    hide Life, Lapsed, Good;
    DeviceStaysIn(r, ms, device);
  }

  /** The access clock starts with the first redemption: a trial's end is counted from it through whatever follows. */
  lemma ClockStartsOnce(r: Record, code: Hash, device: Hash, now: nat, ms: seq<Moment>)
    requires Good(r) && r.redeemedAt.None? && Outcome(r, Redeem(code, device), now).Some?
    ensures var after := Life(Outcome(r, Redeem(code, device), now).value, ms);
            after.redeemedAt == Some(now)
            && (after.accessDays.Some? ==> End(after) == Some(now + after.accessDays.value * DAY_MS))
  {
    hide Life, Lapsed;
    OperationKeeps(r, Redeem(code, device), now);
    LifeKeeps(Outcome(r, Redeem(code, device), now).value, ms);
  }

  /** The moment admits the device: the current invite code before it lapses, or a ticket to a redeemed grant. */
  predicate Admits(r: Record, m: Moment, device: Hash) {
    && (|| (m.op == Redeem(r.codeHash, device) && m.now < r.codeExpiresAt)
        || (m.op == SpendTicket(device) && r.redeemedAt.Some?))
    && Live(r, m.now) && !DevicesFull(r)
  }

  /** Every device a grant has gained was admitted at some moment of its life, and by nothing else. */
  lemma {:induction false} EveryDeviceAdmitted(r: Record, ms: seq<Moment>, device: Hash)
    requires device !in r.devices && device in Life(r, ms).devices
    ensures exists i :: 0 <= i < |ms| && Admits(Life(r, ms[..i]), ms[i], device)
  {
    hide Outcome, Admits;
    var last := |ms| - 1;
    var front := ms[..last];
    if device in Life(r, front).devices {
      EveryDeviceAdmitted(r, front, device);
      var i :| 0 <= i < |front| && Admits(Life(r, front[..i]), front[i], device);
      assert front[..i] == ms[..i] && front[i] == ms[i];
    } else {
      ThatMoment(Life(r, front), ms[last], device);
    }
  }

  lemma ThatMoment(r: Record, m: Moment, device: Hash)
    requires device !in r.devices
    requires Outcome(r, m.op, m.now).Some? && device in Outcome(r, m.op, m.now).value.devices
    ensures Admits(r, m, device)
  {
    DeviceAdmittedBy(r, m.op, m.now, device);
  }
}

/**
  What a grant's operations come to, field by field: what a create or update body may say, where each of its fields
  ends up, what every other operation may touch, and how long a trial lasts.
 */
module GrantFields {
  import opened Results
  import opened GrantRecord

  // ---- create and update bodies

  function FirstAt(list: seq<Addon>, a: Addon): (i: nat)
    requires a in list
    ensures i < |list| && list[i] == a && a !in list[..i]
  {
    if list[0] == a then 0
    else
      var i := 1 + FirstAt(list[1..], a);
      assert list[..i] == [list[0]] + list[1..][..i - 1];
      i
  }

  /** The listed addons, each once, in the order of their first appearance. */
  ghost predicate FirstAppearances(d: seq<Addon>, list: seq<Addon>) {
    && (forall a :: a in d <==> a in list)
    && (forall i, j :: 0 <= i < j < |d| ==> d[j] in list && d[i] in list && FirstAt(list, d[i]) < FirstAt(list, d[j]))
  }

  lemma FirstAtUnique(list: seq<Addon>, a: Addon, i: nat)
    requires i < |list| && list[i] == a && a !in list[..i]
    ensures FirstAt(list, a) == i
  {
  }

  lemma FirstAtLonger(list: seq<Addon>, more: Addon, a: Addon)
    requires a in list
    ensures FirstAt(list + [more], a) == FirstAt(list, a)
  {
    var f := FirstAt(list, a);
    assert (list + [more])[..f] == list[..f];
    FirstAtUnique(list + [more], a, f);
  }

  lemma {:induction false} DedupedInOrder(list: seq<Addon>)
    ensures FirstAppearances(Deduped(list), list)
  {
    if list != [] {
      var init, last := list[..|list| - 1], list[|list| - 1];
      var front, d := Deduped(init), Deduped(list);
      DedupedInOrder(init);
      assert list == init + [last];
      forall i, j | 0 <= i < j < |d|
        ensures d[i] in list && d[j] in list && FirstAt(list, d[i]) < FirstAt(list, d[j])
      {
        assert d[i] in d && d[j] in d && d[i] == front[i] && front[i] in front;
        FirstAtLonger(init, last, d[i]);
        if j < |front| {
          assert front[j] in front;
          FirstAtLonger(init, last, d[j]);
        } else {
          assert list[..|init|] == init;
          FirstAtUnique(list, last, |init|);
        }
      }
    }
  }

  /** The addons lent, and the segment each of them has, once a body is applied. */
  function AddonsAfter(addons: seq<Addon>, b: Body): seq<Addon> {
    if b.addons.Given? then b.addons.value else addons
  }

  predicate HasSegment(installs: map<Addon, Segment>, b: Body, a: Addon) {
    (b.installs.Given? && a in b.installs.value) || a in installs
  }

  /** A body is taken: every field of the right shape and in range, and the grant whole with it. */
  predicate Acceptable(r: Record, b: Body, now: nat, creating: bool) {
    && (b.name.Given? || (b.name.Absent? && r.name.Some?))
    && (b.addons.Given? || b.addons.Absent?) && (b.installs.Given? || b.installs.Absent?)
    && (b.codeExpiresAt.Absent?
        || (b.codeExpiresAt.Given? && now < b.codeExpiresAt.value <= now + 7_776_000_000))
    && (b.accessDays.Absent? || b.accessDays.Null?
        || (b.accessDays.Given? && 1 <= b.accessDays.value <= 365 && !b.accessUntil.Given?))
    && (b.accessUntil.Absent? || b.accessUntil.Null?
        || (b.accessUntil.Given? && (creating ==> now < b.accessUntil.value)))
    && (b.devices.Absent? || b.devices.Null? || (b.devices.Given? && 1 <= b.devices.value <= 5))
    && AddonsAfter(r.addons, b) != []
    && forall a :: a in AddonsAfter(r.addons, b) ==> HasSegment(r.installs, b, a)
  }

  /** Each field follows its own change: given is stored, null clears, absent keeps. */
  ghost predicate Follows(r: Record, b: Body, r': Record) {
    && r'.name == (if b.name.Given? then Some(b.name.value) else r.name)
    && (b.addons.Given? ==> FirstAppearances(r'.addons, b.addons.value))
    && (b.addons.Absent? ==> r'.addons == r.addons)
    && (forall a :: a in r'.installs <==> a in r'.addons)
    && (forall a :: a in r'.installs ==>
          && HasSegment(r.installs, b, a)
          && r'.installs[a] == (if b.installs.Given? && a in b.installs.value then b.installs.value[a]
                                else r.installs[a]))
    && r'.codeExpiresAt == (if b.codeExpiresAt.Given? then b.codeExpiresAt.value else r.codeExpiresAt)
    && r'.accessDays == (match b.accessDays
                         case Given(d) => Some(d)
                         case Null => None
                         case _ => if b.accessUntil.Given? then None else r.accessDays)
    && r'.accessUntil == (match b.accessUntil
                          case Given(at) => Some(at)
                          case Null => None
                          case _ => if b.accessDays.Given? then None else r.accessUntil)
    && r'.maxDevices == (match b.devices
                         case Given(n) => Some(n)
                         case Null => None
                         case _ => r.maxDevices)
  }

  /** Nothing a body does not name is touched. */
  predicate Beside(r: Record, r': Record) {
    && r'.host == r.host && r'.codeHash == r.codeHash && r'.devices == r.devices && r'.denInstall == r.denInstall
    && r'.redeemedAt == r.redeemedAt && r'.revokedAt == r.revokedAt && r'.library == r.library
  }

  lemma AcceptedIff(r: Record, b: Body, now: nat, creating: bool)
    ensures Applied(r, b, now, creating).Some? <==> Acceptable(r, b, now, creating)
  {
    hide Deduped;
    var changed := Changed(r, b);
    if b.addons.Given? { DedupedHas(b.addons.value); }
    assert forall a :: a in changed.addons <==> a in AddonsAfter(r.addons, b);
    forall a | a in changed.addons ensures a in changed.installs <==> HasSegment(r.installs, b, a) {}
  }

  lemma DedupedHas(list: seq<Addon>)
    ensures Deduped(list) == [] <==> list == []
    ensures forall a :: a in Deduped(list) <==> a in list
  {
    if list != [] { assert list[0] in Deduped(list); }
  }

  lemma AppliedFollows(r: Record, b: Body, now: nat, creating: bool)
    requires Applied(r, b, now, creating).Some?
    ensures Follows(r, b, Applied(r, b, now, creating).value)
    ensures Beside(r, Applied(r, b, now, creating).value)
    ensures Applied(r, b, now, creating).value.killFor == r.killFor
    ensures Applied(r, b, now, creating).value.killAcked == r.killAcked
  {
    hide Deduped, FirstAppearances;
    if b.addons.Given? { DedupedInOrder(b.addons.value); }
  }

  /**
    An update is taken exactly when the grant is not revoked and the body is acceptable. Then each field follows its
    own change and the rest stays, except that a grant live again owes no kill.
   */
  lemma UpdateFollows(r: Record, b: Body, now: nat)
    ensures Outcome(r, Update(b), now).Some? <==> r.revokedAt.None? && Acceptable(r, b, now, false)
    ensures Outcome(r, Update(b), now).Some? ==>
              var r' := Outcome(r, Update(b), now).value;
              && Follows(r, b, r') && Beside(r, r')
              && (if Live(r', now) then r'.killFor.None? && !r'.killAcked
                  else r'.killFor == r.killFor && r'.killAcked == r.killAcked)
  {
    hide Applied, Acceptable, HasSegment, FirstAppearances;
    AcceptedIff(r, b, now, false);
    if Applied(r, b, now, false).Some? { AppliedFollows(r, b, now, false); }
  }

  /** A new grant: what the body gives, one device, a code for fourteen days, no end, and nothing redeemed yet. */
  lemma CreateFollows(host: nat, codeHash: Hash, b: Body, now: nat, blank: Record)
    requires blank == Record(host, None, codeHash, [], Some(1), [], map[], None, now + 1_209_600_000,
                             None, None, None, None, None, false, None)
    ensures Created(host, codeHash, b, now).Some? <==> Acceptable(blank, b, now, true)
    ensures Created(host, codeHash, b, now).Some? ==>
              && Follows(blank, b, Created(host, codeHash, b, now).value)
              && Beside(blank, Created(host, codeHash, b, now).value)
              && Created(host, codeHash, b, now).value.killFor.None?
              && !Created(host, codeHash, b, now).value.killAcked
  {
    hide Applied, Acceptable, Follows, Beside;
    AcceptedIff(blank, b, now, true);
    if Applied(blank, b, now, true).Some? { AppliedFollows(blank, b, now, true); }
  }

  // ---- the other operations

  /** A grant is live unless it was revoked, its end has come, or it was not redeemed before its code lapsed. */
  lemma LiveMeans(r: Record, now: nat)
    ensures Live(r, now) <==>
              && r.revokedAt.None?
              && (r.redeemedAt.None? ==> now < r.codeExpiresAt)
              && (r.accessUntil.Some? ==> now < r.accessUntil.value)
              && (r.accessUntil.None? && r.redeemedAt.Some? && r.accessDays.Some?
                  ==> now < r.redeemedAt.value + r.accessDays.value * 86_400_000)
  {
  }

  /** Access has an end, and it has come. */
  predicate Over(r: Record, now: nat) {
    || (r.accessUntil.Some? && now >= r.accessUntil.value)
    || (r.accessUntil.None? && r.redeemedAt.Some? && r.accessDays.Some?
        && now >= r.redeemedAt.value + r.accessDays.value * 86_400_000)
  }

  predicate Full(r: Record) {
    r.maxDevices.Some? && |r.devices| >= r.maxDevices.value
  }

  /**
    A new code is issued exactly while access is not over, for a time within ninety days, fourteen unless given. It
    makes room for one device more where there is none, up to five, and changes nothing else.
   */
  lemma NewCodeExact(r: Record, expires: Change<nat>, codeHash: Hash, now: nat)
    ensures var next := Outcome(r, NewCode(expires, codeHash), now);
            && (next.Some? <==>
                  && (expires.Absent? || (expires.Given? && now < expires.value <= now + 7_776_000_000))
                  && r.revokedAt.None? && !Over(r, now) && !(Full(r) && r.maxDevices.value >= 5))
            && (next.Some? ==>
                  next.value == r.(codeHash := codeHash,
                                   codeExpiresAt := if expires.Given? then expires.value else now + 1_209_600_000,
                                   maxDevices := if Full(r) then Some(r.maxDevices.value + 1) else r.maxDevices))
  {
  }

  /** What each operation but an update or a new code may touch. */
  predicate TouchesOnly(r: Record, op: Op, r': Record) {
    match op
    case Redeem(_, device) =>
      r' == r.(devices := r'.devices, redeemedAt := r'.redeemedAt) && device in r'.devices && r'.redeemedAt.Some?
    case SpendTicket(device) => r' == r.(devices := r'.devices) && device in r'.devices
    case DenInstall(replacement) => r' == r.(denInstall := replacement)
    case Reserve(reservation, _) => r' == r.(library := Some(reservation))
    case Revoke =>
      r' == r.(devices := [], installs := map[], denInstall := None,
               revokedAt := r'.revokedAt, killFor := r'.killFor, killAcked := r'.killAcked)
    case Sweep => r' == r.(killFor := r'.killFor, killAcked := r'.killAcked)
    case AckKill(_) => r' == r.(killAcked := true)
    case _ => true
  }

  lemma OperationsTouchOnly(r: Record, op: Op, now: nat)
    requires Good(r) && Outcome(r, op, now).Some?
    ensures TouchesOnly(r, op, Outcome(r, op, now).value)
  {
    hide Lapsed, Applied, Recoded;
  }

  /**
    A den install or a reservation is taken exactly from a redeemed, live grant, a reservation moreover only for a
    library nobody else holds and none or the same held before. A revocation is stamped with its first moment, and an
    ended grant owes the kill of its end from the next sweep on.
   */
  lemma TakenWhen(r: Record, replacement: Option<Segment>, reservation: Reservation, claimed: bool, now: nat)
    ensures Outcome(r, DenInstall(replacement), now).Some? <==> r.redeemedAt.Some? && Live(r, now)
    ensures Outcome(r, Reserve(reservation, claimed), now).Some? <==>
              && r.redeemedAt.Some? && Live(r, now)
              && (r.library == Some(reservation) || (r.library.None? && !claimed))
    ensures Outcome(r, Revoke, now).Some?
    ensures var end := if r.revokedAt.Some? then r.revokedAt else Some(now);
            Outcome(r, Revoke, now).value.revokedAt == end && Outcome(r, Revoke, now).value.killFor == end
    ensures Outcome(r, Sweep, now).Some?
    ensures Live(r, now) ==> Outcome(r, Sweep, now).value.killFor.None?
    ensures r.revokedAt.Some? ==> Outcome(r, Sweep, now).value.killFor == r.revokedAt
    ensures r.revokedAt.None? && r.redeemedAt.Some? && r.accessUntil.Some? && !Live(r, now) ==>
              Outcome(r, Sweep, now).value.killFor == r.accessUntil
    ensures r.revokedAt.None? && r.redeemedAt.Some? && r.accessUntil.None? && !Live(r, now) ==>
              && r.accessDays.Some?
              && Outcome(r, Sweep, now).value.killFor == Some(r.redeemedAt.value + r.accessDays.value * 86_400_000)
    ensures Outcome(r, Sweep, now).value.killFor == r.killFor && !Live(r, now) ==>
              Outcome(r, Sweep, now).value.killAcked == r.killAcked
    ensures Outcome(r, Sweep, now).value.killFor != r.killFor ==> !Outcome(r, Sweep, now).value.killAcked
  {
  }

  // ---- how long a trial lasts

  /** A life without an update or a revocation keeps the terms. */
  lemma {:induction false} TermsStay(r: Record, ms: seq<Moment>)
    requires Good(r) && forall i :: 0 <= i < |ms| ==> !ms[i].op.Update? && !ms[i].op.Revoke?
    ensures var r' := Life(r, ms);
            r'.accessDays == r.accessDays && r'.accessUntil == r.accessUntil && r'.revokedAt == r.revokedAt
  {
    hide Outcome, Good;
    if ms != [] {
      var init, m := ms[..|ms| - 1], ms[|ms| - 1];
      TermsStay(r, init);
      LifeKeeps(r, init);
      var before := Life(r, init);
      if Outcome(before, m.op, m.now).Some? {
        if m.op.NewCode? { NewCodeExact(before, m.op.codeExpiresAt, m.op.codeHash, m.now); }
        OperationsTouchOnly(before, m.op, m.now);
      }
    }
  }

  /**
    A grant created for `d` days and first redeemed at `t` is live exactly before `t` plus `d` days, whatever else
    happens to it until it is updated or revoked.
   */
  lemma TrialRunsItsDays(host: nat, codeHash: Hash, b: Body, made: nat, device: Hash, t: nat, ms: seq<Moment>, now: nat)
    requires Created(host, codeHash, b, made).Some? && b.accessDays.Given?
    requires Outcome(Created(host, codeHash, b, made).value, Redeem(codeHash, device), t).Some?
    requires forall i :: 0 <= i < |ms| ==> !ms[i].op.Update? && !ms[i].op.Revoke?
    ensures var r := Outcome(Created(host, codeHash, b, made).value, Redeem(codeHash, device), t).value;
            Live(Life(r, ms), now) <==> now < t + b.accessDays.value * 86_400_000
  {
    hide Created, Life, Good, Outcome, Live, Follows, HasSegment, Acceptable;
    var blank := Record(host, None, codeHash, [], Some(1), [], map[], None, made + 1_209_600_000,
                        None, None, None, None, None, false, None);
    CreateFollows(host, codeHash, b, made, blank);
    var c := Created(host, codeHash, b, made).value;
    assert c.accessDays == Some(b.accessDays.value) && c.accessUntil.None? by { TrialTerms(blank, b, made, c); }
    CreatedGood(host, codeHash, b, made);
    var redeem := Redeem(codeHash, device);
    OperationKeeps(c, redeem, t);
    OperationsTouchOnly(c, redeem, t);
    ClockStartsOnce(c, codeHash, device, t, []);
    var r := Outcome(c, redeem, t).value;
    NoMoments(r);
    TermsStay(r, ms);
    LifeKeeps(r, ms);
    LiveMeans(Life(r, ms), now);
  }

  lemma NoMoments(r: Record)
    ensures Life(r, []) == r
  {
  }

  lemma TrialTerms(r: Record, b: Body, now: nat, r': Record)
    requires Acceptable(r, b, now, true) && Follows(r, b, r') && b.accessDays.Given? && r.accessUntil.None?
    ensures r'.accessDays == Some(b.accessDays.value) && r'.accessUntil.None?
  {
    hide FirstAppearances;
  }

  /** And it can be redeemed for the first time exactly before its code lapses. */
  lemma FirstRedeemIff(host: nat, codeHash: Hash, b: Body, made: nat, device: Hash, t: nat)
    requires Created(host, codeHash, b, made).Some?
    ensures var r := Created(host, codeHash, b, made).value;
            Outcome(r, Redeem(codeHash, device), t).Some? <==>
              t < r.codeExpiresAt && (r.accessUntil.Some? ==> t < r.accessUntil.value)
  {
    hide Created;
    CreatedGood(host, codeHash, b, made);
    var blank := Record(host, None, codeHash, [], Some(1), [], map[], None, made + 1_209_600_000,
                        None, None, None, None, None, false, None);
    CreateFollows(host, codeHash, b, made, blank);
    LiveMeans(Created(host, codeHash, b, made).value, t);
  }
}

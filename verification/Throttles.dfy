/**
  Rate limits: one bounded table of budgets, swept lazily, under three disciplines. A budget that is not in the
  table and one whose time is past mean the same.
 */
module Throttles {
  import opened Bytes
  import opened Counting
  import opened Results

  datatype Throttle = Throttle(count: nat, until: nat)

  const NONE := Throttle(0, 0)
  const CLAIM_WINDOW_MS := 60 * 1000
  const MAX_BUCKETS := 8 * 1024
  const SWEEP_FLOOR := 1024

  /** What an act asks: the sliding guard, a fixed window, or the cell-rate bucket. */
  datatype Discipline =
    | Sliding(limit: nat, cost: nat)
    | Window(limit: nat, cost: nat, span: nat)
    | Bucket(burst: nat, perMinute: nat)

  function Max(a: nat, b: nat): nat { if a < b then b else a }

  function Minus(a: nat, b: nat): nat { if a < b then 0 else a - b }

  function SaturatingAdd32(a: nat, b: nat): nat {
    if a + b >= U32_LIMIT then U32_LIMIT - 1 else a + b
  }

  /** The time one act of a bucket takes to refill. */
  function Interval(perMinute: nat): (i: nat)
    ensures 1 <= i <= CLAIM_WINDOW_MS
  {
    Max(CLAIM_WINDOW_MS / Max(perMinute, 1), 1)
  }

  /** One act against one budget: the budget after it, and how long to wait when it is refused. */
  datatype Outcome = Outcome(t: Throttle, wait: Option<nat>)

  function Act(t: Throttle, d: Discipline, now: nat): Outcome {
    match d
    case Sliding(limit, cost) =>
      var count := if t.until <= now then 0 else t.count;
      if SaturatingAdd32(count, cost) > limit then Outcome(Throttle(count, t.until), Some(Minus(t.until, now)))
      else Outcome(Throttle((count + cost) % U32_LIMIT, now + CLAIM_WINDOW_MS), None)
    case Window(limit, cost, span) =>
      var open := if t.until <= now then Throttle(0, now + span) else t;
      if SaturatingAdd32(open.count, cost) > limit then Outcome(open, Some(Minus(open.until, now)))
      else Outcome(Throttle((open.count + cost) % U32_LIMIT, open.until), None)
    case Bucket(burst, perMinute) =>
      var interval := Interval(perMinute);
      var fullAgain := Max(t.until, now) + interval;
      var over := Minus(Minus(fullAgain, now), interval * Max(burst, 1));
      if over > 0 then Outcome(t, Some(over)) else Outcome(Throttle(t.count, fullAgain), None)
  }

  // ---- the table

  datatype Table = Table(budgets: map<string, Throttle>, sweepAbove: nat, capacitySweepAfter: nat)

  const EMPTY := Table(map[], 0, 0)

  function Swept(m: map<string, Throttle>, now: nat): map<string, Throttle> {
    map k | k in m && m[k].until > now :: m[k]
  }

  predicate Sweeps(t: Table, bucket: string, now: nat) {
    var atCapacity := bucket !in t.budgets && |t.budgets| >= MAX_BUCKETS;
    |t.budgets| > Max(t.sweepAbove, SWEEP_FLOOR) || (atCapacity && now >= t.capacitySweepAfter)
  }

  /** The sweeping half of `entry`. */
  function Tidied(t: Table, bucket: string, now: nat): Table {
    if !Sweeps(t, bucket, now) then t
    else
      var m := Swept(t.budgets, now);
      var atCapacity := bucket !in t.budgets && |t.budgets| >= MAX_BUCKETS;
      Table(m, 2 * |m|, if atCapacity then (if now + 1000 >= U64_LIMIT then U64_LIMIT - 1 else now + 1000)
                        else t.capacitySweepAfter)
  }

  /** A novel budget finds no room. */
  predicate Refuses(t: Table, bucket: string, now: nat) {
    bucket !in t.budgets && |Tidied(t, bucket, now).budgets| >= MAX_BUCKETS
  }

  function Held(m: map<string, Throttle>, bucket: string): Throttle {
    if bucket in m then m[bucket] else NONE
  }

  /** A whole call: the table after it and the answer. */
  function Call(t: Table, bucket: string, d: Discipline, now: nat): (Table, Option<nat>) {
    var tidy := Tidied(t, bucket, now);
    if Refuses(t, bucket, now) then (tidy, Some(CLAIM_WINDOW_MS))
    else
      var o := Act(Held(tidy.budgets, bucket), d, now);
      (tidy.(budgets := tidy.budgets[bucket := o.t]), o.wait)
  }

  // ---- the bound

  lemma SweptFewer(m: map<string, Throttle>, now: nat)
    ensures |Swept(m, now)| <= |m|
  {
    SubsetSize(Swept(m, now).Keys, m.Keys);
  }

  /** The table never holds more than its ceiling. */
  lemma TableBounded(t: Table, bucket: string, d: Discipline, now: nat)
    requires |t.budgets| <= MAX_BUCKETS
    ensures |Call(t, bucket, d, now).0.budgets| <= MAX_BUCKETS
  {
    hide Act;
    SweptFewer(t.budgets, now);
    var tidy, after := Tidied(t, bucket, now).budgets, Call(t, bucket, d, now).0.budgets;
    if !Refuses(t, bucket, now) {
      assert after.Keys == tidy.Keys + {bucket};
      if bucket in t.budgets { SubsetSize(after.Keys, t.budgets.Keys); }
    }
  }

  /** A budget whose window is open is neither refused for room nor forgotten, whoever acts. */
  lemma OpenBudgetsSafe(t: Table, bucket: string, d: Discipline, now: nat, key: string)
    requires key in t.budgets && t.budgets[key].until > now
    ensures key in Tidied(t, bucket, now).budgets && Tidied(t, bucket, now).budgets[key] == t.budgets[key]
    ensures key != bucket
            ==> key in Call(t, bucket, d, now).0.budgets && Call(t, bucket, d, now).0.budgets[key] == t.budgets[key]
    ensures !Refuses(t, key, now)
  {
    hide Act;
  }

  // ---- sweeping is invisible

  /**
    How a key is used over a run: as a bucket before request number `from`, for counting from there to number `to`, and
    as a bucket after. Any of the three may be empty, so one discipline throughout is a plan too.
   */
  datatype Plan = Plan(from: nat, to: nat)

  predicate Counts(plan: Plan, i: nat) {
    plan.from <= i < plan.to
  }

  predicate Suits(d: Discipline, plan: Plan, i: nat) {
    d.Bucket? <==> !Counts(plan, i)
  }

  /** Two budgets that no acts after the plan, from request number `i` at `now` on, can tell apart. */
  predicate Alike(a: Throttle, b: Throttle, plan: Plan, i: nat, now: nat) {
    var past := a.until <= now && b.until <= now;
    && (a.until == b.until || past)
    && (i <= plan.from ==> a.count == b.count == 0)
    && (plan.from < i <= plan.to ==> a.count == b.count || past)
  }

  lemma ActAlike(a: Throttle, b: Throttle, d: Discipline, plan: Plan, i: nat, now: nat)
    requires Alike(a, b, plan, i, now) && Suits(d, plan, i)
    ensures Act(a, d, now).wait == Act(b, d, now).wait
    ensures Alike(Act(a, d, now).t, Act(b, d, now).t, plan, i + 1, now)
  {
  }

  lemma AlikeLater(a: Throttle, b: Throttle, plan: Plan, i: nat, now: nat, later: nat)
    requires Alike(a, b, plan, i, now) && now <= later
    ensures Alike(a, b, plan, i, later) && Alike(a, b, plan, i + 1, later)
  {
  }

  /** The swept table and a table that was never swept agree on every key. */
  ghost predicate Agree(t: Table, ref: map<string, Throttle>, plan: string -> Plan, i: nat, now: nat) {
    forall k :: Alike(Held(t.budgets, k), Held(ref, k), plan(k), i, now)
  }

  lemma TidiedAgree(t: Table, ref: map<string, Throttle>, plan: string -> Plan, i: nat, bucket: string, now: nat)
    requires Agree(t, ref, plan, i, now)
    ensures Agree(Tidied(t, bucket, now), ref, plan, i, now)
  {
    hide Sweeps;
    var tidy := Tidied(t, bucket, now);
    forall k ensures Alike(Held(tidy.budgets, k), Held(ref, k), plan(k), i, now) {
      assert Alike(Held(t.budgets, k), Held(ref, k), plan(k), i, now);
    }
  }

  datatype Request = Request(bucket: string, d: Discipline, at: nat)

  /** Requests in the order of a clock that never goes back, each key used after its plan. */
  ghost predicate Orderly(requests: seq<Request>, plan: string -> Plan) {
    && (forall i, j :: 0 <= i < j < |requests| ==> requests[i].at <= requests[j].at)
    && (forall i :: 0 <= i < |requests| ==> Suits(requests[i].d, plan(requests[i].bucket), i))
  }

  function TableAfter(requests: seq<Request>): Table {
    if requests == [] then EMPTY
    else
      var r := requests[|requests| - 1];
      Call(TableAfter(requests[..|requests| - 1]), r.bucket, r.d, r.at).0
  }

  /** The never-swept table, skipping the requests refused for room. */
  function PlainAfter(requests: seq<Request>): map<string, Throttle> {
    if requests == [] then map[]
    else
      var init, r := requests[..|requests| - 1], requests[|requests| - 1];
      var before := PlainAfter(init);
      if Refuses(TableAfter(init), r.bucket, r.at) then before
      else before[r.bucket := Act(Held(before, r.bucket), r.d, r.at).t]
  }

  lemma CallAgrees(t: Table, ref: map<string, Throttle>, plan: string -> Plan, i: nat, r: Request)
    requires Agree(t, ref, plan, i, r.at) && Suits(r.d, plan(r.bucket), i) && !Refuses(t, r.bucket, r.at)
    ensures Call(t, r.bucket, r.d, r.at).1 == Act(Held(ref, r.bucket), r.d, r.at).wait
    ensures Agree(Call(t, r.bucket, r.d, r.at).0, ref[r.bucket := Act(Held(ref, r.bucket), r.d, r.at).t], plan, i + 1,
                  r.at)
  {
    hide Act, Tidied, Alike, Refuses, Suits;
    TidiedAgree(t, ref, plan, i, r.bucket, r.at);
    var tidy := Tidied(t, r.bucket, r.at);
    var a, b := Held(tidy.budgets, r.bucket), Held(ref, r.bucket);
    ActAlike(a, b, r.d, plan(r.bucket), i, r.at);
    var t', ref' := Call(t, r.bucket, r.d, r.at).0, ref[r.bucket := Act(b, r.d, r.at).t];
    forall k ensures Alike(Held(t'.budgets, k), Held(ref', k), plan(k), i + 1, r.at) {
      assert Alike(Held(tidy.budgets, k), Held(ref, k), plan(k), i, r.at);
      if k != r.bucket { AlikeLater(Held(tidy.budgets, k), Held(ref, k), plan(k), i, r.at, r.at); }
    }
  }

  lemma AgreeLater(t: Table, ref: map<string, Throttle>, plan: string -> Plan, i: nat, now: nat, later: nat)
    requires Agree(t, ref, plan, i, now) && now <= later
    ensures Agree(t, ref, plan, i, later) && Agree(t, ref, plan, i + 1, later)
  {
    hide Alike;
    forall k
      ensures Alike(Held(t.budgets, k), Held(ref, k), plan(k), i, later)
      ensures Alike(Held(t.budgets, k), Held(ref, k), plan(k), i + 1, later)
    {
      AlikeLater(Held(t.budgets, k), Held(ref, k), plan(k), i, now, later);
    }
  }

  lemma {:induction false} RunsAgree(requests: seq<Request>, plan: string -> Plan, now: nat)
    requires Orderly(requests, plan)
    requires forall i :: 0 <= i < |requests| ==> requests[i].at <= now
    ensures Agree(TableAfter(requests), PlainAfter(requests), plan, |requests|, now)
    ensures |TableAfter(requests).budgets| <= MAX_BUCKETS
  {
    hide Call, Act, Refuses, Suits, Agree, Tidied;
    if requests == [] {
      NothingAgrees(plan, now);
    } else {
      var i := |requests| - 1;
      var init, r := requests[..i], requests[i];
      RunsAgree(init, plan, r.at);
      var t, ref := TableAfter(init), PlainAfter(init);
      TableBounded(t, r.bucket, r.d, r.at);
      if Refuses(t, r.bucket, r.at) {
        TidiedAgree(t, ref, plan, i, r.bucket, r.at);
        RefusedCall(t, r);
        AgreeLater(TableAfter(requests), PlainAfter(requests), plan, i, r.at, now);
      } else {
        CallAgrees(t, ref, plan, i, r);
        AgreeLater(TableAfter(requests), PlainAfter(requests), plan, i + 1, r.at, now);
      }
    }
  }

  lemma RefusedCall(t: Table, r: Request)
    requires Refuses(t, r.bucket, r.at)
    ensures Call(t, r.bucket, r.d, r.at) == (Tidied(t, r.bucket, r.at), Some(CLAIM_WINDOW_MS))
  {
  }

  lemma NothingAgrees(plan: string -> Plan, now: nat)
    ensures Agree(EMPTY, map[], plan, 0, now)
  {
  }

  /** The budgets whose time is not past. */
  function Unexpired(t: Table, now: nat): set<string> {
    set k | k in t.budgets && t.budgets[k].until > now
  }

  /**
    A call is refused for room exactly when its key is new and the table full of 8192 budgets none of which is past, or
    one that was swept for room within the last second and could not be swept since.
   */
  lemma RefusedWhenFull(t: Table, bucket: string, now: nat)
    requires |t.budgets| <= 8192
    ensures Refuses(t, bucket, now) <==>
              && bucket !in t.budgets && |t.budgets| == 8192
              && (|Unexpired(t, now)| == 8192 || (now < t.capacitySweepAfter && t.sweepAbove >= 8192))
  {
    assert Swept(t.budgets, now).Keys == Unexpired(t, now);
    SubsetSize(Unexpired(t, now), t.budgets.Keys);
  }

  /** And a sweep for room at `now` puts off the next one by a second. */
  lemma SweptForRoom(t: Table, bucket: string, d: Discipline, now: nat)
    requires |t.budgets| == 8192 && bucket !in t.budgets && now >= t.capacitySweepAfter && now + 1000 < U64_LIMIT
    ensures Call(t, bucket, d, now).0.capacitySweepAfter == now + 1000
    ensures forall k :: k in t.budgets && k in Call(t, bucket, d, now).0.budgets ==> t.budgets[k].until > now
  {
    hide Act;
  }

  /**
    Sweeping is invisible: after any requests, the next one is answered as if nothing had ever been swept, unless
    it is refused for room; and that happens only to a key the table does not hold.
   */
  lemma SweepingInvisible(requests: seq<Request>, plan: string -> Plan, r: Request)
    requires Orderly(requests + [r], plan)
    ensures var t := TableAfter(requests);
            Call(t, r.bucket, r.d, r.at).1
            == if Refuses(t, r.bucket, r.at) then Some(60_000)
               else Act(Held(PlainAfter(requests), r.bucket), r.d, r.at).wait
    ensures |TableAfter(requests).budgets| <= MAX_BUCKETS
    ensures Refuses(TableAfter(requests), r.bucket, r.at) ==> r.bucket !in TableAfter(requests).budgets
  {
    hide Call, Act, Agree, Tidied, Suits;
    var all := requests + [r];
    assert forall i :: 0 <= i < |requests| ==> all[i] == requests[i];
    assert all[|requests|] == r;
    RunsAgree(requests, plan, r.at);
    var t := TableAfter(requests);
    if Refuses(t, r.bucket, r.at) {
      RefusedCall(t, r);
    } else {
      CallAgrees(t, PlainAfter(requests), plan, |requests|, r);
    }
  }

  // ---- why a key must not come back to counting

  const ONCE := Window(1, 1, 1)

  function Name(n: nat): string {
    seq(n, _ => 'x')
  }

  function Names(n: nat): (names: set<string>)
    ensures forall k :: k in names ==> |k| <= n
    ensures |names| == n + 1 && Name(0) in names
  {
    if n == 0 then {Name(0)} else Names(n - 1) + {Name(n)}
  }

  /** One counting act on each of many keys, the first of them the empty one. */
  function Crowd(n: nat): seq<Request> {
    if n == 0 then [] + [Request(Name(0), ONCE, 0)] else Crowd(n - 1) + [Request(Name(n), ONCE, 0)]
  }

  function Spent(names: set<string>): map<string, Throttle> {
    map k | k in names :: Throttle(1, 1)
  }

  lemma Snoc(requests: seq<Request>, r: Request)
    ensures (requests + [r])[..|requests + [r]| - 1] == requests && (requests + [r])[|requests + [r]| - 1] == r
  {
  }

  lemma CrowdStep(names: set<string>, name: string)
    requires |names| <= SWEEP_FLOOR && name !in names
    ensures !Refuses(Table(Spent(names), 0, 0), name, 0)
    ensures Call(Table(Spent(names), 0, 0), name, ONCE, 0).0 == Table(Spent(names + {name}), 0, 0)
    ensures Spent(names)[name := Act(Held(Spent(names), name), ONCE, 0).t] == Spent(names + {name})
  {
    assert Spent(names).Keys == names;
    assert Act(NONE, ONCE, 0).t == Throttle(1, 1);
  }

  /** Up to the floor nothing is swept, and both tables hold every key, spent. */
  lemma {:induction false} CrowdTables(n: nat)
    requires n <= SWEEP_FLOOR
    ensures TableAfter(Crowd(n)) == Table(Spent(Names(n)), 0, 0) && PlainAfter(Crowd(n)) == Spent(Names(n))
  {
    hide Call, Refuses, Act;
    if n == 0 {
      Snoc([], Request(Name(0), ONCE, 0));
      CrowdStep({}, Name(0));
      assert Spent({}) == map[] && {} + {Name(0)} == Names(0);
    } else {
      CrowdTables(n - 1);
      Snoc(Crowd(n - 1), Request(Name(n), ONCE, 0));
      CrowdStep(Names(n - 1), Name(n));
    }
  }

  /** The crowd, and then the empty key used as a bucket once the counting windows are past. */
  function Mixed(): seq<Request> {
    Crowd(SWEEP_FLOOR) + [Request(Name(0), Bucket(1, 1), 2)]
  }

  lemma CrowdSwept(names: set<string>, name: string)
    requires |names| == SWEEP_FLOOR + 1 && name in names
    ensures !Refuses(Table(Spent(names), 0, 0), name, 2)
    ensures Call(Table(Spent(names), 0, 0), name, Bucket(1, 1), 2).0 == Table(map[name := Throttle(0, 60_002)], 0, 0)
    ensures Act(Held(Spent(names), name), Bucket(1, 1), 2).t == Throttle(1, 60_002)
  {
    var t := Table(Spent(names), 0, 0);
    assert t.budgets.Keys == names;
    assert Swept(t.budgets, 2) == map[];
    assert Act(NONE, Bucket(1, 1), 2).t == Throttle(0, 60_002);
  }

  lemma MixedTables()
    ensures TableAfter(Mixed()) == Table(map[Name(0) := Throttle(0, 60_002)], 0, 0)
    ensures Held(PlainAfter(Mixed()), Name(0)) == Throttle(1, 60_002)
  {
    hide Call, Refuses, Act, Crowd, Names, Name, Spent;
    CrowdTables(SWEEP_FLOOR);
    CrowdSwept(Names(SWEEP_FLOOR), Name(0));
    Snoc(Crowd(SWEEP_FLOOR), Request(Name(0), Bucket(1, 1), 2));
  }

  /**
    Counting, then a bucket, then counting again, the one order no plan allows: the table, which swept the key in
    between, admits an act the other refuses.
   */
  lemma MixedKeysDiffer()
    ensures var r := Request(Name(0), ONCE, 2);
            && !Refuses(TableAfter(Mixed()), r.bucket, r.at)
            && Call(TableAfter(Mixed()), r.bucket, r.d, r.at).1 == None
            && Act(Held(PlainAfter(Mixed()), r.bucket), r.d, r.at).wait == Some(60_000)
  {
    hide TableAfter, PlainAfter, Mixed;
    MixedTables();
  }
}

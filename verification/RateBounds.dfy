/** What each discipline admits over any span of time, and how exact its retry time is. */
module RateBounds {
  import opened Bytes
  import opened Results
  import opened Throttles

  predicate Admitted(t: Throttle, d: Discipline, now: nat) {
    Act(t, d, now).wait.None?
  }

  ghost predicate Nondecreasing(times: seq<nat>) {
    forall i, j :: 0 <= i < j < |times| ==> times[i] <= times[j]
  }

  // ---- the cell-rate bucket

  /** The budget after acts at these times, and how many of them were admitted. */
  function Cells(t: Throttle, burst: nat, perMinute: nat, times: seq<nat>): (Throttle, nat) {
    if times == [] then (t, 0)
    else
      var (before, m) := Cells(t, burst, perMinute, times[..|times| - 1]);
      var o := Act(before, Bucket(burst, perMinute), times[|times| - 1]);
      (o.t, if o.wait.None? then m + 1 else m)
  }

  lemma {:induction false} CellsReach(t: Throttle, burst: nat, perMinute: nat, times: seq<nat>, from: nat, to: nat)
    requires Nondecreasing(times) && forall i :: 0 <= i < |times| ==> from <= times[i] <= to
    ensures var (after, m) := Cells(t, burst, perMinute, times);
            m > 0 ==>
              && from + m * Interval(perMinute) <= after.until
              && after.until <= to + Interval(perMinute) * Max(burst, 1)
  {
    if times != [] {
      var init, now := times[..|times| - 1], times[|times| - 1];
      CellsReach(t, burst, perMinute, init, from, to);
      var (before, m) := Cells(t, burst, perMinute, init);
      CellStep(before, burst, perMinute, now);
      Distribute(m, Interval(perMinute));
    }
  }

  lemma CellStep(t: Throttle, burst: nat, perMinute: nat, now: nat)
    ensures var o := Act(t, Bucket(burst, perMinute), now);
            if o.wait.None?
            then o.t.until == Max(t.until, now) + Interval(perMinute)
                 && o.t.until <= now + Interval(perMinute) * Max(burst, 1)
            else o.t == t
  {
  }

  lemma Distribute(m: nat, i: nat)
    ensures (m + 1) * i == m * i + i
  {
  }

  /** The acts that refill in a span: one every minute's share, one a minute for none, one a millisecond at most. */
  function SpanActs(perMinute: nat, length: nat): nat {
    if perMinute == 0 then length / 60_000 else if perMinute <= 60_000 then length / (60_000 / perMinute) else length
  }

  lemma QuotientSign(n: nat, d: nat)
    requires d > 0
    ensures n / d >= 1 <==> d <= n
  {
    var q := n / d;
    assert n == q * d + n % d;
    if q >= 1 { assert q * d >= d; }
  }

  lemma IntervalIs(perMinute: nat)
    ensures perMinute == 0 ==> Interval(perMinute) == 60_000
    ensures 1 <= perMinute <= 60_000 ==> Interval(perMinute) == 60_000 / perMinute
    ensures 60_000 < perMinute ==> Interval(perMinute) == 1
  {
    if perMinute > 0 { QuotientSign(60_000, perMinute); }
  }

  lemma SpanIsIntervals(perMinute: nat, length: nat)
    ensures SpanActs(perMinute, length) == length / Interval(perMinute)
  {
    hide Interval;
    IntervalIs(perMinute);
  }

  /** The same time, over and over. */
  function Repeated(now: nat, k: nat): seq<nat> {
    seq(k, _ => now)
  }

  lemma {:induction false} BurstAdmitted(t: Throttle, burst: nat, perMinute: nat, now: nat, k: nat)
    requires t.until <= now && k <= Max(burst, 1)
    ensures var (after, m) := Cells(t, burst, perMinute, Repeated(now, k));
            m == k && Max(after.until, now) == now + k * Interval(perMinute)
  {
    var i, b := Interval(perMinute), Max(burst, 1);
    if k > 0 {
      BurstAdmitted(t, burst, perMinute, now, k - 1);
      assert Repeated(now, k) == Repeated(now, k - 1) + [now];
      CellsSnoc(t, burst, perMinute, Repeated(now, k - 1), now);
      Distribute(k - 1, i);
      Grows(k, b, i);
    }
  }

  lemma Grows(k: nat, b: nat, i: nat)
    requires k <= b
    ensures k * i <= i * b
  {
  }

  lemma SpentBucket(t: Throttle, burst: nat, perMinute: nat, now: nat)
    requires Max(t.until, now) == now + Max(burst, 1) * Interval(perMinute)
    ensures Act(t, Bucket(burst, perMinute), now).wait == Some(Interval(perMinute))
  {
    hide Interval;
    Commute(Max(burst, 1), Interval(perMinute));
  }

  lemma Commute(a: nat, b: nat)
    ensures a * b == b * a
  {
  }

  /**
    A bucket that is full again admits its whole burst at one instant, and the act after that waits exactly for one
    act to refill.
   */
  lemma WholeBurst(t: Throttle, burst: nat, perMinute: nat, now: nat)
    requires t.until <= now && 1 <= perMinute <= 60_000
    ensures var (after, m) := Cells(t, burst, perMinute, Repeated(now, Max(burst, 1)));
            && m == Max(burst, 1)
            && Act(after, Bucket(burst, perMinute), now).wait == Some(60_000 / perMinute)
  {
    hide Interval, Cells, Act;
    BurstAdmitted(t, burst, perMinute, now, Max(burst, 1));
    IntervalIs(perMinute);
    SpentBucket(Cells(t, burst, perMinute, Repeated(now, Max(burst, 1))).0, burst, perMinute, now);
  }

  /** A caller that leaves one act the time to refill before the next is never refused. */
  lemma {:induction false} SteadyAlwaysAdmitted(t: Throttle, burst: nat, perMinute: nat, times: seq<nat>)
    requires 1 <= perMinute <= 60_000 && (times != [] ==> t.until <= times[0])
    requires forall i :: 0 <= i < |times| - 1 ==> times[i] + 60_000 / perMinute <= times[i + 1]
    ensures Cells(t, burst, perMinute, times).1 == |times|
    ensures times != [] ==>
              Cells(t, burst, perMinute, times).0.until == times[|times| - 1] + 60_000 / perMinute
  {
    IntervalIs(perMinute);
    if times != [] {
      var init, i := times[..|times| - 1], Interval(perMinute);
      SteadyAlwaysAdmitted(t, burst, perMinute, init);
      if init != [] { assert init[|init| - 1] + 60_000 / perMinute <= times[|init| - 1 + 1]; }
      Grows(1, Max(burst, 1), i);
    }
  }

  /**
    The bucket admits at most its burst and one act per interval in any span of time, whatever came before: the
    times are any stretch of a run, all within `length` of the first.
   */
  lemma CellRate(t: Throttle, burst: nat, perMinute: nat, times: seq<nat>, from: nat, length: nat)
    requires Nondecreasing(times) && forall i :: 0 <= i < |times| ==> from <= times[i] <= from + length
    ensures Cells(t, burst, perMinute, times).1 <= Max(burst, 1) + SpanActs(perMinute, length)
  {
    var i, b, m := Interval(perMinute), Max(burst, 1), Cells(t, burst, perMinute, times).1;
    SpanIsIntervals(perMinute, length);
    CellsReach(t, burst, perMinute, times, from, from + length);
    if m > 0 {
      assert m * i <= length + i * b;
      DivideBound(m, i, b, length);
    }
  }

  lemma DivideBound(m: nat, i: nat, b: nat, length: nat)
    requires i > 0 && m * i <= length + i * b
    ensures m <= b + length / i
  {
    var q := length / i;
    assert (m - b) * i <= length < q * i + i == (q + 1) * i;
    Cancel(m - b, q + 1, i);
  }

  lemma Cancel(x: int, y: int, i: nat)
    requires x * i < y * i
    ensures x < y
  {
  }

  /** A refused act spends nothing, and its retry time is exact: refused at every earlier instant, admitted at it. */
  lemma CellRetryExact(t: Throttle, burst: nat, perMinute: nat, now: nat)
    requires !Admitted(t, Bucket(burst, perMinute), now)
    ensures var o := Act(t, Bucket(burst, perMinute), now);
            && o.t == t
            && (forall at :: now <= at < now + o.wait.value ==> !Admitted(t, Bucket(burst, perMinute), at))
            && Admitted(t, Bucket(burst, perMinute), now + o.wait.value)
  {
    var i, b := Interval(perMinute), Max(burst, 1);
    assert i * b >= i;
  }

  // ---- the bucket behind the shared table

  /** How many of the requests from number `from` on, for `key`, the shared table admitted. */
  function TableAdmits(requests: seq<Request>, key: string, from: nat): nat {
    if |requests| <= from then 0
    else
      var init, r := requests[..|requests| - 1], requests[|requests| - 1];
      TableAdmits(init, key, from)
      + (if r.bucket == key && Call(TableAfter(init), r.bucket, r.d, r.at).1.None? then 1 else 0)
  }

  /** The times of those requests for `key`, without the ones refused for room. */
  function TimesOf(requests: seq<Request>, key: string, from: nat): seq<nat> {
    if |requests| <= from then []
    else
      var init, r := requests[..|requests| - 1], requests[|requests| - 1];
      TimesOf(init, key, from)
      + (if r.bucket == key && !Refuses(TableAfter(init), r.bucket, r.at) then [r.at] else [])
  }

  lemma {:induction false} TimesWithin(requests: seq<Request>, key: string, from: nat, lo: nat, hi: nat)
    requires forall i, j :: 0 <= i < j < |requests| ==> requests[i].at <= requests[j].at
    requires forall i :: from <= i < |requests| ==> lo <= requests[i].at <= hi
    ensures var times := TimesOf(requests, key, from);
            && Nondecreasing(times)
            && (forall i :: 0 <= i < |times| ==> lo <= times[i] <= hi)
            && (forall i :: 0 <= i < |times| ==> |requests| > 0 && times[i] <= requests[|requests| - 1].at)
  {
    hide Refuses;
    if |requests| > from {
      TimesWithin(requests[..|requests| - 1], key, from, lo, hi);
    }
  }

  lemma {:induction false} TableIsCells(requests: seq<Request>, key: string, from: nat, burst: nat, perMinute: nat,
                                        plan: string -> Plan)
    requires Orderly(requests, plan) && from <= |requests|
    requires forall i :: from <= i < |requests| && requests[i].bucket == key
                         ==> requests[i].d == Bucket(burst, perMinute)
    ensures var start := Held(PlainAfter(requests[..from]), key);
            Cells(start, burst, perMinute, TimesOf(requests, key, from))
            == (Held(PlainAfter(requests), key), TableAdmits(requests, key, from))
  {
    hide Act, Refuses, Call, Orderly, PlainAfter, TableAfter, Cells, TimesOf, TableAdmits;
    if |requests| == from {
      assert requests[..from] == requests;
      NoneYet(requests, key, from, burst, perMinute);
    } else {
      var init, r := requests[..|requests| - 1], requests[|requests| - 1];
      OrderlyPrefix(requests, plan);
      TableIsCells(init, key, from, burst, perMinute, plan);
      assert init[..from] == requests[..from];
      assert requests == init + [r];
      SweepingInvisible(init, plan, r);
      OneMore(init, r, key, from);
      CellsSnoc(Held(PlainAfter(requests[..from]), key), burst, perMinute, TimesOf(init, key, from), r.at);
    }
  }

  lemma OrderlyPrefix(requests: seq<Request>, plan: string -> Plan)
    requires Orderly(requests, plan) && |requests| > 0
    ensures Orderly(requests[..|requests| - 1], plan)
  {
  }

  lemma NoneYet(requests: seq<Request>, key: string, from: nat, burst: nat, perMinute: nat)
    requires |requests| <= from
    ensures TimesOf(requests, key, from) == [] && TableAdmits(requests, key, from) == 0
    ensures forall t :: Cells(t, burst, perMinute, []) == (t, 0)
  {
  }

  /** What one more request does to the never-swept table, the times and the count. */
  lemma OneMore(init: seq<Request>, r: Request, key: string, from: nat)
    requires from <= |init|
    ensures var all, room := init + [r], !Refuses(TableAfter(init), r.bucket, r.at);
            && Held(PlainAfter(all), key)
               == (if room && r.bucket == key then Act(Held(PlainAfter(init), key), r.d, r.at).t
                   else Held(PlainAfter(init), key))
            && TimesOf(all, key, from) == (if room && r.bucket == key then TimesOf(init, key, from) + [r.at]
                                           else TimesOf(init, key, from))
            && TableAdmits(all, key, from)
               == TableAdmits(init, key, from)
                  + (if r.bucket == key && Call(TableAfter(init), r.bucket, r.d, r.at).1.None? then 1 else 0)
  {
    hide Act, Refuses, Call;
    assert (init + [r])[..|init|] == init;
  }

  lemma CellsSnoc(t: Throttle, burst: nat, perMinute: nat, times: seq<nat>, at: nat)
    ensures var (before, m) := Cells(t, burst, perMinute, times);
            var o := Act(before, Bucket(burst, perMinute), at);
            Cells(t, burst, perMinute, times + [at]) == (o.t, if o.wait.None? then m + 1 else m)
  {
    hide Act;
    assert (times + [at])[..|times|] == times;
  }

  /**
    Through the shared table, with its sweeps, its ceiling and every other caller's acts in between: a key kept to
    one bucket is admitted at most its burst and one act per interval in any span.
   */
  lemma TableCellRate(requests: seq<Request>, key: string, from: nat, burst: nat, perMinute: nat,
                      plan: string -> Plan, start: nat, length: nat)
    requires Orderly(requests, plan) && from <= |requests|
    requires forall i :: from <= i < |requests| && requests[i].bucket == key
                         ==> requests[i].d == Bucket(burst, perMinute)
    requires forall i :: from <= i < |requests| ==> start <= requests[i].at <= start + length
    ensures TableAdmits(requests, key, from) <= Max(burst, 1) + SpanActs(perMinute, length)
  {
    hide TableAdmits, TimesOf, Cells, SpanActs;
    TableIsCells(requests, key, from, burst, perMinute, plan);
    TimesWithin(requests, key, from, start, start + length);
    CellRate(Held(PlainAfter(requests[..from]), key), burst, perMinute, TimesOf(requests, key, from), start, length);
  }

  // ---- the fixed window

  datatype Spend = Spend(at: nat, cost: nat)

  ghost predicate Ordered(acts: seq<Spend>) {
    forall i, j :: 0 <= i < j < |acts| ==> acts[i].at <= acts[j].at
  }

  /** The budget after these acts, and the cost admitted of them. */
  function Windows(t: Throttle, limit: nat, span: nat, acts: seq<Spend>): (Throttle, nat) {
    if acts == [] then (t, 0)
    else
      var (before, spent) := Windows(t, limit, span, acts[..|acts| - 1]);
      var a := acts[|acts| - 1];
      var o := Act(before, Window(limit, a.cost, span), a.at);
      (o.t, if o.wait.None? then spent + a.cost else spent)
  }

  /** The count can be exceeded, and the window lasts: not so for the largest limit, or for an empty window. */
  predicate Bounded(limit: nat, span: nat) {
    limit < U32_LIMIT - 1 && (span > 0 || limit == 0)
  }

  /** Either everything admitted since `from` is in the open window, or that window closes only after the span. */
  predicate AtMostTwo(t: Throttle, spent: nat, limit: nat, span: nat, from: nat) {
    && t.count <= limit
    && (|| (spent <= t.count && (spent > 0 ==> t.until > from))
        || (spent <= limit + t.count && t.until > from + span))
  }

  lemma WindowStep(t: Throttle, spent: nat, limit: nat, span: nat, from: nat, a: Spend)
    requires AtMostTwo(t, spent, limit, span, from) && Bounded(limit, span)
    requires from <= a.at <= from + span
    ensures var o := Act(t, Window(limit, a.cost, span), a.at);
            AtMostTwo(o.t, if o.wait.None? then spent + a.cost else spent, limit, span, from)
  {
    var open := if t.until <= a.at then Throttle(0, a.at + span) else t;
    if open.count + a.cost <= limit {
      assert (open.count + a.cost) % U32_LIMIT == open.count + a.cost;
    }
  }

  lemma {:induction false} WindowsKeep(t: Throttle, limit: nat, span: nat, acts: seq<Spend>, from: nat)
    requires t.count <= limit && Bounded(limit, span)
    requires forall i :: 0 <= i < |acts| ==> from <= acts[i].at <= from + span
    ensures var (after, spent) := Windows(t, limit, span, acts); AtMostTwo(after, spent, limit, span, from)
  {
    hide Act, AtMostTwo;
    if acts == [] {
      NothingSpent(t, limit, span, from);
    } else {
      var init := acts[..|acts| - 1];
      WindowsKeep(t, limit, span, init, from);
      var (before, spent) := Windows(t, limit, span, init);
      WindowStep(before, spent, limit, span, from, acts[|acts| - 1]);
    }
  }

  lemma NothingSpent(t: Throttle, limit: nat, span: nat, from: nat)
    requires t.count <= limit
    ensures AtMostTwo(t, 0, limit, span, from)
  {
  }

  /** The fixed window admits at most twice its limit in any span of one window's length. */
  lemma WindowRate(t: Throttle, limit: nat, span: nat, acts: seq<Spend>, from: nat)
    requires t.count <= limit && Bounded(limit, span)
    requires forall i :: 0 <= i < |acts| ==> from <= acts[i].at <= from + span
    ensures Windows(t, limit, span, acts).1 <= 2 * limit
  {
    hide Windows;
    WindowsKeep(t, limit, span, acts, from);
  }

  /** Three acts at one instant, each of the whole limit. */
  function Thrice(limit: nat): seq<Spend> {
    [Spend(0, limit), Spend(0, limit), Spend(0, limit)]
  }

  lemma ThriceAdmitted(limit: nat, span: nat)
    requires limit < U32_LIMIT && !Bounded(limit, span)
    ensures Windows(NONE, limit, span, Thrice(limit)).1 == 3 * limit
  {
    var a := Spend(0, limit);
    assert Thrice(limit)[..2] == [a, a] && [a, a][..1] == [a] && [a][..0] == [];
    assert Windows(NONE, limit, span, []) == (NONE, 0);
    assert Windows(NONE, limit, span, [a]).1 == limit;
    assert Windows(NONE, limit, span, [a, a]).1 == 2 * limit;
  }

  predicate Within(acts: seq<Spend>, from: nat, span: nat) {
    forall i :: 0 <= i < |acts| ==> from <= acts[i].at <= from + span
  }

  /** So twice the limit bounds every run of acts exactly for the limits and windows that are bounded. */
  lemma WindowRateIff(limit: nat, span: nat)
    requires limit < U32_LIMIT
    ensures (forall t: Throttle, acts: seq<Spend>, from: nat ::
               t.count <= limit && Within(acts, from, span) ==> Windows(t, limit, span, acts).1 <= 2 * limit)
            <==> Bounded(limit, span)
  {
    hide Windows;
    if Bounded(limit, span) {
      forall t: Throttle, acts: seq<Spend>, from: nat | t.count <= limit && Within(acts, from, span)
        ensures Windows(t, limit, span, acts).1 <= 2 * limit
      {
        WindowRate(t, limit, span, acts, from);
      }
    } else {
      ThriceAdmitted(limit, span);
      assert NONE.count <= limit && Within(Thrice(limit), 0, span);
    }
  }

  /** What acts spend of a limit when each is taken whole if it still fits. */
  function Greedy(limit: nat, acts: seq<Spend>): (spent: nat)
    ensures spent <= limit
  {
    if acts == [] then 0
    else
      var spent, cost := Greedy(limit, acts[..|acts| - 1]), acts[|acts| - 1].cost;
      if spent + cost <= limit then spent + cost else spent
  }

  /** The acts of one minute, day or whatever the window is: none before it opens and none once it is closed. */
  predicate InOne(acts: seq<Spend>, open: nat, span: nat) {
    forall i :: 0 <= i < |acts| ==> open <= acts[i].at < open + span
  }

  /**
    From its first act on, until it closes, a window takes exactly what fits, in the order it comes, and a refused act
    is told to wait for the window's end.
   */
  lemma {:induction false} WindowIsGreedy(t: Throttle, limit: nat, span: nat, acts: seq<Spend>)
    requires limit < U32_LIMIT - 1 && acts != [] && t.until <= acts[0].at && InOne(acts, acts[0].at, span)
    ensures Windows(t, limit, span, acts).0 == Throttle(Greedy(limit, acts), acts[0].at + span)
    ensures Windows(t, limit, span, acts).1 == Greedy(limit, acts)
    ensures var last := acts[|acts| - 1];
            var before := Windows(t, limit, span, acts[..|acts| - 1]).0;
            Act(before, Window(limit, last.cost, span), last.at).wait
            == if Greedy(limit, acts[..|acts| - 1]) + last.cost <= limit then None
               else Some(acts[0].at + span - last.at)
  {
    var init := acts[..|acts| - 1];
    if init != [] { WindowIsGreedy(t, limit, span, init); }
  }

  // ---- the fixed window behind the shared table

  /** The cost the shared table admitted of the requests from number `from` on, for `key`. */
  function TableSpends(requests: seq<Request>, key: string, from: nat): nat {
    if |requests| <= from then 0
    else
      var init, r := requests[..|requests| - 1], requests[|requests| - 1];
      TableSpends(init, key, from)
      + (if r.bucket == key && r.d.Window? && Call(TableAfter(init), r.bucket, r.d, r.at).1.None? then r.d.cost else 0)
  }

  /** The key is only ever used by windows of one limit and length, at whatever cost. */
  predicate KeptToWindow(requests: seq<Request>, key: string, limit: nat, span: nat) {
    forall i :: 0 <= i < |requests| && requests[i].bucket == key
                ==> requests[i].d.Window? && requests[i].d.limit == limit && requests[i].d.span == span
  }

  lemma OneMoreSpend(init: seq<Request>, r: Request, key: string, from: nat)
    requires from <= |init| && (r.bucket == key ==> r.d.Window?)
    ensures var all, room := init + [r], !Refuses(TableAfter(init), r.bucket, r.at);
            && Held(PlainAfter(all), key)
               == (if room && r.bucket == key then Act(Held(PlainAfter(init), key), r.d, r.at).t
                   else Held(PlainAfter(init), key))
            && TableSpends(all, key, from)
               == TableSpends(init, key, from)
                  + (if r.bucket == key && Call(TableAfter(init), r.bucket, r.d, r.at).1.None? then r.d.cost else 0)
  {
    hide Act, Refuses, Call;
    assert (init + [r])[..|init|] == init;
  }

  lemma WindowCount(t: Throttle, limit: nat, cost: nat, span: nat, at: nat)
    requires t.count <= limit < U32_LIMIT - 1
    ensures Act(t, Window(limit, cost, span), at).t.count <= limit
  {
  }

  /** Admitted or not, no act takes a window's count past its limit. */
  lemma {:induction false} CountWithin(requests: seq<Request>, key: string, limit: nat, span: nat)
    requires KeptToWindow(requests, key, limit, span) && limit < U32_LIMIT - 1
    ensures Held(PlainAfter(requests), key).count <= limit
  {
    hide Act, Refuses, Call, TableAfter;
    if requests != [] {
      var init, r := requests[..|requests| - 1], requests[|requests| - 1];
      CountWithin(init, key, limit, span);
      if r.bucket == key { WindowCount(Held(PlainAfter(init), key), limit, r.d.cost, span, r.at); }
    }
  }

  lemma {:induction false} TableKeepsTwo(requests: seq<Request>, key: string, from: nat, limit: nat, span: nat,
                                         plan: string -> Plan, start: nat)
    requires Orderly(requests, plan) && from <= |requests| && Bounded(limit, span)
    requires KeptToWindow(requests, key, limit, span)
    requires forall i :: from <= i < |requests| ==> start <= requests[i].at <= start + span
    ensures AtMostTwo(Held(PlainAfter(requests), key), TableSpends(requests, key, from), limit, span, start)
  {
    hide Act, Refuses, Call, Orderly, PlainAfter, TableAfter, TableSpends, AtMostTwo;
    if |requests| == from {
      CountWithin(requests, key, limit, span);
      assert TableSpends(requests, key, from) == 0 by { NoneSpent(requests, key, from); }
      NothingSpent(Held(PlainAfter(requests), key), limit, span, start);
    } else {
      var init, r := requests[..|requests| - 1], requests[|requests| - 1];
      OrderlyPrefix(requests, plan);
      TableKeepsTwo(init, key, from, limit, span, plan, start);
      assert requests == init + [r];
      SweepingInvisible(init, plan, r);
      OneMoreSpend(init, r, key, from);
      if r.bucket == key {
        var spend := Spend(r.at, r.d.cost);
        WindowStep(Held(PlainAfter(init), key), TableSpends(init, key, from), limit, span, start, spend);
        assert r.d == Window(limit, r.d.cost, span);
      }
    }
  }

  lemma NoneSpent(requests: seq<Request>, key: string, from: nat)
    requires |requests| <= from
    ensures TableSpends(requests, key, from) == 0
  {
  }

  /**
    Through the shared table too, with its sweeps, its ceiling and every other caller's acts in between: a key kept to
    one window spends at most twice its limit in any span of the window's length.
   */
  lemma TableWindowRate(requests: seq<Request>, key: string, from: nat, limit: nat, span: nat,
                        plan: string -> Plan, start: nat)
    requires Orderly(requests, plan) && from <= |requests| && Bounded(limit, span)
    requires KeptToWindow(requests, key, limit, span)
    requires forall i :: from <= i < |requests| ==> start <= requests[i].at <= start + span
    ensures TableSpends(requests, key, from) <= 2 * limit
  {
    hide TableSpends, PlainAfter, Orderly;
    TableKeepsTwo(requests, key, from, limit, span, plan, start);
  }

  /** And that is sharp: a full window spent at its end and the next at its start. */
  lemma WindowRateSharp(limit: nat, span: nat)
    requires 0 < limit < U32_LIMIT - 1 && span > 1
    ensures var acts := [Spend(span - 1, limit), Spend(span, limit)];
            Windows(Throttle(0, span), limit, span, acts).1 == 2 * limit
  {
    var a, b := Spend(span - 1, limit), Spend(span, limit);
    assert [a, b][..1] == [a] && [a][..0] == [];
    assert Windows(Throttle(0, span), limit, span, [a]) == (Throttle(limit, span), limit);
  }

  /** A refused act spends nothing; the same act is refused until the window closes and fits then if it ever can. */
  lemma WindowRetryExact(t: Throttle, limit: nat, cost: nat, span: nat, now: nat)
    requires limit < U32_LIMIT && cost < U32_LIMIT
    requires !Admitted(t, Window(limit, cost, span), now)
    ensures var d := Window(limit, cost, span);
            var o := Act(t, d, now);
            && o.t == (if t.until <= now then Throttle(0, now + span) else t)
            && (forall at :: now <= at < now + o.wait.value ==> !Admitted(o.t, d, at))
            && (Admitted(o.t, d, now + o.wait.value) <==> cost <= limit)
  {
  }

  /** The sliding guard: a refused act does not extend the window, an admitted one does. */
  lemma SlidingRetryExact(t: Throttle, limit: nat, cost: nat, now: nat)
    requires limit < U32_LIMIT && cost < U32_LIMIT
    requires !Admitted(t, Sliding(limit, cost), now)
    ensures var d := Sliding(limit, cost);
            var o := Act(t, d, now);
            && o.t.until == t.until
            && (forall at :: now <= at < now + o.wait.value ==> !Admitted(o.t, d, at))
            && (Admitted(o.t, d, now + o.wait.value) <==> cost <= limit)
  {
  }

  /** The budget after these acts of the sliding guard, and the cost admitted of them. */
  function Slides(t: Throttle, limit: nat, acts: seq<Spend>): (Throttle, nat) {
    if acts == [] then (t, 0)
    else
      var (before, spent) := Slides(t, limit, acts[..|acts| - 1]);
      var a := acts[|acts| - 1];
      var o := Act(before, Sliding(limit, a.cost), a.at);
      (o.t, if o.wait.None? then spent + a.cost else spent)
  }

  /** Within a minute of its first act the sliding guard takes exactly what fits, in the order it comes. */
  lemma {:induction false} SlidingIsGreedy(t: Throttle, limit: nat, acts: seq<Spend>)
    requires limit < U32_LIMIT - 1 && Ordered(acts)
    requires acts != [] ==> t.until <= acts[0].at && InOne(acts, acts[0].at, 60_000)
    ensures Slides(t, limit, acts).1 == Greedy(limit, acts)
    ensures acts != [] ==>
              var after := Slides(t, limit, acts).0;
              && after.count == Greedy(limit, acts)
              && (acts[0].at + 60_000 <= after.until || (after.until == t.until && after.count == 0))
  {
    if acts != [] {
      var init := acts[..|acts| - 1];
      SlidingIsGreedy(t, limit, init);
    }
  }

  /** An admitted act holds its window open for a minute exactly: a minute's pause, and the whole limit is back. */
  lemma SlidingClears(t: Throttle, limit: nat, cost: nat, now: nat, next: nat, at: nat)
    requires limit < U32_LIMIT - 1 && Admitted(t, Sliding(limit, cost), now) && now <= at
    ensures var after := Act(t, Sliding(limit, cost), now).t;
            && after.until == now + 60_000
            && (at >= now + 60_000 ==> (Admitted(after, Sliding(limit, next), at) <==> next <= limit))
            && (at < now + 60_000 && next + cost > limit ==> !Admitted(after, Sliding(limit, next), at))
  {
  }

  /**
    A caller of the sliding guard that never pauses for a whole window is refused at its limit, however slowly it
    asks: the guard is not a rate.
   */
  lemma {:induction false} SlidingNeverForgets(times: seq<nat>, limit: nat)
    requires limit < U32_LIMIT - 1 && |times| > limit
    requires forall i :: 0 <= i < |times| - 1 ==> times[i] <= times[i + 1] < times[i] + 60_000
    ensures exists i :: 0 <= i <= limit && !Admitted(Slid(times[..i], limit), Sliding(limit, 1), times[i])
  {
    if forall i :: 0 <= i < limit ==> Admitted(Slid(times[..i], limit), Sliding(limit, 1), times[i]) {
      SlidCounts(times, limit, limit);
      assert !Admitted(Slid(times[..limit], limit), Sliding(limit, 1), times[limit]);
    }
  }

  function Slid(times: seq<nat>, limit: nat): Throttle {
    if times == [] then NONE
    else Act(Slid(times[..|times| - 1], limit), Sliding(limit, 1), times[|times| - 1]).t
  }

  lemma {:induction false} SlidCounts(times: seq<nat>, limit: nat, k: nat)
    requires k <= limit < U32_LIMIT - 1 && k < |times|
    requires forall i :: 0 <= i < |times| - 1 ==> times[i] <= times[i + 1] < times[i] + 60_000
    requires forall i :: 0 <= i < k ==> Admitted(Slid(times[..i], limit), Sliding(limit, 1), times[i])
    ensures var t := Slid(times[..k], limit);
            t.count == k && (k > 0 ==> t.until == times[k - 1] + CLAIM_WINDOW_MS > times[k])
  {
    hide Act;
    if k > 0 {
      SlidCounts(times, limit, k - 1);
      assert times[..k][..k - 1] == times[..k - 1];
      var before := Slid(times[..k - 1], limit);
      assert Admitted(before, Sliding(limit, 1), times[k - 1]);
      SlideStep(before, limit, times[k - 1], k - 1);
      assert times[k - 1] <= times[k - 1 + 1] < times[k - 1] + CLAIM_WINDOW_MS;
    }
  }

  lemma SlideStep(t: Throttle, limit: nat, now: nat, k: nat)
    requires t.count == k < limit < U32_LIMIT - 1 && (k > 0 ==> t.until > now)
    requires Admitted(t, Sliding(limit, 1), now)
    ensures Act(t, Sliding(limit, 1), now).t == Throttle(k + 1, now + CLAIM_WINDOW_MS)
  {
  }
}

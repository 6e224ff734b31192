/** The table of budgets as the object behind its mutex. */
module ThrottleTable {
  import opened Bytes
  import opened Results
  import opened Throttles

  /** Writing a budget twice leaves the second. */
  lemma Rewritten(m: map<string, Throttle>, k: string, a: Throttle, b: Throttle)
    ensures m[k := a][k := b] == m[k := b]
  {
  }

  /** `retain`: the budgets whose time is past go, one by one. */
  method Sweep(budgets: map<string, Throttle>, now: nat) returns (rest: map<string, Throttle>)
    ensures rest == Swept(budgets, now)
  {
    rest := budgets;
    var keys := budgets.Keys;
    while keys != {}
      invariant keys <= budgets.Keys
      invariant rest == (map k | k in budgets && (k in keys || budgets[k].until > now) :: budgets[k])
      decreases |keys|
    {
      var k :| k in keys;
      if rest[k].until <= now { rest := rest - {k}; }
      keys := keys - {k};
    }
  }

  class ThrottleTable {
    var budgets: map<string, Throttle>
    var sweepAbove: nat
    var capacitySweepAfter: nat

    function Now(): Table
      reads this
    {
      Table(budgets, sweepAbove, capacitySweepAfter)
    }

    constructor ()
      ensures Now() == EMPTY
    {
      budgets, sweepAbove, capacitySweepAfter := map[], 0, 0;
    }

    /** `entry`: whether the budget has a place, with a fresh one made for it if it needs one. */
    method Entry(bucket: string, now: nat) returns (ok: bool)
      modifies this
      ensures ok <==> !Refuses(old(Now()), bucket, now)
      ensures var tidy := Tidied(old(Now()), bucket, now);
              Now() == if ok then tidy.(budgets := tidy.budgets[bucket := Held(tidy.budgets, bucket)]) else tidy
    {
      var novel := bucket !in budgets;
      var atCapacity := novel && |budgets| >= MAX_BUCKETS;
      if |budgets| > Max(sweepAbove, SWEEP_FLOOR) || (atCapacity && now >= capacitySweepAfter) {
        budgets := Sweep(budgets, now);
        sweepAbove := |budgets| * 2;
        if atCapacity { capacitySweepAfter := if now + 1000 >= U64_LIMIT then U64_LIMIT - 1 else now + 1000; }
      }
      if novel && |budgets| >= MAX_BUCKETS { return false; }
      if bucket !in budgets { budgets := budgets[bucket := NONE]; }
      assert budgets[bucket := budgets[bucket]] == budgets;
      return true;
    }

    /** `throttled_by`. */
    method ThrottledBy(bucket: string, limit: nat, cost: nat, now: nat) returns (wait: Option<nat>)
      modifies this
      ensures (Now(), wait) == Call(old(Now()), bucket, Sliding(limit, cost), now)
    {
      hide Tidied;
      var ok := Entry(bucket, now);
      if !ok { return Some(CLAIM_WINDOW_MS); }
      ghost var tidy := Tidied(old(Now()), bucket, now).budgets;
      var t := budgets[bucket];
      if t.until <= now { t := Throttle(0, t.until); }
      Rewritten(tidy, bucket, budgets[bucket], t);
      budgets := budgets[bucket := t];
      if SaturatingAdd32(t.count, cost) > limit { return Some(Minus(t.until, now)); }
      Rewritten(tidy, bucket, t, Throttle((t.count + cost) % U32_LIMIT, now + CLAIM_WINDOW_MS));
      budgets := budgets[bucket := Throttle((t.count + cost) % U32_LIMIT, now + CLAIM_WINDOW_MS)];
      return None;
    }

    /** `throttled_per_window`. */
    method ThrottledPerWindow(bucket: string, limit: nat, cost: nat, span: nat, now: nat) returns (wait: Option<nat>)
      modifies this
      ensures (Now(), wait) == Call(old(Now()), bucket, Window(limit, cost, span), now)
    {
      hide Tidied;
      var ok := Entry(bucket, now);
      if !ok { return Some(CLAIM_WINDOW_MS); }
      ghost var tidy := Tidied(old(Now()), bucket, now).budgets;
      var t := budgets[bucket];
      if t.until <= now { t := Throttle(0, now + span); }
      Rewritten(tidy, bucket, budgets[bucket], t);
      budgets := budgets[bucket := t];
      if SaturatingAdd32(t.count, cost) > limit { return Some(Minus(t.until, now)); }
      Rewritten(tidy, bucket, t, Throttle((t.count + cost) % U32_LIMIT, t.until));
      budgets := budgets[bucket := Throttle((t.count + cost) % U32_LIMIT, t.until)];
      return None;
    }

    /** `throttled_bucket`. */
    method ThrottledBucket(bucket: string, burst: nat, perMinute: nat, now: nat) returns (wait: Option<nat>)
      modifies this
      ensures (Now(), wait) == Call(old(Now()), bucket, Bucket(burst, perMinute), now)
    {
      hide Tidied;
      var interval := Interval(perMinute);
      var ok := Entry(bucket, now);
      if !ok { return Some(CLAIM_WINDOW_MS); }
      ghost var tidy := Tidied(old(Now()), bucket, now).budgets;
      var t := budgets[bucket];
      var fullAgain := Max(t.until, now) + interval;
      var over := Minus(Minus(fullAgain, now), interval * Max(burst, 1));
      if over > 0 { return Some(over); }
      Rewritten(tidy, bucket, t, Throttle(t.count, fullAgain));
      budgets := budgets[bucket := Throttle(t.count, fullAgain)];
      return None;
    }
  }
}

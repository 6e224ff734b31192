/**
  An assistant's queue: sequence numbers that are never reused, drains that remove nothing, cumulative
  acknowledgements, expiry, and a record of what was taken.
 */
module AssistantQueue {
  import opened Bytes
  import opened Results

  datatype Entry = Entry(n: nat, sealed: string, receivedAt: nat)
  datatype Taken = Taken(n: nat, receivedAt: nat)
  datatype Queue = Queue(next: nat, messages: seq<Entry>, taken: seq<Taken>)

  // ---- lanes

  datatype Lane = Library | Tv(tv: Option<string>)

  const MAX_QUEUED := 200
  const TV_MAX_QUEUED := 20
  const TTL_MS := 7 * 86_400_000
  const TV_TTL_MS := 10 * 60_000

  function Max(lane: Lane): nat {
    if lane.Library? then MAX_QUEUED else TV_MAX_QUEUED
  }

  function Ttl(lane: Lane): nat {
    if lane.Library? then TTL_MS else TV_TTL_MS
  }

  predicate HexId(s: string) {
    |s| == 32 && forall i :: 0 <= i < |s| ==> '0' <= s[i] <= '9' || 'a' <= s[i] <= 'f'
  }

  /** `valid_hex_id` of a library. */
  predicate LibraryId(s: string) {
    16 <= |s| <= 128 && forall i :: 0 <= i < |s| ==> '0' <= s[i] <= '9' || 'a' <= s[i] <= 'f' || 'A' <= s[i] <= 'F'
  }

  datatype LaneError = InvalidQueue | InvalidTv

  /** `Lane::parse`. */
  function Parse(queue: Option<string>, tv: Option<string>): Result<Lane, LaneError> {
    match (queue, tv)
    case (None, None) => Ok(Library)
    case (Some(q), None) =>
      if q == "library" then Ok(Library) else if q == "tv" then Ok(Tv(None)) else Err(InvalidQueue)
    case (Some(q), Some(t)) =>
      if q != "tv" then Err(InvalidQueue) else if HexId(t) then Ok(Tv(Some(t))) else Err(InvalidTv)
    case (None, Some(_)) => Err(InvalidQueue)
  }

  /** `Lane::key`. */
  function StoreKey(lane: Lane, library: string): string {
    match lane
    case Library => "q:" + library
    case Tv(None) => "t:" + library
    case Tv(Some(tv)) => "t:" + library + ":" + tv
  }

  /** `Lane::hold`. */
  function HoldKey(lane: Lane, library: string): string {
    match lane
    case Library => library
    case Tv(None) => "tv:" + library
    case Tv(Some(tv)) => "tv:" + library + ":" + tv
  }

  predicate Named(lane: Lane, library: string) {
    LibraryId(library) && (lane.Tv? && lane.tv.Some? ==> HexId(lane.tv.value))
  }

  lemma SplitAt(a: string, b: string, c: string, d: string)
    requires a + b == c + d && |a| == |c|
    ensures a == c && b == d
  {
    assert a == (a + b)[..|a|] && c == (c + d)[..|c|];
    assert b == (a + b)[|a|..] && d == (c + d)[|c|..];
  }

  /** Two queues share neither their file nor what their drains wait on. */
  lemma KeysAreApart(lane: Lane, library: string, lane': Lane, library': string)
    requires Named(lane, library) && Named(lane', library')
    ensures StoreKey(lane, library) == StoreKey(lane', library') ==> lane == lane' && library == library'
    ensures HoldKey(lane, library) == HoldKey(lane', library') ==> lane == lane' && library == library'
  {
    if StoreKey(lane, library) == StoreKey(lane', library') {
      assert StoreKey(lane, library)[0] == StoreKey(lane', library')[0];
      KeyTail("q:", "t:", lane, library, lane', library');
    }
    if HoldKey(lane, library) == HoldKey(lane', library') {
      assert HoldKey(lane, library)[0] == HoldKey(lane', library')[0];
      KeyTail("", "tv:", lane, library, lane', library');
    }
  }

  /** So two requests reach the same queue exactly when they name the same lane of the same library. */
  lemma RequestsApart(queue: Option<string>, tv: Option<string>, library: string,
                      queue': Option<string>, tv': Option<string>, library': string)
    requires Parse(queue, tv).Ok? && Parse(queue', tv').Ok? && LibraryId(library) && LibraryId(library')
    ensures StoreKey(Parse(queue, tv).value, library) == StoreKey(Parse(queue', tv').value, library')
            <==> Parse(queue, tv) == Parse(queue', tv') && library == library'
  {
    KeysAreApart(Parse(queue, tv).value, library, Parse(queue', tv').value, library');
  }

  /** Which requests reach which lane, and which refusal the others get. */
  lemma LaneOf(queue: Option<string>, tv: Option<string>)
    ensures Parse(queue, tv) == Ok(Library) <==> tv.None? && (queue.None? || queue == Some("library"))
    ensures Parse(queue, tv) == Ok(Tv(None)) <==> tv.None? && queue == Some("tv")
    ensures forall t :: Parse(queue, tv) == Ok(Tv(Some(t))) <==> tv == Some(t) && HexId(t) && queue == Some("tv")
    ensures Parse(queue, tv) == Err(InvalidTv) <==> tv.Some? && !HexId(tv.value) && queue == Some("tv")
  {
    hide HexId;
  }

  function KeyWith(lib: string, tv: string, lane: Lane, library: string): string {
    if lane.Library? then lib + library
    else if lane.tv.None? then tv + library
    else tv + library + ":" + lane.tv.value
  }

  lemma KeyTail(lib: string, tv: string, lane: Lane, library: string, lane': Lane, library': string)
    requires Named(lane, library) && Named(lane', library')
    requires KeyWith(lib, tv, lane, library) == KeyWith(lib, tv, lane', library')
    requires lane.Library? <==> lane'.Library?
    ensures lane == lane' && library == library'
  {
    if lane.Library? {
      SplitAt(lib, library, lib, library');
    } else {
      ColonApart(tv, lane, library);
      ColonApart(tv, lane', library');
      var rest := if lane.tv.None? then "" else ":" + lane.tv.value;
      var rest' := if lane'.tv.None? then "" else ":" + lane'.tv.value;
      assert KeyWith(lib, tv, lane, library) == (tv + library) + rest;
      assert KeyWith(lib, tv, lane', library') == (tv + library') + rest';
      SplitAt(tv + library, rest, tv + library', rest');
      SplitAt(tv, library, tv, library');
      if lane.tv.Some? { assert lane.tv.value == rest[1..]; }
    }
  }

  predicate ColonFrom(key: string, i: nat) {
    exists j :: i <= j < |key| && key[j] == ':'
  }

  /** A library's id has no colon, so a key with a lane id is none without. */
  lemma ColonApart(tv: string, lane: Lane, library: string)
    requires Named(lane, library) && lane.Tv?
    ensures ColonFrom(KeyWith("", tv, lane, library), |tv|) <==> lane.tv.Some?
  {
    var key := KeyWith("", tv, lane, library);
    if lane.tv.Some? {
      assert key[|tv| + |library|] == ':';
    } else {
      forall j | |tv| <= j < |key| ensures key[j] != ':' { assert key[j] == library[j - |tv|]; }
    }
  }

  // ---- loading, appending, acknowledging

  function SaturatingAdd(a: nat, b: nat): nat {
    if a + b >= U64_LIMIT then U64_LIMIT - 1 else a + b
  }

  predicate Fresh(receivedAt: nat, ttl: nat, now: nat) {
    SaturatingAdd(receivedAt, ttl) > now
  }

  function FreshEntries(messages: seq<Entry>, ttl: nat, now: nat): seq<Entry> {
    if messages == [] then []
    else
      var rest, m := FreshEntries(messages[..|messages| - 1], ttl, now), messages[|messages| - 1];
      if Fresh(m.receivedAt, ttl, now) then rest + [m] else rest
  }

  function FreshTaken(taken: seq<Taken>, ttl: nat, now: nat): seq<Taken> {
    if taken == [] then []
    else
      var rest, t := FreshTaken(taken[..|taken| - 1], ttl, now), taken[|taken| - 1];
      if Fresh(t.receivedAt, ttl, now) then rest + [t] else rest
  }

  /** `load_queue`. */
  function Load(stored: Option<Queue>, ttl: nat, now: nat): Queue {
    var q := if stored.Some? then stored.value else Queue(1, [], []);
    Queue(if q.next > 1 then q.next else 1, FreshEntries(q.messages, ttl, now), FreshTaken(q.taken, ttl, now))
  }

  /** The locked part of `append`: the queue that is saved, or none when it is full. */
  function Appended(stored: Option<Queue>, lane: Lane, now: nat, sealed: string): Option<Queue> {
    var q := Load(stored, Ttl(lane), now);
    if |q.messages| >= Max(lane) then None
    else Some(q.(next := q.next + 1, messages := q.messages + [Entry(q.next, sealed, now)]))
  }

  function UpTo(messages: seq<Entry>, upTo: nat): seq<Entry> {
    if messages == [] then []
    else
      var rest, m := UpTo(messages[..|messages| - 1], upTo), messages[|messages| - 1];
      if m.n <= upTo then rest + [m] else rest
  }

  function Past(messages: seq<Entry>, upTo: nat): seq<Entry> {
    if messages == [] then []
    else
      var rest, m := Past(messages[..|messages| - 1], upTo), messages[|messages| - 1];
      if m.n <= upTo then rest else rest + [m]
  }

  function AsTaken(messages: seq<Entry>): (t: seq<Taken>)
    ensures |t| == |messages|
  {
    seq(|messages|, i requires 0 <= i < |messages| => Taken(messages[i].n, messages[i].receivedAt))
  }

  /** The locked part of `ack`: nothing is saved when nothing was removed. */
  function Acked(stored: Option<Queue>, lane: Lane, now: nat, upTo: nat): Option<Queue> {
    var q := Load(stored, Ttl(lane), now);
    var gone := UpTo(q.messages, upTo);
    if gone == [] then stored
    else Some(Queue(q.next, Past(q.messages, upTo), q.taken + AsTaken(gone)))
  }

  datatype Reported = Queued | WasTaken | Unknown

  predicate Has(messages: seq<Entry>, n: nat) {
    exists i :: 0 <= i < |messages| && messages[i].n == n
  }

  predicate HasTaken(taken: seq<Taken>, n: nat) {
    exists i :: 0 <= i < |taken| && taken[i].n == n
  }

  /** `get_request`. */
  function Report(stored: Option<Queue>, lane: Lane, now: nat, n: nat): Reported {
    var q := Load(stored, Ttl(lane), now);
    if Has(q.messages, n) then Queued
    else if HasTaken(q.taken, n) then WasTaken
    else Unknown
  }

  // ---- the history a queue stands for

  datatype Issued = Issued(sealed: string, at: nat)

  /** Everything ever appended, and how many of them, from the first, were acknowledged. */
  datatype World = World(stored: Option<Queue>, now: nat, issued: seq<Issued>, acked: nat)

  const NEW := World(None, 0, [], 0)

  /** The requests numbered `lo + 1` to `hi` that are still fresh, oldest first. */
  function Waiting(issued: seq<Issued>, lo: nat, hi: nat, ttl: nat, now: nat): seq<Entry>
    requires lo <= hi <= |issued|
  {
    if lo == hi then []
    else
      var rest, m := Waiting(issued, lo, hi - 1, ttl, now), issued[hi - 1];
      if Fresh(m.at, ttl, now) then rest + [Entry(hi, m.sealed, m.at)] else rest
  }

  /** At every time from now on, a load gives back exactly the unacknowledged and the acknowledged fresh requests. */
  ghost predicate Stands(w: World, lane: Lane) {
    && w.acked <= |w.issued|
    && forall t :: t >= w.now ==> StandsAt(w, lane, t)
  }

  ghost predicate StandsAt(w: World, lane: Lane, t: nat)
    requires w.acked <= |w.issued|
  {
    var q := Load(w.stored, Ttl(lane), t);
    && q.next == |w.issued| + 1
    && q.messages == Waiting(w.issued, w.acked, |w.issued|, Ttl(lane), t)
    && q.taken == AsTaken(Waiting(w.issued, 0, w.acked, Ttl(lane), t))
  }

  datatype Step = Append(sealed: string) | Ack(upTo: nat) | Tick(to: nat)

  function Lesser(a: nat, b: nat): nat { if a < b then a else b }
  function Greater(a: nat, b: nat): nat { if a < b then b else a }

  /** One step; a clock that never goes back. The history is kept by the rule, not read from the queue. */
  function Next(w: World, lane: Lane, step: Step): World {
    match step
    case Append(sealed) =>
      var stored := Appended(w.stored, lane, w.now, sealed);
      if stored.None? then w else World(stored, w.now, w.issued + [Issued(sealed, w.now)], w.acked)
    case Ack(upTo) =>
      World(Acked(w.stored, lane, w.now, upTo), w.now, w.issued, Greater(w.acked, Lesser(upTo, |w.issued|)))
    case Tick(to) => w.(now := Greater(w.now, to))
  }

  function After(lane: Lane, steps: seq<Step>): World {
    if steps == [] then NEW else Next(After(lane, steps[..|steps| - 1]), lane, steps[|steps| - 1])
  }

  // ---- filters

  lemma {:induction false} WaitingLonger(issued: seq<Issued>, more: seq<Issued>, lo: nat, hi: nat, ttl: nat, now: nat)
    requires lo <= hi <= |issued|
    ensures Waiting(issued + more, lo, hi, ttl, now) == Waiting(issued, lo, hi, ttl, now)
  {
    if lo < hi { WaitingLonger(issued, more, lo, hi - 1, ttl, now); }
  }

  lemma {:induction false} WaitingSplit(issued: seq<Issued>, lo: nat, mid: nat, hi: nat, ttl: nat, now: nat)
    requires lo <= mid <= hi <= |issued|
    ensures Waiting(issued, lo, hi, ttl, now)
         == Waiting(issued, lo, mid, ttl, now) + Waiting(issued, mid, hi, ttl, now)
  {
    if mid < hi { WaitingSplit(issued, lo, mid, hi - 1, ttl, now); }
  }

  lemma {:induction false} FreshConcat(a: seq<Entry>, b: seq<Entry>, ttl: nat, now: nat)
    ensures FreshEntries(a + b, ttl, now) == FreshEntries(a, ttl, now) + FreshEntries(b, ttl, now)
  {
    if b == [] {
      assert a + b == a;
    } else {
      FreshConcat(a, b[..|b| - 1], ttl, now);
      assert (a + b)[..|a + b| - 1] == a + b[..|b| - 1];
    }
  }

  /** What was fresh earlier, filtered again, is what is fresh now. */
  lemma {:induction false} FreshLater(issued: seq<Issued>, lo: nat, hi: nat, ttl: nat, t0: nat, t: nat)
    requires lo <= hi <= |issued| && t0 <= t
    ensures FreshEntries(Waiting(issued, lo, hi, ttl, t0), ttl, t) == Waiting(issued, lo, hi, ttl, t)
  {
    if lo < hi {
      FreshLater(issued, lo, hi - 1, ttl, t0, t);
      var rest, m := Waiting(issued, lo, hi - 1, ttl, t0), Entry(hi, issued[hi - 1].sealed, issued[hi - 1].at);
      assert (rest + [m])[..|rest|] == rest;
    }
  }

  lemma {:induction false} FreshTakenOf(messages: seq<Entry>, ttl: nat, now: nat)
    ensures FreshTaken(AsTaken(messages), ttl, now) == AsTaken(FreshEntries(messages, ttl, now))
  {
    if messages != [] {
      var init := messages[..|messages| - 1];
      FreshTakenOf(init, ttl, now);
      assert AsTaken(messages)[..|messages| - 1] == AsTaken(init);
    }
  }

  lemma {:induction false} Partition(issued: seq<Issued>, lo: nat, hi: nat, ttl: nat, now: nat, upTo: nat)
    requires lo <= hi <= |issued|
    ensures var cut := Greater(lo, Lesser(upTo, hi));
            && UpTo(Waiting(issued, lo, hi, ttl, now), upTo) == Waiting(issued, lo, cut, ttl, now)
            && Past(Waiting(issued, lo, hi, ttl, now), upTo) == Waiting(issued, cut, hi, ttl, now)
  {
    hide Fresh;
    if lo < hi {
      Partition(issued, lo, hi - 1, ttl, now, upTo);
      var rest, m := Waiting(issued, lo, hi - 1, ttl, now), Entry(hi, issued[hi - 1].sealed, issued[hi - 1].at);
      PartitionSnoc(rest, m, upTo);
      var cut, cut' := Greater(lo, Lesser(upTo, hi - 1)), Greater(lo, Lesser(upTo, hi));
      assert cut' == if hi <= upTo then hi else cut;
      assert hi <= upTo ==> cut == hi - 1;
    }
  }

  lemma PartitionSnoc(rest: seq<Entry>, m: Entry, upTo: nat)
    ensures UpTo(rest + [m], upTo) == if m.n <= upTo then UpTo(rest, upTo) + [m] else UpTo(rest, upTo)
    ensures Past(rest + [m], upTo) == if m.n <= upTo then Past(rest, upTo) else Past(rest, upTo) + [m]
  {
    assert (rest + [m])[..|rest|] == rest;
  }

  // ---- every step keeps the meaning

  lemma AppendStands(w: World, lane: Lane, sealed: string)
    requires Stands(w, lane)
    ensures Stands(Next(w, lane, Append(sealed)), lane)
  {
    var w' := Next(w, lane, Append(sealed));
    if w' != w {
      forall t | t >= w'.now ensures StandsAt(w', lane, t) { AppendStandsAt(w, lane, sealed, t); }
    }
  }

  lemma AppendStandsAt(w: World, lane: Lane, sealed: string, t: nat)
    requires Stands(w, lane) && t >= w.now
    requires Appended(w.stored, lane, w.now, sealed).Some?
    ensures StandsAt(Next(w, lane, Append(sealed)), lane, t)
  {
    hide Waiting, FreshEntries, FreshTaken, Fresh, AsTaken;
    var ttl, n := Ttl(lane), |w.issued|;
    var m := Issued(sealed, w.now);
    assert StandsAt(w, lane, w.now);
    WaitingSnoc(w.issued, m, w.acked, ttl, t);
    FreshConcat(Waiting(w.issued, w.acked, n, ttl, w.now), [Entry(n + 1, sealed, w.now)], ttl, t);
    FreshLater(w.issued, w.acked, n, ttl, w.now, t);
    FreshOne(Entry(n + 1, sealed, w.now), ttl, t);
    WaitingLonger(w.issued, [m], 0, w.acked, ttl, t);
    FreshTakenOf(Waiting(w.issued, 0, w.acked, ttl, w.now), ttl, t);
    FreshLater(w.issued, 0, w.acked, ttl, w.now, t);
  }

  lemma WaitingSnoc(issued: seq<Issued>, m: Issued, lo: nat, ttl: nat, now: nat)
    requires lo <= |issued|
    ensures Waiting(issued + [m], lo, |issued| + 1, ttl, now)
         == Waiting(issued, lo, |issued|, ttl, now)
            + (if Fresh(m.at, ttl, now) then [Entry(|issued| + 1, m.sealed, m.at)] else [])
  {
    WaitingLonger(issued, [m], lo, |issued|, ttl, now);
  }

  lemma FreshOne(m: Entry, ttl: nat, now: nat)
    ensures FreshEntries([m], ttl, now) == if Fresh(m.receivedAt, ttl, now) then [m] else []
  {
    assert [m][..0] == [];
  }

  lemma AckStandsAt(w: World, lane: Lane, upTo: nat, t: nat)
    requires Stands(w, lane) && t >= w.now
    ensures Next(w, lane, Ack(upTo)).acked <= |w.issued| && StandsAt(Next(w, lane, Ack(upTo)), lane, t)
  {
    hide Waiting;
    var ttl, n, now := Ttl(lane), |w.issued|, w.now;
    var cut := Greater(w.acked, Lesser(upTo, n));
    assert StandsAt(w, lane, now) && StandsAt(w, lane, t);
    Partition(w.issued, w.acked, n, ttl, now, upTo);
    WaitingSplit(w.issued, 0, w.acked, cut, ttl, now);
    FreshLater(w.issued, w.acked, cut, ttl, now, t);
    FreshLater(w.issued, cut, n, ttl, now, t);
    FreshLater(w.issued, 0, cut, ttl, now, t);
    if Waiting(w.issued, w.acked, cut, ttl, now) == [] {
      WaitingSplit(w.issued, w.acked, cut, n, ttl, t);
      WaitingSplit(w.issued, 0, w.acked, cut, ttl, t);
    } else {
      var earlier, gone := Waiting(w.issued, 0, w.acked, ttl, now), Waiting(w.issued, w.acked, cut, ttl, now);
      assert AsTaken(earlier) + AsTaken(gone) == AsTaken(earlier + gone);
      FreshTakenOf(earlier + gone, ttl, t);
    }
  }

  lemma NextStands(w: World, lane: Lane, step: Step)
    requires Stands(w, lane)
    ensures Stands(Next(w, lane, step), lane)
  {
    match step
    case Append(sealed) => AppendStands(w, lane, sealed);
    case Ack(upTo) =>
      AckStandsAt(w, lane, upTo, w.now);
      forall t | t >= w.now ensures StandsAt(Next(w, lane, step), lane, t) { AckStandsAt(w, lane, upTo, t); }
    case Tick(to) =>
      var w' := Next(w, lane, step);
      forall t | t >= w'.now ensures StandsAt(w', lane, t) { assert StandsAt(w, lane, t); }
  }

  lemma {:induction false} AlwaysStands(lane: Lane, steps: seq<Step>)
    ensures Stands(After(lane, steps), lane)
  {
    if steps == [] {
      forall t ensures StandsAt(NEW, lane, t) {}
    } else {
      AlwaysStands(lane, steps[..|steps| - 1]);
      NextStands(After(lane, steps[..|steps| - 1]), lane, steps[|steps| - 1]);
    }
  }

  // ---- what it all means for a caller

  /** What is known of request `n` without looking at the queue. */
  function Fate(w: World, lane: Lane, n: nat): Reported {
    if n == 0 || n > |w.issued| || !Fresh(w.issued[n - 1].at, Ttl(lane), w.now) then Unknown
    else if n <= w.acked then WasTaken
    else Queued
  }

  lemma {:induction false} WaitingHas(issued: seq<Issued>, lo: nat, hi: nat, ttl: nat, now: nat, n: nat)
    requires lo <= hi <= |issued|
    ensures Has(Waiting(issued, lo, hi, ttl, now), n) <==> lo < n <= hi && Fresh(issued[n - 1].at, ttl, now)
  {
    if lo < hi {
      WaitingHas(issued, lo, hi - 1, ttl, now, n);
      HasSnoc(Waiting(issued, lo, hi - 1, ttl, now), Entry(hi, issued[hi - 1].sealed, issued[hi - 1].at), n);
    }
  }

  lemma HasSnoc(messages: seq<Entry>, m: Entry, n: nat)
    ensures Has(messages + [m], n) <==> Has(messages, n) || m.n == n
  {
    var all := messages + [m];
    if i :| 0 <= i < |messages| && messages[i].n == n { assert all[i].n == n; }
    if m.n == n { assert all[|messages|].n == n; }
  }

  /** Every number ever issued is reported as exactly one of queued, taken or gone, by its history alone. */
  lemma ReportIsFate(lane: Lane, steps: seq<Step>, n: nat)
    ensures var w := After(lane, steps); Report(w.stored, lane, w.now, n) == Fate(w, lane, n)
  {
    hide Waiting, Fresh, Load, After, Has, HasTaken;
    var w := After(lane, steps);
    AlwaysStands(lane, steps);
    assert StandsAt(w, lane, w.now);
    WaitingHas(w.issued, w.acked, |w.issued|, Ttl(lane), w.now, n);
    WaitingHas(w.issued, 0, w.acked, Ttl(lane), w.now, n);
    TakenHas(Waiting(w.issued, 0, w.acked, Ttl(lane), w.now), n);
  }

  lemma TakenHas(messages: seq<Entry>, n: nat)
    ensures HasTaken(AsTaken(messages), n) <==> Has(messages, n)
  {
    if i :| 0 <= i < |messages| && messages[i].n == n { assert AsTaken(messages)[i].n == n; }
    if i :| 0 <= i < |AsTaken(messages)| && AsTaken(messages)[i].n == n { assert messages[i].n == n; }
  }

  function Rank(r: Reported): nat {
    match r case Queued => 0 case WasTaken => 1 case Unknown => 2
  }

  /** Once issued, a request's state only moves on: queued, then taken, then unknown, whatever happens. */
  lemma {:induction false} FateOnlyMovesOn(lane: Lane, steps: seq<Step>, later: seq<Step>, n: nat)
    requires 1 <= n <= |After(lane, steps).issued|
    ensures n <= |After(lane, steps + later).issued|
    ensures Rank(Fate(After(lane, steps), lane, n)) <= Rank(Fate(After(lane, steps + later), lane, n))
  {
    hide Next, Fate;
    if later == [] {
      assert steps + later == steps;
    } else {
      var init := later[..|later| - 1];
      FateOnlyMovesOn(lane, steps, init, n);
      assert (steps + later)[..|steps + later| - 1] == steps + init;
      FateStep(After(lane, steps + init), lane, later[|later| - 1], n);
    }
  }

  lemma FateStep(w: World, lane: Lane, step: Step, n: nat)
    requires 1 <= n <= |w.issued|
    ensures n <= |Next(w, lane, step).issued| && Rank(Fate(w, lane, n)) <= Rank(Fate(Next(w, lane, step), lane, n))
  {
    hide Appended, Acked;
  }

  ghost predicate Ascending(messages: seq<Entry>) {
    forall i, j :: 0 <= i < j < |messages| ==> messages[i].n < messages[j].n
  }

  lemma {:induction false} WaitingAscends(issued: seq<Issued>, lo: nat, hi: nat, ttl: nat, now: nat)
    requires lo <= hi <= |issued|
    ensures Ascending(Waiting(issued, lo, hi, ttl, now))
    ensures forall i :: 0 <= i < |Waiting(issued, lo, hi, ttl, now)|
                        ==> lo < Waiting(issued, lo, hi, ttl, now)[i].n <= hi
  {
    if lo < hi { WaitingAscends(issued, lo, hi - 1, ttl, now); }
  }

  /**
    A drain answers exactly the requests that are neither acknowledged nor expired, oldest first, and the next
    number is one never issued before.
   */
  lemma DrainIsExact(lane: Lane, steps: seq<Step>)
    ensures var w := After(lane, steps);
            var q := Load(w.stored, Ttl(lane), w.now);
            && w.acked <= |w.issued|
            && q.messages == Waiting(w.issued, w.acked, |w.issued|, Ttl(lane), w.now)
            && Ascending(q.messages)
            && (forall i :: 0 <= i < |q.messages| ==> q.messages[i].n < q.next)
            && q.next == |w.issued| + 1
  {
    hide Waiting, Fresh, Load, After;
    var w := After(lane, steps);
    AlwaysStands(lane, steps);
    assert StandsAt(w, lane, w.now);
    WaitingAscends(w.issued, w.acked, |w.issued|, Ttl(lane), w.now);
  }

  /** Two acknowledgements, one after the other, do what the larger alone does; so one repeated does nothing more. */
  lemma AcksCompose(lane: Lane, steps: seq<Step>, a: nat, b: nat)
    ensures var w := After(lane, steps);
            var twice, once := Next(Next(w, lane, Ack(a)), lane, Ack(b)), Next(w, lane, Ack(Greater(a, b)));
            && twice.acked == once.acked
            && forall t :: t >= w.now ==> Load(twice.stored, Ttl(lane), t) == Load(once.stored, Ttl(lane), t)
  {
    hide Waiting, Fresh, Load, After, Acked;
    var w := After(lane, steps);
    AlwaysStands(lane, steps);
    NextStands(w, lane, Ack(a));
    NextStands(Next(w, lane, Ack(a)), lane, Ack(b));
    NextStands(w, lane, Ack(Greater(a, b)));
    var twice, once := Next(Next(w, lane, Ack(a)), lane, Ack(b)), Next(w, lane, Ack(Greater(a, b)));
    forall t | t >= w.now ensures Load(twice.stored, Ttl(lane), t) == Load(once.stored, Ttl(lane), t) {
      assert StandsAt(twice, lane, t) && StandsAt(once, lane, t);
    }
  }

  /** An acknowledgement removes, and counts, exactly the requests waiting up to its number, and no acknowledged one. */
  lemma AckRemoves(lane: Lane, steps: seq<Step>, upTo: nat)
    ensures var w := After(lane, steps);
            var cut := Greater(w.acked, Lesser(upTo, |w.issued|));
            && w.acked <= cut <= |w.issued|
            && UpTo(Load(w.stored, Ttl(lane), w.now).messages, upTo)
               == Waiting(w.issued, w.acked, cut, Ttl(lane), w.now)
            && Load(Acked(w.stored, lane, w.now, upTo), Ttl(lane), w.now).messages
               == Waiting(w.issued, cut, |w.issued|, Ttl(lane), w.now)
  {
    hide Waiting, Fresh, After, UpTo, Load, Acked;
    var w := After(lane, steps);
    AlwaysStands(lane, steps);
    assert StandsAt(w, lane, w.now);
    Partition(w.issued, w.acked, |w.issued|, Ttl(lane), w.now, upTo);
    NextStands(w, lane, Ack(upTo));
    assert StandsAt(Next(w, lane, Ack(upTo)), lane, w.now);
  }

  /**
    An append is refused exactly when the lane is full of requests still waiting; nothing waiting is dropped for it.
   */
  lemma FullIsFull(lane: Lane, steps: seq<Step>, sealed: string)
    ensures var w := After(lane, steps);
            && w.acked <= |w.issued|
            && (Appended(w.stored, lane, w.now, sealed).None? <==>
                  |Waiting(w.issued, w.acked, |w.issued|, Ttl(lane), w.now)| >= Max(lane))
            && |Load(w.stored, Ttl(lane), w.now).messages| <= Max(lane)
  {
    hide Waiting, Fresh, Load, After;
    var w := After(lane, steps);
    AlwaysStands(lane, steps);
    assert StandsAt(w, lane, w.now);
    NeverOverfull(lane, steps);
  }

  lemma {:induction false} NeverOverfull(lane: Lane, steps: seq<Step>)
    ensures After(lane, steps).stored.Some? ==> |After(lane, steps).stored.value.messages| <= Max(lane)
    ensures |Load(After(lane, steps).stored, Ttl(lane), After(lane, steps).now).messages| <= Max(lane)
  {
    if steps != [] {
      var w, step := After(lane, steps[..|steps| - 1]), steps[|steps| - 1];
      NeverOverfull(lane, steps[..|steps| - 1]);
      var w' := Next(w, lane, step);
      if w.stored.Some? { FreshFewer(w.stored.value.messages, Ttl(lane), w.now); }
      PastFewer(Load(w.stored, Ttl(lane), w.now).messages, if step.Ack? then step.upTo else 0);
      if w'.stored.Some? { FreshFewer(w'.stored.value.messages, Ttl(lane), w'.now); }
    }
  }

  lemma {:induction false} FreshFewer(messages: seq<Entry>, ttl: nat, now: nat)
    ensures |FreshEntries(messages, ttl, now)| <= |messages|
  {
    if messages != [] { FreshFewer(messages[..|messages| - 1], ttl, now); }
  }

  lemma {:induction false} PastFewer(messages: seq<Entry>, upTo: nat)
    ensures |Past(messages, upTo)| <= |messages|
  {
    if messages != [] { PastFewer(messages[..|messages| - 1], upTo); }
  }
}

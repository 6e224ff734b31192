/**
  Admission lanes: two fair semaphores, 64 request permits of which bulk requests may hold at most 48. A bulk request
  takes its bulk permit first, a held request gives its admission back while it waits and takes it again, and a response
  body keeps it until its last frame. Requests step in any order and may be dropped anywhere.
 */
module Admission {
  import opened Counting

  const REQUESTS: nat := 64
  const BULK_REQUESTS: nat := 48

  /** Where a request is. */
  datatype Phase =
    | NeedBulk      // about to try for a bulk permit
    | WantBulk      // queued for one
    | NeedRequest   // about to try for a request permit, with its bulk permit if it is bulk
    | WantRequest   // queued for one
    | InHandler     // admitted, the admission in its slot
    | Waiting       // held, with its admission given back
    | Bare          // in its handler without an admission, having been refused
    | InBody        // admitted, the admission in its response body
    | Spent         // in its response body without an admission

  /** A request, with the permits of each semaphore it has taken and not given back. */
  datatype Request = Request(bulk: bool, phase: Phase, permits: nat, bulkPermits: nat)

  datatype State = State(
    free: nat, queue: seq<nat>,           // the request semaphore
    bulkFree: nat, bulkQueue: seq<nat>,   // the bulk semaphore
    requests: map<nat, Request>)

  const INITIAL := State(REQUESTS, [], BULK_REQUESTS, [], map[])

  /** There is an admission in the request's slot or in its body. */
  predicate Admitted(q: Request) {
    q.phase.InHandler? || q.phase.InBody?
  }

  /** A bulk permit is in that admission, or in the hands of the `admit` that is under way. */
  predicate PastBulk(q: Request) {
    q.bulk && (q.phase.NeedRequest? || q.phase.WantRequest? || Admitted(q))
  }

  function One(b: bool): nat {
    if b then 1 else 0
  }

  function Less(n: nat, b: bool): nat {
    if b && n > 0 then n - 1 else n
  }

  datatype Event =
    | Arrive(r: nat, bulk: bool)
    | TryPermit(r: nat)
    | TimeOut(r: nat)
    | WaitOut(r: nat)
    | Retake(r: nat)
    | Answer(r: nat)
    | EndBody(r: nat)
    | Drop(r: nat)

  // ---- the semaphores

  function With(s: State, r: nat, q: Request): State {
    s.(requests := s.requests[r := q])
  }

  function Taking(q: Request): Request {
    q.(phase := InHandler, permits := q.permits + 1)
  }

  function TakingBulk(q: Request): Request {
    q.(phase := NeedRequest, bulkPermits := q.bulkPermits + 1)
  }

  predicate QueuesNamed(s: State) {
    (forall r :: r in s.queue ==> r in s.requests) && (forall r :: r in s.bulkQueue ==> r in s.requests)
  }

  /** A request permit comes back: to the first in the queue, or to the semaphore. */
  function GiveRequest(s: State): (s': State)
    requires QueuesNamed(s)
    ensures QueuesNamed(s')
  {
    if s.queue == [] then s.(free := s.free + 1)
    else With(s, s.queue[0], Taking(s.requests[s.queue[0]])).(queue := s.queue[1..])
  }

  /** A bulk permit comes back: to the first in the queue, which goes on to the request permit. */
  function GiveBulk(s: State): (s': State)
    requires QueuesNamed(s)
    ensures QueuesNamed(s')
  {
    if s.bulkQueue == [] then s.(bulkFree := s.bulkFree + 1)
    else With(s, s.bulkQueue[0], TakingBulk(s.requests[s.bulkQueue[0]])).(bulkQueue := s.bulkQueue[1..])
  }

  function Without(queue: seq<nat>, r: nat): (rest: seq<nat>)
    ensures forall x :: x in rest <==> x in queue && x != r
    ensures Distinct(queue) ==> Distinct(rest)
  {
    if queue == [] then []
    else if queue[0] == r then Without(queue[1..], r)
    else
      var rest := Without(queue[1..], r);
      assert forall x :: x in [queue[0]] + rest <==> x == queue[0] || x in rest;
      assert forall x :: x in queue <==> x == queue[0] || x in queue[1..];
      assert Distinct(queue)
          ==> queue[0] !in queue[1..] && Distinct(queue[1..]) by { if Distinct(queue) { DistinctTail(queue); } }
      assert Distinct(rest) && queue[0] !in rest ==> Distinct([queue[0]] + rest);
      [queue[0]] + rest
  }

  predicate Distinct(queue: seq<nat>) {
    forall i, j :: 0 <= i < j < |queue| ==> queue[i] != queue[j]
  }

  lemma DistinctTail(queue: seq<nat>)
    requires queue != [] && Distinct(queue)
    ensures Distinct(queue[1..]) && queue[0] !in queue[1..]
  {
  }

  // ---- the steps

  /** Try for the permit that comes next, or queue for it. */
  function Tried(s: State, r: nat): State
    requires r in s.requests
  {
    var q := s.requests[r];
    if q.phase.NeedBulk? then
      (if s.bulkFree > 0 then With(s, r, TakingBulk(q)).(bulkFree := s.bulkFree - 1)
       else With(s, r, q.(phase := WantBulk)).(bulkQueue := s.bulkQueue + [r]))
    else
      (if s.free > 0 then With(s, r, Taking(q)).(free := s.free - 1)
       else With(s, r, q.(phase := WantRequest)).(queue := s.queue + [r]))
  }

  /** What dropping its admission, or an `admit` under way, takes from a request. */
  function Emptied(q: Request, p: Phase): Request {
    q.(phase := p, permits := Less(q.permits, Admitted(q)), bulkPermits := Less(q.bulkPermits, PastBulk(q)))
  }

  function Vacated(s: State, r: nat, p: Phase): (s': State)
    requires r in s.requests && QueuesNamed(s)
    ensures QueuesNamed(s')
  {
    With(s, r, Emptied(s.requests[r], p)).(queue := Without(s.queue, r), bulkQueue := Without(s.bulkQueue, r))
  }

  /** The request goes to a phase in which it holds nothing and stands in no queue; what it held goes back. */
  function Released(s: State, r: nat, p: Phase): State
    requires r in s.requests && QueuesNamed(s)
  {
    var q := s.requests[r];
    var s1 := Vacated(s, r, p);
    var s2 := if Admitted(q) then GiveRequest(s1) else s1;
    if PastBulk(q) then GiveBulk(s2) else s2
  }

  predicate Enabled(s: State, e: Event) {
    QueuesNamed(s)
    && match e
       case Arrive(r, _) => r !in s.requests
       case TryPermit(r) => r in s.requests && (s.requests[r].phase.NeedBulk? || s.requests[r].phase.NeedRequest?)
       case TimeOut(r) => r in s.requests && (s.requests[r].phase.WantBulk? || s.requests[r].phase.WantRequest?)
       case WaitOut(r) => r in s.requests && (s.requests[r].phase.InHandler? || s.requests[r].phase.Bare?)
       case Retake(r) => r in s.requests && s.requests[r].phase.Waiting?
       case Answer(r) => r in s.requests && (s.requests[r].phase.InHandler? || s.requests[r].phase.Bare?)
       case EndBody(r) => r in s.requests && (s.requests[r].phase.InBody? || s.requests[r].phase.Spent?)
       case Drop(r) => r in s.requests
  }

  function First(bulk: bool): Phase {
    if bulk then NeedBulk else NeedRequest
  }

  function Next(s: State, e: Event): State
    requires Enabled(s, e)
  {
    match e
    case Arrive(r, bulk) => s.(requests := s.requests[r := Request(bulk, First(bulk), 0, 0)])
    case TryPermit(r) => Tried(s, r)
    case TimeOut(r) => Released(s, r, Bare)
    case WaitOut(r) => Released(s, r, Waiting)
    case Retake(r) => With(s, r, s.requests[r].(phase := First(s.requests[r].bulk)))
    case Answer(r) => With(s, r, s.requests[r].(phase := if s.requests[r].phase.InHandler? then InBody else Spent))
    case EndBody(r) => Released(s, r, Spent)
    case Drop(r) =>
      var s1 := Released(s, r, Spent);
      s1.(requests := s1.requests - {r})
  }

  // ---- conservation

  function Holders(requests: map<nat, Request>): set<nat> {
    set r | r in requests && requests[r].permits > 0
  }

  function BulkHolders(requests: map<nat, Request>): set<nat> {
    set r | r in requests && requests[r].bulkPermits > 0
  }

  /** Every permit is held by one request or free, and permits are free only while nobody queues for them. */
  predicate Conserved(s: State) {
    && |Holders(s.requests)| + s.free == REQUESTS
    && |BulkHolders(s.requests)| + s.bulkFree == BULK_REQUESTS
    && (s.queue != [] ==> s.free == 0)
    && (s.bulkQueue != [] ==> s.bulkFree == 0)
  }

  /** The queues hold exactly the requests that wait in them, once each. */
  ghost predicate Queued(s: State) {
    && Distinct(s.queue) && Distinct(s.bulkQueue)
    && (forall r :: r in s.queue <==> r in s.requests && s.requests[r].phase.WantRequest?)
    && (forall r :: r in s.bulkQueue <==> r in s.requests && s.requests[r].phase.WantBulk?)
    && (forall r :: r in s.requests && (s.requests[r].phase.NeedBulk? || s.requests[r].phase.WantBulk?)
                    ==> s.requests[r].bulk)
  }

  /** An admitted request holds one permit, and a bulk one past its first semaphore one of those; no other holds any. */
  predicate OneEach(q: Request) {
    q.permits == One(Admitted(q)) && q.bulkPermits == One(PastBulk(q))
  }

  predicate AllOneEach(requests: map<nat, Request>) {
    forall r :: r in requests ==> OneEach(requests[r])
  }

  ghost predicate Inv(s: State) {
    Conserved(s) && Queued(s) && AllOneEach(s.requests)
  }

  lemma QueuedNamed(s: State)
    requires Queued(s)
    ensures QueuesNamed(s)
  {
  }

  /** One request's change moves the two counts by what it then holds less what it held. */
  lemma Recount(requests: map<nat, Request>, r: nat, q: Request)
    ensures var requests' := requests[r := q];
            && |Holders(requests')| + One(r in requests
                && requests[r].permits > 0) == |Holders(requests)| + One(q.permits > 0)
            && |BulkHolders(requests')| + One(r in requests && requests[r].bulkPermits > 0)
               == |BulkHolders(requests)| + One(q.bulkPermits > 0)
  {
    var requests' := requests[r := q];
    Differ(Holders(requests), Holders(requests'), r);
    Differ(BulkHolders(requests), BulkHolders(requests'), r);
  }

  lemma Differ(a: set<nat>, b: set<nat>, r: nat)
    requires forall x :: x != r ==> (x in a <==> x in b)
    ensures |a| + One(r in b) == |b| + One(r in a)
  {
    assert a - {r} == b - {r};
    Apart(a, r);
    Apart(b, r);
  }

  lemma Apart(s: set<nat>, r: nat)
    ensures |s| == |s - {r}| + One(r in s)
  {
    if r in s { assert s == (s - {r}) + {r}; } else { assert s == s - {r}; }
  }

  lemma DistinctSnoc(queue: seq<nat>, r: nat)
    requires Distinct(queue) && r !in queue
    ensures Distinct(queue + [r]) && forall x :: x in queue + [r] <==> x in queue || x == r
  {
  }

  lemma TriedBulkInv(s: State, r: nat)
    requires Inv(s) && r in s.requests && s.requests[r].phase.NeedBulk?
    ensures Inv(Tried(s, r))
  {
    hide Holders, BulkHolders, Distinct;
    Recount(s.requests, r, Tried(s, r).requests[r]);
    assert OneEach(s.requests[r]);
    DistinctSnoc(s.bulkQueue, r);
  }

  lemma TriedInv(s: State, r: nat)
    requires Inv(s) && r in s.requests && (s.requests[r].phase.NeedBulk? || s.requests[r].phase.NeedRequest?)
    ensures Inv(Tried(s, r))
  {
    hide Holders, BulkHolders, Distinct;
    if s.requests[r].phase.NeedBulk? {
      TriedBulkInv(s, r);
    } else {
      Recount(s.requests, r, Tried(s, r).requests[r]);
      assert OneEach(s.requests[r]);
      DistinctSnoc(s.queue, r);
    }
  }

  /** What is left owed to the semaphores between taking a permit from its holder and giving it on. */
  predicate Owing(s: State, request: nat, bulk: nat) {
    && |Holders(s.requests)| + s.free + request == REQUESTS
    && |BulkHolders(s.requests)| + s.bulkFree + bulk == BULK_REQUESTS
    && (s.queue != [] ==> s.free == 0)
    && (s.bulkQueue != [] ==> s.bulkFree == 0)
  }

  /** The requests that do not wait in a queue are as they were. */
  predicate OthersKept(before: map<nat, Request>, after: map<nat, Request>) {
    && after.Keys == before.Keys
    && (forall r :: r in before && !before[r].phase.WantRequest? && !before[r].phase.WantBulk?
                    ==> after[r] == before[r])
  }

  lemma GiveRequestInv(s: State, bulk: nat)
    requires Owing(s, 1, bulk) && Queued(s) && AllOneEach(s.requests)
    ensures QueuesNamed(s) && Owing(GiveRequest(s), 0, bulk) && Queued(GiveRequest(s))
            && AllOneEach(GiveRequest(s).requests)
    ensures OthersKept(s.requests, GiveRequest(s).requests)
  {
    hide Holders, BulkHolders;
    if s.queue != [] {
      var r := s.queue[0];
      DistinctTail(s.queue);
      Recount(s.requests, r, Taking(s.requests[r]));
      assert forall x :: x in s.queue <==> x == r || x in s.queue[1..];
    }
  }

  lemma GiveBulkInv(s: State)
    requires Owing(s, 0, 1) && Queued(s) && AllOneEach(s.requests)
    ensures QueuesNamed(s) && Inv(GiveBulk(s)) && OthersKept(s.requests, GiveBulk(s).requests)
  {
    hide Holders, BulkHolders;
    if s.bulkQueue != [] {
      var r := s.bulkQueue[0];
      DistinctTail(s.bulkQueue);
      Recount(s.requests, r, TakingBulk(s.requests[r]));
      assert forall x :: x in s.bulkQueue <==> x == r || x in s.bulkQueue[1..];
    }
  }

  predicate Idle(p: Phase) {
    p.Bare? || p.Waiting? || p.Spent?
  }

  lemma VacatedInv(s: State, r: nat, p: Phase)
    requires Inv(s) && r in s.requests && Idle(p) && QueuesNamed(s)
    ensures Queued(Vacated(s, r, p)) && AllOneEach(Vacated(s, r, p).requests)
    ensures Owing(Vacated(s, r, p), One(Admitted(s.requests[r])), One(PastBulk(s.requests[r])))
    ensures Emptied(s.requests[r], p) == Request(s.requests[r].bulk, p, 0, 0)
  {
    hide Holders, BulkHolders, Distinct;
    Recount(s.requests, r, Emptied(s.requests[r], p));
    WithoutEmpty(s.queue, r);
    WithoutEmpty(s.bulkQueue, r);
  }

  lemma WithoutEmpty(queue: seq<nat>, r: nat)
    ensures Without(queue, r) != [] ==> queue != []
  {
  }

  /** Whatever it held, a released request holds nothing, and both semaphores are whole again. */
  lemma ReleasedInv(s: State, r: nat, p: Phase)
    requires Inv(s) && r in s.requests && Idle(p)
    ensures QueuesNamed(s) && Inv(Released(s, r, p)) && Released(s, r, p).requests.Keys == s.requests.Keys
    ensures Released(s, r, p).requests[r] == Request(s.requests[r].bulk, p, 0, 0)
  {
    QueuedNamed(s);
    VacatedInv(s, r, p);
    var q := s.requests[r];
    var s1 := Vacated(s, r, p);
    assert s1.requests.Keys == s.requests.Keys && s1.requests[r] == Emptied(q, p);
    var s2 := if Admitted(q) then GiveRequest(s1) else s1;
    var s3 := if PastBulk(q) then GiveBulk(s2) else s2;
    assert Released(s, r, p) == s3;
    hide Queued, Vacated, GiveRequest, GiveBulk, Released, Holders, BulkHolders, QueuesNamed;
    hide Admitted, PastBulk, Emptied, AllOneEach;
    if Admitted(q) { GiveRequestInv(s1, One(PastBulk(q))); }
    if PastBulk(q) { GiveBulkInv(s2); }
  }

  /** A step that takes and gives nothing, and touches no queue. */
  lemma PlacedInv(s: State, r: nat, q: Request)
    requires Inv(s) && OneEach(q) && !q.phase.WantRequest? && !q.phase.WantBulk? && (q.phase.NeedBulk? ==> q.bulk)
    requires r !in s.requests ==> q.permits == q.bulkPermits == 0
    requires r in s.requests ==> var was := s.requests[r];
               && !was.phase.WantRequest? && !was.phase.WantBulk?
               && was.permits == q.permits && was.bulkPermits == q.bulkPermits
    ensures Inv(With(s, r, q))
  {
    hide Holders, BulkHolders, Distinct;
    Recount(s.requests, r, q);
  }

  lemma StepInv(s: State, e: Event)
    requires Inv(s) && Enabled(s, e)
    ensures Inv(Next(s, e))
  {
    hide Conserved, Queued, Tried, Released;
    match e {
      case Arrive(r, bulk) => PlacedInv(s, r, Request(bulk, First(bulk), 0, 0));
      case TryPermit(r) => TriedInv(s, r);
      case TimeOut(r) => ReleasedInv(s, r, Bare);
      case WaitOut(r) => ReleasedInv(s, r, Waiting);
      case Retake(r) => PlacedInv(s, r, Next(s, e).requests[r]);
      case Answer(r) => PlacedInv(s, r, Next(s, e).requests[r]);
      case EndBody(r) => ReleasedInv(s, r, Spent);
      case Drop(r) =>
        ReleasedInv(s, r, Spent);
        Forget(Released(s, r, Spent), r);
    }
  }

  lemma Forget(s: State, r: nat)
    requires Inv(s) && r in s.requests && s.requests[r].phase.Spent?
    ensures Inv(s.(requests := s.requests - {r}))
  {
    var requests' := s.requests - {r};
    assert Holders(requests') == Holders(s.requests);
    assert BulkHolders(requests') == BulkHolders(s.requests);
  }

  // ---- whole runs

  predicate Runs(s: State, es: seq<Event>)
    decreases es
  {
    es == [] || (Enabled(s, es[0]) && Runs(Next(s, es[0]), es[1..]))
  }

  function After(s: State, es: seq<Event>): State
    requires Runs(s, es)
    decreases es
  {
    if es == [] then s else After(Next(s, es[0]), es[1..])
  }

  lemma {:induction false} AlwaysConserved(s: State, es: seq<Event>)
    requires Inv(s) && Runs(s, es)
    ensures Inv(After(s, es))
    decreases es
  {
    hide Inv, Enabled, Next;
    if es != [] {
      StepInv(s, es[0]);
      AlwaysConserved(Next(s, es[0]), es[1..]);
    }
  }

  lemma InitialInv()
    ensures Inv(INITIAL)
  {
    assert Holders(map[]) == {} && BulkHolders(map[]) == {};
  }

  function ControlHolders(requests: map<nat, Request>): set<nat> {
    set r | r in requests && requests[r].permits > 0 && !requests[r].bulk
  }

  /** A bulk request between its two permits. */
  predicate HalfWay(q: Request) {
    q.bulk && (q.phase.NeedRequest? || q.phase.WantRequest?)
  }

  lemma HoldersSplit(s: State)
    requires Inv(s)
    ensures |Holders(s.requests)| <= |ControlHolders(s.requests)| + |BulkHolders(s.requests)|
    ensures (exists r :: r in s.requests && HalfWay(s.requests[r]))
            ==> |Holders(s.requests)| < |ControlHolders(s.requests)| + |BulkHolders(s.requests)|
  {
    var bulk := set r | r in s.requests && s.requests[r].permits > 0 && s.requests[r].bulk;
    assert Holders(s.requests) == ControlHolders(s.requests) + bulk;
    assert bulk <= BulkHolders(s.requests);
    SubsetSize(bulk, BulkHolders(s.requests));
    if r :| r in s.requests && HalfWay(s.requests[r]) {
      assert r in BulkHolders(s.requests) && r !in bulk;
      SubsetSize(bulk, BulkHolders(s.requests) - {r});
    }
  }

  /**
    In every reachable state: every permit is accounted for in both semaphores, a request holds one admission's worth or
    nothing, at most 64 are admitted and 48 bulk, a control request is admitted at once while fewer than 16 control
    requests are, and a bulk request queues for a request permit only while at least 17 are.
   */
  lemma LanesHold(es: seq<Event>, r: nat)
    requires Runs(INITIAL, es)
    ensures var s := After(INITIAL, es);
            && Conserved(s) && Queued(s)
            && (r in s.requests ==> OneEach(s.requests[r]))
            && |BulkHolders(s.requests)| <= 48 && |Holders(s.requests)| <= 64
            && (r in s.requests && !s.requests[r].bulk && s.requests[r].phase.NeedRequest?
                && |ControlHolders(s.requests)| < 16
                ==> Enabled(s, TryPermit(r)) && Next(s, TryPermit(r)).requests[r].phase.InHandler?)
            && (r in s.requests && s.requests[r].phase.WantRequest?
                ==> |ControlHolders(s.requests)| >= if s.requests[r].bulk then 17 else 16)
  {
    hide Runs, After, Holders, BulkHolders, ControlHolders;
    InitialInv();
    AlwaysConserved(INITIAL, es);
    var s := After(INITIAL, es);
    HoldersSplit(s);
    QueuedNamed(s);
    if r in s.requests && s.requests[r].phase.WantRequest? { assert r in s.queue; }
  }

  /**
    A permit is given on in the order it was asked for: however an admitted request gives its admission back, the first
    in the queue is the one admitted.
   */
  lemma FirstIsNext(s: State, e: Event)
    requires Inv(s) && Enabled(s, e) && (e.WaitOut? || e.EndBody? || e.Drop?) && Admitted(s.requests[e.r])
             && s.queue != []
    ensures s.queue[0] in Next(s, e).requests && Next(s, e).requests[s.queue[0]].phase.InHandler?
    ensures Next(s, e).queue == s.queue[1..] && Next(s, e).free == 0
  {
    hide Conserved, Holders, BulkHolders;
    assert s.free == 0 by { Full(s); }
    ReleasedToFirst(s, e.r, if e.WaitOut? then Waiting else Spent);
  }

  lemma Full(s: State)
    requires Inv(s) && s.queue != []
    ensures s.free == 0
  {
  }

  lemma ReleasedToFirst(s: State, r: nat, p: Phase)
    requires Queued(s) && QueuesNamed(s) && r in s.requests && Admitted(s.requests[r]) && s.queue != []
    ensures var s' := Released(s, r, p);
            && s.queue[0] != r && s.queue[0] in s'.requests && s'.requests[s.queue[0]].phase.InHandler?
            && s'.queue == s.queue[1..] && s'.free == s.free
  {
    var q := s.queue[0];
    assert q != r && r !in s.queue;
    WithoutNone(s.queue, r);
    var s1 := Vacated(s, r, p);
    var s2 := GiveRequest(s1);
    assert s2.requests[q].phase == InHandler;
    assert forall x :: x in s1.bulkQueue ==> x in s.bulkQueue;
    assert q !in s.bulkQueue;
  }

  lemma {:induction false} WithoutNone(queue: seq<nat>, r: nat)
    requires r !in queue
    ensures Without(queue, r) == queue
  {
    if queue != [] { WithoutNone(queue[1..], r); }
  }

  // ---- an admission is kept until it is given up

  /** What an admitted request holds, and that it is admitted, over a step. */
  predicate SameHold(q: Request, q': Request) {
    Admitted(q') && q'.bulk == q.bulk && q'.permits == q.permits && q'.bulkPermits == q.bulkPermits
  }

  lemma ReleasedOthers(s: State, other: nat, p: Phase, r: nat)
    requires Inv(s) && QueuesNamed(s) && other in s.requests && other != r
    requires r in s.requests && Admitted(s.requests[r])
    ensures r in Released(s, other, p).requests && Released(s, other, p).requests[r] == s.requests[r]
  {
    hide Conserved, AllOneEach, Distinct;
    var s1 := Vacated(s, other, p);
    assert r !in s1.queue && r !in s1.bulkQueue;
  }

  lemma StepKeepsHold(s: State, e: Event, r: nat)
    requires Inv(s) && Enabled(s, e) && r in s.requests && Admitted(s.requests[r])
    requires e != WaitOut(r) && e != EndBody(r) && e != Drop(r)
    ensures r in Next(s, e).requests && SameHold(s.requests[r], Next(s, e).requests[r])
  {
    hide Inv, Released;
    match e {
      case TimeOut(other) => ReleasedOthers(s, other, Bare, r);
      case WaitOut(other) => ReleasedOthers(s, other, Waiting, r);
      case EndBody(other) => ReleasedOthers(s, other, Spent, r);
      case Drop(other) => ReleasedOthers(s, other, Spent, r);
      case _ =>
    }
  }

  /**
    Over every run an admitted request keeps exactly the permits it has, through its handler and its body, until it
    waits, its body ends or it is dropped; then it holds none.
   */
  lemma HeldUntilGivenUp(es: seq<Event>, e: Event, r: nat)
    requires Runs(INITIAL, es) && Enabled(After(INITIAL, es), e)
    requires r in After(INITIAL, es).requests && Admitted(After(INITIAL, es).requests[r])
    ensures var s, s' := After(INITIAL, es), Next(After(INITIAL, es), e);
            if e == WaitOut(r) || e == EndBody(r) || e == Drop(r)
            then r in s'.requests ==> s'.requests[r].permits == s'.requests[r].bulkPermits == 0
            else r in s'.requests && SameHold(s.requests[r], s'.requests[r])
  {
    hide Runs, After, Inv, Enabled, Released;
    var s := After(INITIAL, es);
    InitialInv();
    AlwaysConserved(INITIAL, es);
    if e == WaitOut(r) || e == EndBody(r) || e == Drop(r) {
      ReleasedInv(s, r, if e.WaitOut? then Waiting else Spent);
    } else {
      StepKeepsHold(s, e, r);
    }
  }

  /**
    A bulk request takes its first permit at once while fewer than 48 are taken, and its second while no more than
    sixteen control requests are admitted.
   */
  lemma BulkTakesAtOnce(es: seq<Event>, r: nat)
    requires Runs(INITIAL, es) && r in After(INITIAL, es).requests && After(INITIAL, es).requests[r].bulk
    ensures var s := After(INITIAL, es);
            && (s.requests[r].phase.NeedBulk? && |BulkHolders(s.requests)| < 48
                ==> Enabled(s, TryPermit(r)) && Next(s, TryPermit(r)).requests[r] == Request(true, NeedRequest, 0, 1))
            && (s.requests[r].phase.NeedRequest? && |ControlHolders(s.requests)| <= 16
                ==> Enabled(s, TryPermit(r)) && Next(s, TryPermit(r)).requests[r] == Request(true, InHandler, 1, 1))
  {
    hide Runs, After, Holders, BulkHolders, ControlHolders;
    InitialInv();
    AlwaysConserved(INITIAL, es);
    var s := After(INITIAL, es);
    QueuedNamed(s);
    assert OneEach(s.requests[r]);
    HoldersSplit(s);
  }
}

/** One lane's queue as the handlers change it under the assistant lock. */
module QueueObject {
  import opened Results
  import opened AssistantQueue

  /** `load_queue`: both lists are filtered in place. */
  method LoadQueue(stored: Option<Queue>, ttl: nat, now: nat) returns (q: Queue)
    ensures q == Load(stored, ttl, now)
  {
    var next, messages, taken := 1, [], [];
    if stored.Some? { next, messages, taken := stored.value.next, stored.value.messages, stored.value.taken; }
    if next < 1 { next := 1; }
    var kept: seq<Entry> := [];
    for i := 0 to |messages|
      invariant kept == FreshEntries(messages[..i], ttl, now)
    {
      assert messages[..i + 1][..i] == messages[..i];
      if Fresh(messages[i].receivedAt, ttl, now) { kept := kept + [messages[i]]; }
    }
    assert messages[..|messages|] == messages;
    var keptTaken: seq<Taken> := [];
    for i := 0 to |taken|
      invariant keptTaken == FreshTaken(taken[..i], ttl, now)
    {
      assert taken[..i + 1][..i] == taken[..i];
      if Fresh(taken[i].receivedAt, ttl, now) { keptTaken := keptTaken + [taken[i]]; }
    }
    assert taken[..|taken|] == taken;
    q := Queue(next, kept, keptTaken);
  }

  class QueueFile {
    var stored: Option<Queue>
    const lane: Lane

    constructor (lane: Lane)
      ensures stored == None && this.lane == lane
    {
      this.lane := lane;
      stored := None;
    }

    /** The locked part of `append`: the number given, or `queue_full`. */
    method Append(now: nat, sealed: string) returns (r: Option<nat>)
      modifies this
      ensures r.None? <==> Appended(old(stored), lane, now, sealed).None?
      ensures r.None? ==> stored == old(stored)
      ensures r.Some? ==> stored == Appended(old(stored), lane, now, sealed)
      ensures r.Some? ==> r.value == Load(old(stored), Ttl(lane), now).next
    {
      var queue := LoadQueue(stored, Ttl(lane), now);
      if |queue.messages| >= Max(lane) { return None; }
      var n := queue.next;
      queue := queue.(next := n + 1, messages := queue.messages + [Entry(n, sealed, now)]);
      stored := Some(queue);
      return Some(n);
    }

    /** The locked part of `ack`: how many were removed. */
    method Ack(now: nat, upTo: nat) returns (removed: nat)
      modifies this
      ensures stored == Acked(old(stored), lane, now, upTo)
      ensures removed == |UpTo(Load(old(stored), Ttl(lane), now).messages, upTo)|
    {
      var queue := LoadQueue(stored, Ttl(lane), now);
      var gone, kept: seq<Entry> := [], [];
      for i := 0 to |queue.messages|
        invariant gone == UpTo(queue.messages[..i], upTo) && kept == Past(queue.messages[..i], upTo)
      {
        assert queue.messages[..i + 1][..i] == queue.messages[..i];
        var m := queue.messages[i];
        if m.n <= upTo { gone := gone + [m]; } else { kept := kept + [m]; }
      }
      assert queue.messages[..|queue.messages|] == queue.messages;
      removed := |gone|;
      if removed > 0 { stored := Some(Queue(queue.next, kept, queue.taken + AsTaken(gone))); }
    }

    /** `get_request`. */
    method GetRequest(now: nat, n: nat) returns (r: Reported)
      ensures r == Report(stored, lane, now, n)
    {
      var queue := LoadQueue(stored, Ttl(lane), now);
      for i := 0 to |queue.messages|
        invariant forall j :: 0 <= j < i ==> queue.messages[j].n != n
      {
        if queue.messages[i].n == n { return Queued; }
      }
      for i := 0 to |queue.taken|
        invariant forall j :: 0 <= j < i ==> queue.taken[j].n != n
      {
        if queue.taken[i].n == n { return WasTaken; }
      }
      return Unknown;
    }
  }
}

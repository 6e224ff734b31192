/** The two semaphores and the admissions taken from them, updated in place. */
module AdmissionLanes {
  import opened Admission

  class Lanes {
    var free: nat
    var queue: seq<nat>
    var bulkFree: nat
    var bulkQueue: seq<nat>
    var requests: map<nat, Request>

    ghost function Model(): State
      reads this
    {
      State(free, queue, bulkFree, bulkQueue, requests)
    }

    constructor ()
      ensures Model() == INITIAL && Inv(Model())
    {
      free, queue, bulkFree, bulkQueue, requests := REQUESTS, [], BULK_REQUESTS, [], map[];
      new;
      InitialInv();
    }

    /** A request whose lane is decided: no permit yet. */
    method Arrive(r: nat, bulk: bool)
      requires Inv(Model()) && Enabled(Model(), Event.Arrive(r, bulk))
      modifies this`requests
      ensures Inv(Model()) && Model() == Next(old(Model()), Event.Arrive(r, bulk))
    {
      ghost var was := Model();
      requests := requests[r := Request(bulk, First(bulk), 0, 0)];
      StepInv(was, Event.Arrive(r, bulk));
    }

    /** One `permit` of `admit`: the bulk permit first, then the request permit, each taken at once or queued for. */
    method TryPermit(r: nat) returns (taken: bool)
      requires Inv(Model()) && Enabled(Model(), Event.TryPermit(r))
      modifies this
      ensures Inv(Model()) && Model() == Next(old(Model()), Event.TryPermit(r))
      ensures taken <==> Model().requests[r].phase.NeedRequest? || Model().requests[r].phase.InHandler?
    {
      ghost var was := Model();
      var q := requests[r];
      if q.phase.NeedBulk? {
        taken := bulkFree > 0;
        if taken { bulkFree := bulkFree - 1; } else { bulkQueue := bulkQueue + [r]; }
        requests := requests[r := if taken then TakingBulk(q) else q.(phase := WantBulk)];
      } else {
        taken := free > 0;
        if taken { free := free - 1; } else { queue := queue + [r]; }
        requests := requests[r := if taken then Taking(q) else q.(phase := WantRequest)];
      }
      StepInv(was, Event.TryPermit(r));
    }

    method DropRequestPermit()
      requires QueuesNamed(Model())
      modifies this
      ensures QueuesNamed(Model()) && Model() == GiveRequest(old(Model()))
    {
      if queue == [] {
        free := free + 1;
      } else {
        requests := requests[queue[0] := Taking(requests[queue[0]])];
        queue := queue[1..];
      }
    }

    method DropBulkPermit()
      requires QueuesNamed(Model())
      modifies this
      ensures QueuesNamed(Model()) && Model() == GiveBulk(old(Model()))
    {
      if bulkQueue == [] {
        bulkFree := bulkFree + 1;
      } else {
        requests := requests[bulkQueue[0] := TakingBulk(requests[bulkQueue[0]])];
        bulkQueue := bulkQueue[1..];
      }
    }

    /**
      Dropping what a request holds or queues for: a time-out, a held wait, the end of a body, or the request itself.
     */
    method Release(r: nat, p: Phase)
      requires Inv(Model()) && r in requests && Idle(p)
      modifies this
      ensures QueuesNamed(old(Model())) && Model() == Released(old(Model()), r, p) && Inv(Model())
    {
      ghost var was := Model();
      QueuedNamed(was);
      var q := requests[r];
      requests := requests[r := Emptied(q, p)];
      queue, bulkQueue := Without(queue, r), Without(bulkQueue, r);
      assert Model() == Vacated(was, r, p);
      ReleasedInv(was, r, p);
      hide Vacated, GiveRequest, GiveBulk, Inv;
      if Admitted(q) { DropRequestPermit(); }
      if PastBulk(q) { DropBulkPermit(); }
    }

    /** The first half of `wait_out`: the admission goes back before the wait. */
    method WaitOut(r: nat)
      requires Inv(Model()) && Enabled(Model(), Event.WaitOut(r))
      modifies this
      ensures Inv(Model()) && Model() == Next(old(Model()), Event.WaitOut(r))
    {
      Release(r, Waiting);
    }

    /** Its second half: the request is admitted again from the start. */
    method Retake(r: nat)
      requires Inv(Model()) && Enabled(Model(), Event.Retake(r))
      modifies this`requests
      ensures Inv(Model()) && Model() == Next(old(Model()), Event.Retake(r))
    {
      ghost var was := Model();
      requests := requests[r := requests[r].(phase := First(requests[r].bulk))];
      StepInv(was, Event.Retake(r));
    }

    /** The last frame, or an error, ends the body's admission. */
    method EndBody(r: nat)
      requires Inv(Model()) && Enabled(Model(), Event.EndBody(r))
      modifies this
      ensures Inv(Model()) && Model() == Next(old(Model()), Event.EndBody(r))
    {
      Release(r, Spent);
    }
  }
}

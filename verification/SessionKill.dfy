/**
  The obligation to end a grant's sessions: owed when the grant ends, kept in its record across restarts, discharged by
  a kill that den-remux carries out, and acknowledged under the grants lock. Grant operations, sweeps and any number of
  `end_sessions` tasks step in any order; kills fail, answers are lost, saves fail, tasks vanish.
 */
module SessionKill {
  import opened Results
  import opened GrantRecord

  /** What happens to the obligation, as it happens. */
  datatype Entry =
    | Owed(at: nat)              // the end event is stored, unacknowledged
    | Cleared                    // the grant is live again
    | Sent(read: Option<nat>)    // a kill goes out, by a task that read the record when the log was this long
    | Killed                     // den-remux ends the sessions
    | Acked

  type Log = seq<Entry>

  /** One `end_sessions`. `event` is the end it read, and `read` when it read it, if it could. */
  datatype Task =
    | Starting
    | Sending(event: Option<nat>, read: Option<nat>)
    | InFlight(event: Option<nat>)
    | Struck(event: Option<nat>)      // the sessions are ended, the answer is on its way
    | Confirmed(at: nat)              // taken as done, by the answer or for want of anything to send

  /** `configured` says whether the process has the edge secret and the relay a kill is sent with. */
  datatype State = State(record: Record, tasks: map<nat, Task>, configured: bool, log: Log)

  datatype Event =
    | Operate(op: Op, now: nat, stored: bool)
    | Begin(t: nat)
    | Read(t: nat, now: nat)
    | ReadFails(t: nat)
    | Send(t: nat)
    | Skip(t: nat)
    | Strike(t: nat)
    | Answer(t: nat, ok: bool)
    | Ack(t: nat, stored: bool)
    | Vanish(t: nat)
    | Restart(configured: bool)

  predicate Enabled(s: State, e: Event) {
    match e
    case Operate(op, now, _) => !op.AckKill? && Outcome(s.record, op, now).Some?
    case Begin(t) => t !in s.tasks
    case Read(t, _) => t in s.tasks && s.tasks[t].Starting?
    case ReadFails(t) => t in s.tasks && s.tasks[t].Starting?
    case Send(t) => t in s.tasks && s.tasks[t].Sending? && s.configured
    case Skip(t) => t in s.tasks && s.tasks[t].Sending? && !s.configured
    case Strike(t) => t in s.tasks && s.tasks[t].InFlight?
    case Answer(t, ok) => t in s.tasks && (s.tasks[t].Struck? || (s.tasks[t].InFlight? && !ok))
    case Ack(t, _) => t in s.tasks && s.tasks[t].Confirmed?
    case Vanish(t) => true
    case Restart(_) => true
  }

  /** What storing a record does to the obligation. */
  function Entries(r: Record, r': Record): Log {
    if r'.killFor == r.killFor then [] else if r'.killFor.Some? then [Owed(r'.killFor.value)] else [Cleared]
  }

  function Stored(s: State, r: Record): State {
    s.(record := r, log := s.log + Entries(s.record, r))
  }

  /**
    What `end_sessions` makes of the record it reads: nothing left to do, or a kill for an end that can still matter.
   */
  function Duty(r: Record, now: nat, read: nat): Option<Task> {
    if r.killAcked then None
    else match r.killFor
         case Some(at) => if now < at + REMUX_SESSION_MAX_MS then Some(Sending(Some(at), Some(read))) else None
         case None => Some(Sending(None, Some(read)))
  }

  function Next(s: State, e: Event): State
    requires Enabled(s, e)
  {
    match e
    case Operate(op, now, stored) => if stored then Stored(s, Outcome(s.record, op, now).value) else s
    case Begin(t) => s.(tasks := s.tasks[t := Starting])
    case Read(t, now) =>
      var duty := Duty(s.record, now, |s.log|);
      s.(tasks := if duty.Some? then s.tasks[t := duty.value] else s.tasks - {t})
    case ReadFails(t) => s.(tasks := s.tasks[t := Sending(None, None)])
    case Send(t) => s.(tasks := s.tasks[t := InFlight(s.tasks[t].event)], log := s.log + [Sent(s.tasks[t].read)])
    case Skip(t) =>   // nothing to send it with, which counts as done
      s.(tasks := if s.tasks[t].event.Some? then s.tasks[t := Confirmed(s.tasks[t].event.value)] else s.tasks - {t})
    case Strike(t) => s.(tasks := s.tasks[t := Struck(s.tasks[t].event)], log := s.log + [Killed])
    case Answer(t, ok) =>
      s.(tasks := if ok && s.tasks[t].event.Some? then s.tasks[t := Confirmed(s.tasks[t].event.value)]
          else s.tasks - {t})
    case Ack(t, stored) =>
      var s1 := s.(tasks := s.tasks - {t});
      if s.record.killFor == Some(s.tasks[t].at) && stored
      then s1.(record := s.record.(killAcked := true), log := s.log + [Acked]) else s1
    case Vanish(t) => s.(tasks := s.tasks - {t})
    case Restart(configured) => s.(tasks := map[], configured := configured)
  }

  // ---- read off the log

  /** The end event owed, if one is. */
  function OwedBy(log: Log): Option<nat> {
    if log == [] then None
    else
      var e := log[|log| - 1];
      if e.Owed? then Some(e.at) else if e.Cleared? then None else OwedBy(log[..|log| - 1])
  }

  /** The sessions have been ended since the last end event was stored. */
  predicate KilledSince(log: Log) {
    log != []
    && (var e := log[|log| - 1]; e.Killed? || (!e.Owed? && KilledSince(log[..|log| - 1])))
  }

  /** The last word on the obligation is an acknowledgement. */
  predicate AckedNow(log: Log) {
    log != []
    && (var e := log[|log| - 1]; e.Acked? || (!e.Owed? && !e.Cleared? && AckedNow(log[..|log| - 1])))
  }

  lemma Appended(log: Log, e: Entry)
    ensures (log + [e])[..|log + [e]| - 1] == log && (log + [e])[|log + [e]| - 1] == e
    ensures OwedBy(log + [e]) == if e.Owed? then Some(e.at) else if e.Cleared? then None else OwedBy(log)
    ensures KilledSince(log + [e]) == (e.Killed? || (!e.Owed? && KilledSince(log)))
    ensures AckedNow(log + [e]) == (e.Acked? || (!e.Owed? && !e.Cleared? && AckedNow(log)))
  {
  }

  // ---- what every step keeps

  /** The record says of the obligation what the log says. */
  predicate RecordTrue(s: State) {
    Good(s.record) && s.record.killFor == OwedBy(s.log) && s.record.killAcked == AckedNow(s.log)
  }

  /** No kill went out for a record that was read acknowledged. */
  predicate NeverTwice(log: Log) {
    forall k :: 0 <= k < |log| && log[k].Sent? && log[k].read.Some?
        ==> log[k].read.value <= k && !AckedNow(log[..log[k].read.value])
  }

  predicate TaskReadTrue(s: State, task: Task) {
    task.Sending? && task.read.Some? ==> task.read.value <= |s.log| && !AckedNow(s.log[..task.read.value])
  }

  predicate ReadsTrue(s: State) {
    forall t :: t in s.tasks ==> TaskReadTrue(s, s.tasks[t])
  }

  /** The end a task has ended the sessions for. */
  function StruckFor(task: Task): Option<nat> {
    match task
    case Struck(event) => event
    case Confirmed(at) => Some(at)
    case _ => None
  }

  /** A task that has struck for the end now owed struck after it was stored. */
  predicate StrikesCount(s: State) {
    forall t :: t in s.tasks && StruckFor(s.tasks[t]).Some? && StruckFor(s.tasks[t]) == OwedBy(s.log)
        ==> KilledSince(s.log)
  }

  predicate Discharged(s: State) {
    s.record.killAcked ==> KilledSince(s.log)
  }

  predicate Inv(s: State) {
    RecordTrue(s) && NeverTwice(s.log) && ReadsTrue(s)
  }

  /** Storing an operation's record raises or clears the obligation, and an obligation raised is not acknowledged. */
  lemma OutcomeOwes(r: Record, op: Op, now: nat)
    requires Good(r) && !op.AckKill? && Outcome(r, op, now).Some?
    ensures var r' := Outcome(r, op, now).value;
            if r'.killFor == r.killFor then r'.killAcked == r.killAcked else !r'.killAcked
  {
    hide Lapsed, Deduped, Distinct;
    if op.Update? { ChangedAside(r, op.body); }
  }

  lemma StoredTrue(s: State, op: Op, now: nat)
    requires RecordTrue(s) && !op.AckKill? && Outcome(s.record, op, now).Some?
    ensures RecordTrue(Stored(s, Outcome(s.record, op, now).value))
  {
    hide Good, Outcome, OwedBy, AckedNow;
    var r' := Outcome(s.record, op, now).value;
    OperationKeeps(s.record, op, now);
    OutcomeOwes(s.record, op, now);
    if r'.killFor == s.record.killFor {
      assert s.log + [] == s.log;
    } else {
      Appended(s.log, if r'.killFor.Some? then Owed(r'.killFor.value) else Cleared);
    }
  }

  lemma RecordStep(s: State, e: Event)
    requires RecordTrue(s) && Enabled(s, e)
    ensures RecordTrue(Next(s, e))
  {
    hide OwedBy, AckedNow, Outcome, Stored;
    match e {
      case Operate(op, now, stored) => if stored { StoredTrue(s, op, now); }
      case Send(t) => Appended(s.log, Sent(s.tasks[t].read));
      case Strike(t) => Appended(s.log, Killed);
      case Ack(t, stored) =>
        Appended(s.log, Acked);
      case _ =>
    }
  }

  lemma ReadsFrame(s: State, s': State, e: Entry)
    requires ReadsTrue(s) && NeverTwice(s.log) && (s'.log == s.log || s'.log == s.log + [e])
             && (!e.Sent? || e.read.None?)
    requires forall t :: t in s'.tasks && s'.tasks[t].Sending? && s'.tasks[t].read.Some?
                         ==> t in s.tasks && s'.tasks[t] == s.tasks[t]
    ensures ReadsTrue(s') && NeverTwice(s'.log)
  {
    hide AckedNow;
    forall t | t in s'.tasks ensures TaskReadTrue(s', s'.tasks[t]) {
      if s'.tasks[t].Sending? && s'.tasks[t].read.Some? {
        assert TaskReadTrue(s, s.tasks[t]);
        var n := s'.tasks[t].read.value;
        assert s'.log[..n] == s.log[..n];
      }
    }
    forall k | 0 <= k < |s'.log| && s'.log[k].Sent? && s'.log[k].read.Some?
      ensures s'.log[k].read.value <= k && !AckedNow(s'.log[..s'.log[k].read.value]) {
      assert s.log[k] == s'.log[k];
      assert s'.log[..s.log[k].read.value] == s.log[..s.log[k].read.value];
    }
  }

  lemma SendReads(s: State, t: nat)
    requires Inv(s) && Enabled(s, Send(t))
    ensures ReadsTrue(Next(s, Send(t))) && NeverTwice(Next(s, Send(t)).log)
  {
    hide AckedNow, OwedBy, Good;
    var s' := Next(s, Send(t));
    var entry := Sent(s.tasks[t].read);
    assert s'.log == s.log + [entry] && |s'.log| == |s.log| + 1;
    assert TaskReadTrue(s, s.tasks[t]);
    forall u | u in s'.tasks ensures TaskReadTrue(s', s'.tasks[u]) {
      if s'.tasks[u].Sending? && s'.tasks[u].read.Some? {
        assert TaskReadTrue(s, s.tasks[u]);
        assert s'.log[..s'.tasks[u].read.value] == s.log[..s'.tasks[u].read.value];
      }
    }
    forall k | 0 <= k < |s'.log| && s'.log[k].Sent? && s'.log[k].read.Some?
      ensures s'.log[k].read.value <= k && !AckedNow(s'.log[..s'.log[k].read.value]) {
      assert k < |s.log| ==> s'.log[k] == s.log[k];
      assert k == |s.log| ==> s'.log[k] == entry;
      assert s'.log[..s'.log[k].read.value] == s.log[..s'.log[k].read.value];
    }
  }

  lemma ReadReads(s: State, t: nat, now: nat)
    requires Inv(s) && Enabled(s, Read(t, now))
    ensures ReadsTrue(Next(s, Read(t, now)))
  {
    hide AckedNow, OwedBy, Good;
    var s' := Next(s, Read(t, now));
    assert s.log[..|s.log|] == s.log;
    forall u | u in s'.tasks ensures TaskReadTrue(s', s'.tasks[u]) {
      if u != t { assert TaskReadTrue(s, s.tasks[u]); }
    }
  }

  lemma StepInv(s: State, e: Event)
    requires Inv(s) && Enabled(s, e)
    ensures Inv(Next(s, e))
  {
    RecordStep(s, e);
    var s' := Next(s, e);
    hide RecordTrue, AckedNow, Outcome;
    match e {
      case Send(t) => SendReads(s, t);
      case Read(t, now) => ReadReads(s, t, now);
      case Operate(op, now, stored) =>
        if stored {
          var r' := Outcome(s.record, op, now).value;
          assert s.log + [] == s.log;
          ReadsFrame(s, s', if r'.killFor.Some? then Owed(r'.killFor.value) else Cleared);
        }
      case Strike(_) => ReadsFrame(s, s', Killed);
      case _ => ReadsFrame(s, s', Acked);
    }
  }

  // ---- an acknowledgement means the sessions were ended

  /**
    What keeps an acknowledgement honest: an end is not stored again at the very time a task has already been done with,
    and a process that cannot send kills does not take one as done for an end no kill has come after.
   */
  predicate Careful(s: State, e: Event) {
    match e
    case Operate(op, now, stored) =>
      stored && Enabled(s, e) && Entries(s.record, Outcome(s.record, op, now).value) != []
      ==> (var at := Outcome(s.record, op, now).value.killFor;
           forall t :: t in s.tasks && StruckFor(s.tasks[t]).Some? ==> StruckFor(s.tasks[t]) != at)
    case Skip(t) =>
      Enabled(s, e) && s.tasks[t].event.Some? && s.tasks[t].event == s.record.killFor ==> KilledSince(s.log)
    case _ => true
  }

  lemma StepDischarges(s: State, e: Event)
    requires Inv(s) && StrikesCount(s) && Discharged(s) && Enabled(s, e) && Careful(s, e)
    ensures StrikesCount(Next(s, e)) && Discharged(Next(s, e))
  {
    hide OwedBy, KilledSince, AckedNow, Outcome, NeverTwice, ReadsTrue, Good;
    match e {
      case Operate(op, now, stored) =>
        if stored { OperateDischarges(s, op, now); }
      case Send(t) => Appended(s.log, Sent(s.tasks[t].read));
      case Strike(t) => Appended(s.log, Killed);
      case Ack(t, stored) => Appended(s.log, Acked);
      case _ =>
    }
  }

  lemma OperateDischarges(s: State, op: Op, now: nat)
    requires RecordTrue(s) && StrikesCount(s) && Discharged(s)
    requires Enabled(s, Operate(op, now, true)) && Careful(s, Operate(op, now, true))
    ensures StrikesCount(Next(s, Operate(op, now, true))) && Discharged(Next(s, Operate(op, now, true)))
  {
    hide OwedBy, KilledSince, AckedNow, Outcome, Good;
    var r' := Outcome(s.record, op, now).value;
    OutcomeOwes(s.record, op, now);
    if r'.killFor == s.record.killFor {
      assert s.log + [] == s.log;
    } else {
      Appended(s.log, if r'.killFor.Some? then Owed(r'.killFor.value) else Cleared);
    }
  }

  // ---- whole runs

  predicate Runs(s: State, es: seq<Event>)
    decreases es
  {
    es == [] || (Enabled(s, es[0]) && Runs(Next(s, es[0]), es[1..]))
  }

  function After(s: State, es: seq<Event>): State
    requires Runs(s, es)
    decreases es
  {
    if es == [] then s else After(Next(s, es[0]), es[1..])
  }

  predicate AllCareful(s: State, es: seq<Event>)
    requires Runs(s, es)
    decreases es
  {
    es == [] || (Careful(s, es[0]) && AllCareful(Next(s, es[0]), es[1..]))
  }

  /** A grant just created. */
  predicate Fresh(s: State) {
    Good(s.record) && s.record.killFor.None? && s.tasks == map[] && s.log == []
  }

  /**
    Across failed kills, retries, restarts, extensions and expiry again: the record always says what was owed and
    acknowledged, and no kill is ever sent by a task that read it acknowledged.
   */
  lemma {:induction false} ObligationKept(s: State, es: seq<Event>)
    requires Inv(s) && Runs(s, es)
    ensures Inv(After(s, es))
    decreases es
  {
    hide Inv, Enabled, Next;
    if es != [] {
      StepInv(s, es[0]);
      ObligationKept(Next(s, es[0]), es[1..]);
    }
  }

  lemma FreshInv(s: State)
    requires Fresh(s)
    ensures Inv(s) && StrikesCount(s) && Discharged(s)
  {
  }

  lemma {:induction false} DischargedFrom(s: State, es: seq<Event>)
    requires Inv(s) && StrikesCount(s) && Discharged(s) && Runs(s, es) && AllCareful(s, es)
    ensures Discharged(After(s, es))
    decreases es
  {
    hide Inv, StrikesCount, Discharged, Enabled, Next, Careful;
    if es != [] {
      StepInv(s, es[0]);
      StepDischarges(s, es[0]);
      DischargedFrom(Next(s, es[0]), es[1..]);
    }
  }

  /**
    An acknowledged obligation was discharged by a kill carried out after its end event was stored, in every careful
    run.
   */
  lemma AckedMeansKilled(s: State, es: seq<Event>)
    requires Fresh(s) && Runs(s, es) && AllCareful(s, es)
    ensures After(s, es).record.killAcked ==> KilledSince(After(s, es).log)
  {
    hide Runs, AllCareful, After;
    FreshInv(s);
    DischargedFrom(s, es);
  }

  /** While every process in the run is configured, no kill is taken as done without being sent. */
  lemma {:induction false} ConfiguredNeverSkips(s: State, es: seq<Event>)
    requires s.configured && Runs(s, es) && forall i :: 0 <= i < |es| && es[i].Restart? ==> es[i].configured
    ensures forall i :: 0 <= i < |es| ==> !es[i].Skip?
    decreases es
  {
    hide Outcome;
    if es != [] {
      assert Next(s, es[0]).configured;
      ConfiguredNeverSkips(Next(s, es[0]), es[1..]);
      forall i | 0 <= i < |es| ensures !es[i].Skip? { if i > 0 { assert es[1..][i - 1] == es[i]; } }
    }
  }

  /** No end is stored again at the very time a task is already done with. */
  predicate StoredOnce(s: State, es: seq<Event>)
    requires Runs(s, es)
    decreases es
  {
    es == [] || ((es[0].Operate? ==> Careful(s, es[0])) && StoredOnce(Next(s, es[0]), es[1..]))
  }

  lemma {:induction false} ConfiguredCareful(s: State, es: seq<Event>)
    requires Runs(s, es) && StoredOnce(s, es) && forall i :: 0 <= i < |es| ==> !es[i].Skip?
    ensures AllCareful(s, es)
    decreases es
  {
    hide Next, Enabled;
    if es != [] {
      assert Careful(s, es[0]) by { if !es[0].Operate? { OthersCareful(s, es[0]); } }
      ConfiguredCareful(Next(s, es[0]), es[1..]);
    }
  }

  lemma OthersCareful(s: State, e: Event)
    requires !e.Operate? && !e.Skip?
    ensures Careful(s, e)
  {
  }

  /**
    So, while every process has the secret and the relay and no end is stored again at the very time a task is already
    done with, an acknowledged obligation was discharged.
   */
  lemma ConfiguredAckedMeansKilled(s: State, es: seq<Event>)
    requires Fresh(s) && s.configured && Runs(s, es) && StoredOnce(s, es)
    requires forall i :: 0 <= i < |es| && es[i].Restart? ==> es[i].configured
    ensures After(s, es).record.killAcked ==> KilledSince(After(s, es).log)
  {
    hide Runs, After, StoredOnce, AllCareful, KilledSince, Fresh;
    ConfiguredNeverSkips(s, es);
    ConfiguredCareful(s, es);
    AckedMeansKilled(s, es);
  }

  /** A task done with an end that is stored again can acknowledge it. */
  lemma StoredAgainMisleads(s: State, op: Op, now: nat, t: nat) returns (more: seq<Event>)
    requires Inv(s) && Enabled(s, Operate(op, now, true)) && t in s.tasks && StruckFor(s.tasks[t]).Some?
    requires Outcome(s.record, op, now).value.killFor == StruckFor(s.tasks[t])
             && s.record.killFor != StruckFor(s.tasks[t])
    ensures var es := [Operate(op, now, true)] + more;
            Runs(s, es) && After(s, es).record.killAcked && !KilledSince(After(s, es).log)
  {
    hide Inv, Outcome, KilledSince, Runs, After;
    var at := StruckFor(s.tasks[t]).value;
    var e := Operate(op, now, true);
    Appended(s.log, Owed(at));
    Appended(s.log + [Owed(at)], Acked);
    if s.tasks[t].Struck? {
      more := [Answer(t, true), Ack(t, true)];
      ThreeSteps(s, e, Answer(t, true), Ack(t, true));
      assert [e] + more == [e, Answer(t, true), Ack(t, true)];
    } else {
      more := [Ack(t, true)];
      TwoSteps(s, e, Ack(t, true));
      assert [e] + more == [e, Ack(t, true)];
    }
  }

  /** A task that takes the kill as done for want of a relay can acknowledge the end it read. */
  lemma SkippedMisleads(s: State, t: nat)
    requires Inv(s) && Enabled(s, Skip(t)) && s.tasks[t].event.Some? && s.tasks[t].event == s.record.killFor
    requires !KilledSince(s.log)
    ensures var es := [Skip(t), Ack(t, true)];
            Runs(s, es) && After(s, es).record.killAcked && !KilledSince(After(s, es).log)
  {
    hide Inv, KilledSince, Runs, After;
    Appended(s.log, Acked);
    TwoSteps(s, Skip(t), Ack(t, true));
  }

  /** So the care is needed at every step: from any step without it, an end no kill has come after is acknowledged. */
  lemma NotCarefulMisleads(s: State, e: Event) returns (more: seq<Event>)
    requires Inv(s) && Enabled(s, e) && !Careful(s, e)
    ensures Runs(s, [e] + more) && After(s, [e] + more).record.killAcked && !KilledSince(After(s, [e] + more).log)
  {
    hide Inv, Outcome, KilledSince, Runs, After;
    if e.Skip? {
      SkippedMisleads(s, e.t);
      more := [Ack(e.t, true)];
      assert [e] + more == [e, Ack(e.t, true)];
    } else {
      var at := Outcome(s.record, e.op, e.now).value.killFor;
      var t :| t in s.tasks && StruckFor(s.tasks[t]).Some? && StruckFor(s.tasks[t]) == at;
      more := StoredAgainMisleads(s, e.op, e.now, t);
    }
  }

  lemma OneStep(s: State, a: Event)
    requires Enabled(s, a)
    ensures Runs(s, [a]) && After(s, [a]) == Next(s, a)
  {
    hide Enabled, Next;
    assert [a][1..] == [] && [a][0] == a;
  }

  lemma TwoSteps(s: State, a: Event, b: Event)
    requires Enabled(s, a) && Enabled(Next(s, a), b)
    ensures Runs(s, [a, b]) && After(s, [a, b]) == Next(Next(s, a), b)
  {
    hide Enabled, Next;
    OneStep(Next(s, a), b);
    assert [a, b][1..] == [b] && [a, b][0] == a;
  }

  lemma ThreeSteps(s: State, a: Event, b: Event, c: Event)
    requires Enabled(s, a) && Enabled(Next(s, a), b) && Enabled(Next(Next(s, a), b), c)
    ensures Runs(s, [a, b, c]) && After(s, [a, b, c]) == Next(Next(Next(s, a), b), c)
  {
    hide Enabled, Next;
    TwoSteps(Next(s, a), b, c);
    assert [a, b, c][1..] == [b, c] && [a, b, c][0] == a;
  }

  // ---- a new end is a new obligation

  /** A sweep leaves an ended grant owing a kill for its own end, and one it did not owe before is unacknowledged. */
  lemma SweepOwes(r: Record, now: nat)
    requires Good(r) && EndedAt(r, now).Some?
    ensures Outcome(r, Op.Sweep, now).Some?
    ensures var r' := Outcome(r, Op.Sweep, now).value;
            && r'.killFor == EndedAt(r, now)
            && (r.killFor != EndedAt(r, now) ==> !r'.killAcked)
            && (!r'.killAcked && now < EndedAt(r, now).value + REMUX_SESSION_MAX_MS ==> Duty(r', now, 0).Some?)
  {
  }

  /**
    In every reachable state, a stored sweep or revocation leaves an ended grant owing a kill for its own end,
    acknowledged only if that very end had been owed and acknowledged before.
   */
  lemma EveryEndOwed(s: State, op: Op, now: nat)
    requires Inv(s) && (op.Sweep? || op.Revoke?) && Enabled(s, Operate(op, now, true))
    ensures var s' := Next(s, Operate(op, now, true));
            && OwedBy(s'.log) == EndedAt(s'.record, now)
            && (AckedNow(s'.log) ==> AckedNow(s.log) && OwedBy(s.log) == OwedBy(s'.log))
            && (!AckedNow(s'.log) && EndedAt(s'.record, now).Some?
                && now < EndedAt(s'.record, now).value + REMUX_SESSION_MAX_MS
                ==> Duty(s'.record, now, 0).Some?)
  {
    hide OwedBy, AckedNow, NeverTwice, ReadsTrue;
    StoredTrue(s, op, now);
    OutcomeOwes(s.record, op, now);
    if op.Sweep? && EndedAt(s.record, now).Some? { SweepOwes(s.record, now); }
  }

  /** A sweep repeated while nothing else happens owes nothing new, and un-acknowledges nothing. */
  lemma SweptOnce(r: Record, now: nat, acked: bool, later: nat)
    requires Good(r) && now <= later && EndedAt(r, now).Some?
    ensures var once := Swept(r, now).(killAcked := acked); Swept(once, later) == once
  {
    TimeOnlyEnds(r, now, later);
  }

  /**
    An extension that brings an expired grant back to life drops what its last expiry left, so the next owes afresh.
   */
  lemma ExtensionOwesAfresh(r: Record, b: Body, now: nat)
    requires Good(r) && Outcome(r, Update(b), now).Some?
    ensures var r' := Outcome(r, Update(b), now).value;
            Live(r', now) ==> r'.killFor.None? && !r'.killAcked
  {
    hide Changed, WellFormed, Whole;
  }

  // ---- a task left alone

  /** A task that reads the record goes on to a kill exactly when one is not acknowledged and not six hours late. */
  lemma ReadDecides(s: State, t: nat, now: nat)
    requires t !in s.tasks
    ensures var es := [Begin(t), Read(t, now)];
            && Runs(s, es)
            && (t in After(s, es).tasks <==>
                  !s.record.killAcked && (s.record.killFor.Some? ==> now < s.record.killFor.value + 21_600_000))
            && (t in After(s, es).tasks ==> After(s, es).tasks[t] == Sending(s.record.killFor, Some(|s.log|)))
            && After(s, es).record == s.record && After(s, es).log == s.log
  {
    hide Runs, After;
    TwoSteps(s, Begin(t), Read(t, now));
  }

  function KillPath(t: nat, now: nat): seq<Event> {
    [Begin(t), Read(t, now)] + [Send(t), Strike(t), Answer(t, true)] + [Ack(t, true)]
  }

  lemma Delivered(s: State, t: nat)
    requires t in s.tasks && s.tasks[t].Sending? && s.tasks[t].event.Some? && s.configured
    ensures var es := [Send(t), Strike(t), Answer(t, true)];
            && Runs(s, es)
            && After(s, es) == s.(tasks := s.tasks[t := Confirmed(s.tasks[t].event.value)],
                                  log := s.log + [Sent(s.tasks[t].read)] + [Killed])
  {
    hide Runs, After;
    var event, read := s.tasks[t].event, s.tasks[t].read;
    var s1 := s.(tasks := s.tasks[t := InFlight(event)], log := s.log + [Sent(read)]);
    var s2 := s.(tasks := s.tasks[t := Struck(event)], log := s.log + [Sent(read)] + [Killed]);
    assert s1.tasks[t := Struck(event)] == s2.tasks;
    assert s2.tasks[t := Confirmed(event.value)] == s.tasks[t := Confirmed(event.value)];
    assert Next(s, Send(t)) == s1 && Next(s1, Strike(t)) == s2;
    ThreeSteps(s, Send(t), Strike(t), Answer(t, true));
  }

  /**
    From any reachable state with a kill owed for an end less than six hours old, a task left alone sends it, and once
    den-remux has answered the obligation is acknowledged, for that end, and nothing else in the record has changed.
   */
  lemma KillCompletes(s: State, t: nat, now: nat)
    requires Inv(s) && s.configured && t !in s.tasks && !s.record.killAcked
    requires s.record.killFor.Some? && now < s.record.killFor.value + 21_600_000
    ensures Runs(s, KillPath(t, now))
    ensures var s' := After(s, KillPath(t, now));
            && s'.record == s.record.(killAcked := true) && KilledSince(s'.log) && AckedNow(s'.log)
            && OwedBy(s'.log) == s.record.killFor
            && s'.log == s.log + [Sent(Some(|s.log|))] + [Killed] + [Acked]
  {
    hide Runs, After, OwedBy, KilledSince, AckedNow, NeverTwice, ReadsTrue;
    ReadDecides(s, t, now);
    var a, b := [Begin(t), Read(t, now)], [Send(t), Strike(t), Answer(t, true)];
    var s1 := After(s, a);
    assert s1.configured by { TwoSteps(s, Begin(t), Read(t, now)); }
    Delivered(s1, t);
    Then(s, a, b);
    var s2 := After(s, a + b);
    OneStep(s2, Ack(t, true));
    Then(s, a + b, [Ack(t, true)]);
    Appended(s.log, Sent(Some(|s.log|)));
    Appended(s.log + [Sent(Some(|s.log|))], Killed);
    Appended(s.log + [Sent(Some(|s.log|))] + [Killed], Acked);
  }

  // ---- the exception can be reached

  /** A body that moves nothing but the end of access. */
  function Until(at: nat): Body {
    Body(Absent, Absent, Absent, Absent, Absent, Given(at), Absent)
  }

  predicate Guest(r: Record, until: nat) {
    Good(r) && r.revokedAt.None? && r.redeemedAt.Some? && r.accessUntil == Some(until)
  }

  lemma Moved(r: Record, until: nat, at: nat, now: nat)
    requires Guest(r, until)
    ensures Outcome(r, Update(Until(at)), now).Some?
    ensures var r' := Outcome(r, Update(Until(at)), now).value;
            Guest(r', at) && r'.killFor == if now < at then None else r.killFor
  {
    var r' := Changed(r, Until(at));
    assert Whole(r');
    ChangedAside(r, Until(at));
    UpdateKeeps(r, Until(at), now);
  }

  lemma SweptGuest(r: Record, until: nat, now: nat)
    requires Guest(r, until) && until <= now
    ensures var r' := Swept(r, now);
            Guest(r', until) && r'.killFor == Some(until) && (r.killFor != Some(until) ==> !r'.killAcked)
  {
    assert EndedAt(r, now) == Some(until);
    OperationKeeps(r, Op.Sweep, now);
  }

  lemma {:induction false} Extend(s: State, es: seq<Event>, e: Event)
    requires Runs(s, es) && Enabled(After(s, es), e)
    ensures Runs(s, es + [e]) && After(s, es + [e]) == Next(After(s, es), e)
    decreases es
  {
    hide Enabled, Next;
    if es == [] {
      assert (es + [e])[1..] == [];
    } else {
      Extend(Next(s, es[0]), es[1..], e);
      assert (es + [e])[1..] == es[1..] + [e];
    }
  }

  /** An expired guest is swept, and a task ends its sessions; its answer is still on its way. */
  lemma StruckOnce(r: Record, until: nat, now: nat) returns (es: seq<Event>)
    requires Guest(r, until) && r.killFor.None? && until <= now < until + REMUX_SESSION_MAX_MS
    ensures var s := State(r, map[], true, []);
            Runs(s, es) && Guest(After(s, es).record, until) && After(s, es).tasks == map[0 := Struck(Some(until))]
            && After(s, es).record.killFor == Some(until)
  {
    hide Runs, After, Guest, Swept, EndedAt;
    var s := State(r, map[], true, []);
    assert Runs(s, []) && After(s, []) == s by { NoSteps(s); }
    SweptGuest(r, until, now);
    assert Outcome(r, Op.Sweep, now) == Some(Swept(r, now));
    es := [] + [Operate(Op.Sweep, now, true)];
    Extend(s, [], Operate(Op.Sweep, now, true));
    var s1 := After(s, es);
    assert s1.record == Swept(r, now) && s1.tasks == map[];
    Extend(s, es, Begin(0));
    es := es + [Begin(0)];
    Extend(s, es, Read(0, now));
    es := es + [Read(0, now)];
    Extend(s, es, Send(0));
    es := es + [Send(0)];
    Extend(s, es, Strike(0));
    es := es + [Strike(0)];
  }

  lemma NoSteps(s: State)
    ensures Runs(s, []) && After(s, []) == s
  {
  }

  /**
    Extended and then shortened back to the same end while that answer is on its way, the grant is acknowledged
    unkilled.
   */
  lemma ReExpiryMisleads(r: Record, until: nat, later: nat, now: nat) returns (es: seq<Event>)
    requires Guest(r, until) && r.killFor.None? && until <= now < until + REMUX_SESSION_MAX_MS && now < later
    ensures var s := State(r, map[], true, []);
            Runs(s, es) && After(s, es).record.killAcked && !KilledSince(After(s, es).log)
  {
    hide Runs, After, Guest, Swept, KilledSince, Good, Outcome, Inv, Fresh;
    var s := State(r, map[], true, []);
    es := StruckOnce(r, until, now);
    Moved(After(s, es).record, until, later, now);
    Extend(s, es, Operate(Update(Until(later)), now, true));
    es := es + [Operate(Update(Until(later)), now, true)];
    Moved(After(s, es).record, later, until, now);
    Extend(s, es, Operate(Update(Until(until)), now, true));
    es := es + [Operate(Update(Until(until)), now, true)];
    var s7 := After(s, es);
    assert Guest(s7.record, until) && s7.record.killFor.None? && s7.tasks == map[0 := Struck(Some(until))];
    SweepsTo(s7.record, until, now);
    assert Inv(s7) by { GuestFresh(s, until); FreshInv(s); ObligationKept(s, es); }
    var more := StoredAgainMisleads(s7, Op.Sweep, now, 0);
    Then(s, es, [Operate(Op.Sweep, now, true)] + more);
    es := es + ([Operate(Op.Sweep, now, true)] + more);
  }

  lemma SweepsTo(r: Record, until: nat, now: nat)
    requires Guest(r, until) && until <= now
    ensures Outcome(r, Op.Sweep, now).Some? && Outcome(r, Op.Sweep, now).value.killFor == Some(until)
  {
    SweptGuest(r, until, now);
  }

  lemma GuestFresh(s: State, until: nat)
    requires Guest(s.record, until) && s.record.killFor.None? && s.tasks == map[] && s.log == []
    ensures Fresh(s)
  {
  }

  lemma {:induction false} Then(s: State, es: seq<Event>, more: seq<Event>)
    requires Runs(s, es) && Runs(After(s, es), more)
    ensures Runs(s, es + more) && After(s, es + more) == After(After(s, es), more)
    decreases es
  {
    hide Enabled, Next;
    if es == [] {
      assert es + more == more;
    } else {
      Then(Next(s, es[0]), es[1..], more);
      assert (es + more)[1..] == es[1..] + more;
    }
  }

  /** Restarted without its secret or relay after the sweep, the server acknowledges the end with no kill ever sent. */
  lemma UnconfiguredMisleads(r: Record, until: nat, now: nat) returns (es: seq<Event>)
    requires Guest(r, until) && r.killFor.None? && until <= now < until + REMUX_SESSION_MAX_MS
    ensures var s := State(r, map[], true, []);
            Runs(s, es) && After(s, es).record.killAcked && After(s, es).log == [Owed(until), Acked]
  {
    hide Runs, After, Guest, Swept, EndedAt;
    var s := State(r, map[], true, []);
    NoSteps(s);
    SweptGuest(r, until, now);
    assert Outcome(r, Op.Sweep, now) == Some(Swept(r, now));
    Extend(s, [], Operate(Op.Sweep, now, true));
    es := [] + [Operate(Op.Sweep, now, true)];
    Extend(s, es, Restart(false));
    es := es + [Restart(false)];
    Extend(s, es, Begin(0));
    es := es + [Begin(0)];
    Extend(s, es, Read(0, now));
    es := es + [Read(0, now)];
    Extend(s, es, Skip(0));
    es := es + [Skip(0)];
    Extend(s, es, Ack(0, true));
    es := es + [Ack(0, true)];
    assert [] + [Owed(until)] + [Acked] == [Owed(until), Acked];
  }
}

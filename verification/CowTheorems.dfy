/** Crash atomicity of each operation, and what every run of the store keeps. */
module CowTheorems {
  import opened Bytes
  import opened Ordered
  import opened Results
  import opened LibraryLog
  import opened IndexCodec
  import opened Disk
  import opened CowSpec
  import opened CowContents
  import opened CowCrash
  import opened CowOps
  import opened CowCompact
  import opened CowReopen

  // ---- a compaction, whole

  lemma CompactSplit(d: Disk, st: CowState)
    requires |d.dirs| > 0 && Data(st.generation) in d.Dir() && PayloadOf(d, st) in d.files
    requires Succeeds(d, st, Compact)
    ensures OpActions(d, st, Compact)
         == CopyActions(d, st)
            + (IndexActions(d.next + 1, st.generation + 1, st.head, Moved(st.sequence, Listed(st.sequence.Keys)))
               + ((MarkerActions(d.next + 2, st.generation + 1) + [SyncDir])
                  + [Remove(Data(st.generation)), Remove(Index(st.generation)), SyncDir]))
    ensures OpState(d, st, Compact) == Compacted(st)
  {
    hide Listed, Moved, IndexActions, MarkerActions, Appends;
  }

  /** Once the copy and its index are in place: the marker, then the clean-up. */
  lemma SwitchSafe(d: Disk, st: CowState, log: Log, k: nat)
    requires Quiet(d, st, log)
    requires |d.dirs| > 0 && Data(st.generation) in d.Dir() && PayloadOf(d, st) in d.files
    requires k <= 8
    ensures var a := (MarkerActions(d.next + 2, st.generation + 1) + [SyncDir])
                     + [Remove(Data(st.generation)), Remove(Index(st.generation)), SyncDir];
            && |a| == 8
            && Safe(Run(Indexed(d, st), a[..k]), st, log, Compacted(st), log)
            && Quiet(Run(Indexed(d, st), a), Compacted(st), log)
  {
    hide Quiet, Safe, AllPublish, Run, MarkerActions, Compacted, Indexed;
    var marker := MarkerActions(d.next + 2, st.generation + 1);
    var rest := [Remove(Data(st.generation)), Remove(Index(st.generation)), SyncDir];
    var c, st' := Indexed(d, st), Compacted(st);
    MarkerSafe(d, st, log, 4);
    var switched := Run(c, marker + [SyncDir]);
    assert st'.generation != st.generation by { CompactedGeneration(st); }
    RunConcat(c, marker + [SyncDir], rest);
    CleanupPublishes(switched, st', log, st.generation, 3);
    RunPrefix(c, marker + [SyncDir], rest, k);
    if k <= 4 {
      assert (marker + [SyncDir])[..k] == marker[..k];
      MarkerSafe(d, st, log, k);
    } else {
      CleanupPublishes(switched, st', log, st.generation, k - 5);
      assert (marker + [SyncDir])[..5] == marker + [SyncDir];
      assert rest[..0] == [];
      AllIsSafe(Run(switched, rest[..k - 5]), st', log, st, log);
      RunNothing(switched);
    }
  }

  lemma CompactedGeneration(st: CowState)
    ensures Compacted(st).generation == st.generation + 1
  {
  }

  lemma RunNothing(d: Disk)
    requires |d.dirs| > 0
    ensures Run(d, []) == d
  {
  }

  lemma CompactSafe(d: Disk, st: CowState, log: Log, k: nat)
    requires Quiet(d, st, log) && |d.dirs| > 0
    requires Data(st.generation) in d.Dir() && PayloadOf(d, st) in d.files
    requires Succeeds(d, st, Compact) && k <= |OpActions(d, st, Compact)|
    ensures Safe(Run(d, OpActions(d, st, Compact)[..k]), st, log, OpState(d, st, Compact), log)
    ensures Quiet(Run(d, OpActions(d, st, Compact)), OpState(d, st, Compact), log)
  {
    hide Quiet, Safe, AllPublish, Run, MarkerActions, IndexActions, CopyActions, Compacted, Indexed, Copied, Moved,
      Listed, OpActions, OpState;
    CompactSplit(d, st);
    var copy := CopyActions(d, st);
    var index := IndexActions(d.next + 1, st.generation + 1, st.head, Moved(st.sequence, Listed(st.sequence.Keys)));
    var last := (MarkerActions(d.next + 2, st.generation + 1) + [SyncDir])
                + [Remove(Data(st.generation)), Remove(Index(st.generation)), SyncDir];
    var c := Copied(d, st);
    RunCopied(d, st);
    RunConcat(d, copy, index + last);
    RunConcat(c, index, last);
    SwitchSafe(d, st, log, 8);
    IndexPublishes(d, st, log, 4);
    RunPrefix(d, copy, index + last, k);
    if k <= |copy| {
      CopyPublishes(d, st, log, k);
      AllIsSafe(Run(d, copy[..k]), st, log, Compacted(st), log);
    } else {
      var j := k - |copy|;
      RunPrefix(c, index, last, j);
      if j <= 4 {
        IndexPublishes(d, st, log, j);
        AllIsSafe(Run(c, index[..j]), st, log, Compacted(st), log);
      } else {
        SwitchSafe(d, st, log, j - 4);
      }
    }
  }

  // ---- any operation

  lemma OpSafe(d: Disk, st: CowState, log: Log, op: Op, k: nat)
    requires Quiet(d, st, log)
    requires |d.dirs| > 0 && Data(st.generation) in d.Dir() && PayloadOf(d, st) in d.files
    requires k <= |OpActions(d, st, op)|
    ensures Safe(Run(d, OpActions(d, st, op)[..k]), st, log, OpState(d, st, op), OpLog(d, st, log, op))
    ensures Quiet(Run(d, OpActions(d, st, op)), OpState(d, st, op), OpLog(d, st, log, op))
  {
    hide Quiet, Safe, Run, Staged, AllShort;
    if op.Compact? && Succeeds(d, st, op) {
      CompactSafe(d, st, log, k);
    } else if op.Compact? {
      assert OpActions(d, st, op)[..k] == [];
      RunNothing(d);
      QuietIsSafe(d, st, log, st, log);
    } else if AllShort(op.writes) && op.publish {
      PublishedSafe(d, st, log, op, k);
    } else {
      UnpublishedSafe(d, st, log, op, k);
      QuietIsSafe(Run(d, OpActions(d, st, op)[..k]), st, log, st, log);
    }
  }

  /**
    Crash atomicity: whatever operation runs, wherever it is cut, and whatever part of the unsynced bytes and
    directory changes survives, opening again answers for exactly the state before or exactly the state after.
   */
  lemma CrashAtomic(d: Disk, st: CowState, log: Log, op: Op, k: nat, c: Disk)
    requires Quiet(d, st, log)
    requires |d.dirs| > 0 && Data(st.generation) in d.Dir() && PayloadOf(d, st) in d.files
    requires k <= |OpActions(d, st, op)|
    requires CrashesTo(Run(d, OpActions(d, st, op)[..k]), c)
    requires Machine(st) && Machine(OpState(d, st, op))
    ensures c.Valid()
    ensures || (Load(c) == Reopened(st) && Quiet(c, st, log))
            || (Load(c) == Reopened(OpState(d, st, op)) && Quiet(c, OpState(d, st, op), OpLog(d, st, log, op)))
    ensures k == |OpActions(d, st, op)| ==>
              Load(c) == Reopened(OpState(d, st, op)) && Quiet(c, OpState(d, st, op), OpLog(d, st, log, op))
  {
    hide Quiet, Run, Load, Machine, OpState, OpLog, OpActions, CrashesTo, Publishes;
    OpSafe(d, st, log, op, k);
    var st', log' := OpState(d, st, op), OpLog(d, st, log, op);
    SafeReopens(Run(d, OpActions(d, st, op)[..k]), c, st, log, st', log');
    if k == |OpActions(d, st, op)| {
      assert OpActions(d, st, op)[..k] == OpActions(d, st, op);
      QuietIsSafe(Run(d, OpActions(d, st, op)), st', log', st', log');
      SafeReopens(Run(d, OpActions(d, st, op)), c, st', log', st', log');
    }
  }

  /** Opening gives the state back if and only if it is within the reader's limits. */
  lemma ReopensIffFits(d: Disk, st: CowState, log: Log)
    requires Quiet(d, st, log) && Machine(st)
    ensures Load(d) == Ok(st) <==> Fits(st.head, st.sequence)
    ensures Load(d).Ok? ==> Load(d) == Ok(st)
  {
    hide Quiet, Load, Machine;
    LoadPublished(d, st, log);
  }

  // ---- the limits only the reader checks, in terms of the writes

  ghost predicate LogFits(log: Log) {
    && |LiveAfter(log, 0)| <= MAX_ROWS
    && forall n :: Live(log, n) ==> |log[n - 1].fragment| <= MAX_LEN && |log[n - 1].key.text| <= MAX_KEY
  }

  lemma RowFits(bytes: seq<byte>, st: CowState, log: Log, n: nat)
    requires Describes(bytes, st, log) && n in st.sequence
    ensures 1 <= n <= |log| && Live(log, n)
    ensures RowWithin(n, st.sequence[n], st.head) <==>
            |log[n - 1].fragment| <= MAX_LEN && |log[n - 1].key.text| <= MAX_KEY
  {
    assert RowHolds(bytes, n, st.sequence[n], log);
  }

  /** Whether a state can be opened again is decided by its live writes alone, so before a batch is made. */
  lemma FitsIffLogFits(bytes: seq<byte>, st: CowState, log: Log)
    requires Describes(bytes, st, log)
    ensures Fits(st.head, st.sequence) <==> LogFits(log)
  {
    hide Live, RowHolds, RowWithin, LiveAfter, Listed;
    AfterIsLiveAfter(st.head, st.keys, st.sequence, log, 0);
    RowsPositive(bytes, st, log);
    forall n | n in st.sequence
      ensures RowWithin(n, st.sequence[n], st.head) <==>
              |log[n - 1].fragment| <= MAX_LEN && |log[n - 1].key.text| <= MAX_KEY
    {
      RowFits(bytes, st, log, n);
    }
  }

  lemma RowsPositive(bytes: seq<byte>, st: CowState, log: Log)
    requires Describes(bytes, st, log)
    ensures forall n :: n in st.sequence ==> 1 <= n <= |log|
    ensures |ListedAfter(st.sequence.Keys, 0)| == |st.sequence|
  {
    hide Describes;
    forall n | n in st.sequence ensures 1 <= n <= |log| { RowFits(bytes, st, log, n); }
    assert (set x | x in st.sequence.Keys && x > 0) == st.sequence.Keys;
  }
}

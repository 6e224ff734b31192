/**
  The abstract library both stores implement: nothing but the list of every write ever made. Write number `n`
  (counted from one) is live while no later write has its key, and a range answer is read off the live writes.
 */
module LibraryLog {
  import opened Bytes
  import opened Ordered

  /** The bytes of a `String`. */
  datatype Key = Key(text: seq<byte>)

  datatype Write = Write(key: Key, fragment: seq<byte>)

  type Log = seq<Write>

  /** The number of the last write of `key`, or zero when it was never written. */
  function Latest(log: Log, key: Key): (n: nat)
    ensures n <= |log|
    ensures n > 0 ==> log[n - 1].key == key
  {
    if log == [] then 0
    else if log[|log| - 1].key == key then |log|
    else Latest(log[..|log| - 1], key)
  }

  predicate Live(log: Log, n: int)
  {
    1 <= n <= |log| && Latest(log, log[n - 1].key) == n
  }

  /** A write is live exactly when no later write has its key. */
  lemma {:induction false} LiveIsLast(log: Log, n: nat)
    requires 1 <= n <= |log|
    ensures Live(log, n) <==> forall i :: n <= i < |log| ==> log[i].key != log[n - 1].key
  {
    var init, last := log[..|log| - 1], log[|log| - 1];
    if n < |log| {
      LiveIsLast(init, n);
      assert last.key != log[n - 1].key ==> Latest(log, log[n - 1].key) == Latest(init, log[n - 1].key);
      assert forall i :: n <= i < |init| ==> init[i] == log[i];
    }
  }

  /** The numbers of the live writes after `since`, oldest first. */
  function LiveAfter(log: Log, since: nat): (s: seq<nat>)
    ensures forall i :: 0 <= i < |s| ==> since < s[i] <= |log|
    decreases |log| - since
  {
    if since >= |log| then []
    else (if Live(log, since + 1) then [since + 1] else []) + LiveAfter(log, since + 1)
  }

  lemma {:induction false} LiveAfterSpec(log: Log, since: nat)
    ensures Ascending(LiveAfter(log, since))
    ensures forall x :: x in LiveAfter(log, since) <==> since < x && Live(log, x)
    decreases |log| - since
  {
    if since < |log| {
      LiveAfterSpec(log, since + 1);
      var rest := LiveAfter(log, since + 1);
      assert LiveAfter(log, since) == if Live(log, since + 1) then [since + 1] + rest else rest;
    }
  }

  function MixByte(checksum: bv64, b: byte): bv64 {
    checksum.RotateLeft(5) ^ (b as bv64)
  }

  /** `checksum_bytes`. */
  function ChecksumBytes(checksum: bv64, bytes: seq<byte>): bv64
  {
    if bytes == [] then checksum
    else MixByte(ChecksumBytes(checksum, bytes[..|bytes| - 1]), bytes[|bytes| - 1])
  }

  function ChecksumAll(fragments: seq<seq<byte>>): bv64
  {
    if fragments == [] then 0
    else ChecksumBytes(ChecksumAll(fragments[..|fragments| - 1]), fragments[|fragments| - 1])
  }

  function TotalBytes(fragments: seq<seq<byte>>): nat
  {
    if fragments == [] then 0
    else TotalBytes(fragments[..|fragments| - 1]) + |fragments[|fragments| - 1]|
  }

  datatype Answer = Answer(head: nat, count: nat, bytes: nat, checksum: bv64)

  /** A limit of zero never equals the running count, so it does not limit. */
  function Limited<T>(s: seq<T>, limit: nat): seq<T>
  {
    if limit == 0 || |s| <= limit then s else s[..limit]
  }

  function Tally(head: nat, fragments: seq<seq<byte>>, limit: nat): Answer
  {
    var taken := Limited(fragments, limit);
    Answer(head, |taken|, TotalBytes(taken), ChecksumAll(taken))
  }

  function Fragments(log: Log, numbers: seq<nat>): (f: seq<seq<byte>>)
    requires forall i :: 0 <= i < |numbers| ==> 1 <= numbers[i] <= |log|
    ensures |f| == |numbers|
  {
    seq(|numbers|, i requires 0 <= i < |numbers| => log[numbers[i] - 1].fragment)
  }

  /** The answer of `range`, from the list of writes alone. */
  function Range(log: Log, since: nat, limit: nat): Answer
  {
    Tally(|log|, Fragments(log, LiveAfter(log, since)), limit)
  }

  /**
    What both stores keep: the sequence table lists exactly the live writes, and the key table maps each key ever
    written to its live write.
   */
  ghost predicate Tracks<V>(head: nat, keys: map<Key, nat>, table: map<nat, V>, log: Log)
  {
    && head == |log|
    && (forall n :: n in table <==> Live(log, n))
    && (forall k :: k in keys <==> Latest(log, k) > 0)
    && (forall k :: k in keys ==> keys[k] == Latest(log, k))
  }

  /** A sequence table after one write, as both stores' loops compute it: the key's old row goes, a new one comes. */
  function Replaced<V>(head: nat, keys: map<Key, nat>, table: map<nat, V>, key: Key, value: V): map<nat, V>
  {
    (if key in keys then table - {keys[key]} else table)[head + 1 := value]
  }

  lemma LatestWrite(log: Log, w: Write, k: Key)
    ensures Latest(log + [w], k) == if k == w.key then |log| + 1 else Latest(log, k)
  {
    assert (log + [w])[..|log|] == log;
  }

  lemma LiveWrite(log: Log, w: Write, n: int)
    ensures Live(log + [w], n) <==> n == |log| + 1 || (Live(log, n) && log[n - 1].key != w.key)
  {
    if 1 <= n <= |log| + 1 { LatestWrite(log, w, (log + [w])[n - 1].key); }
  }

  lemma TracksWrite<V>(head: nat, keys: map<Key, nat>, table: map<nat, V>, log: Log, w: Write, v: V)
    requires Tracks(head, keys, table, log)
    ensures Tracks(head + 1, keys[w.key := head + 1], Replaced(head, keys, table, w.key, v), log + [w])
  {
    hide Latest;
    forall n ensures Live(log + [w], n) <==> n == head + 1 || (Live(log, n) && log[n - 1].key != w.key) {
      LiveWrite(log, w, n);
    }
    forall k ensures Latest(log + [w], k) == if k == w.key then |log| + 1 else Latest(log, k) {
      LatestWrite(log, w, k);
    }
  }

  /** Tracking speaks of the rows' numbers only. */
  lemma TracksSameRows<V>(head: nat, keys: map<Key, nat>, table: map<nat, V>, other: map<nat, V>, log: Log)
    requires Tracks(head, keys, table, log)
    requires table.Keys == other.Keys
    ensures Tracks(head, keys, other, log)
  {
    hide Live;
    forall n ensures n in other <==> n in table { assert n in other <==> n in other.Keys; }
  }

  /** The two tables are inverse to each other, and nothing in them is past the head. */
  lemma TablesAreInverse<V>(head: nat, keys: map<Key, nat>, table: map<nat, V>, log: Log)
    requires Tracks(head, keys, table, log)
    ensures forall k :: k in keys ==> 1 <= keys[k] <= head && keys[k] in table && log[keys[k] - 1].key == k
    ensures forall n :: n in table ==> 1 <= n <= head && log[n - 1].key in keys && keys[log[n - 1].key] == n
  {
    forall k | k in keys
      ensures keys[k] in table
    {
      assert Live(log, keys[k]);
    }
  }

  /** Reading a sequence table past `since` visits exactly the live writes past `since`, in order. */
  lemma AfterIsLiveAfter<V>(head: nat, keys: map<Key, nat>, table: map<nat, V>, log: Log, since: nat)
    requires Tracks(head, keys, table, log)
    ensures ListedAfter(table.Keys, since) == LiveAfter(log, since)
  {
    LiveAfterSpec(log, since);
    AscendingUnique(ListedAfter(table.Keys, since), LiveAfter(log, since));
  }
}

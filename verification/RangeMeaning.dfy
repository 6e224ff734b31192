/**
  A range answer in terms of nothing but the writes: how many there are, how long they are together, and the checksum
  as a sum without carry of their bytes, each turned by its distance from the end.
 */
module RangeMeaning {
  import opened Bytes
  import opened Ordered
  import opened LibraryLog

  /** A 64-bit word turned left by five bits. */
  function Turn(x: bv64): bv64 {
    (x << 5) | (x >> 59)
  }

  /** The same, `k` times over. */
  function Turned(x: bv64, k: nat): bv64 {
    if k == 0 then x else Turn(Turned(x, k - 1))
  }

  /** A sum without carry. */
  function Sum(x: bv64, y: bv64): bv64 {
    x ^ y
  }

  function Word(b: byte): bv64 {
    b as bv64
  }

  function SumAll(words: seq<bv64>): bv64 {
    if words == [] then 0 else Sum(SumAll(words[..|words| - 1]), words[|words| - 1])
  }

  /** Each byte, turned by five bits for every byte after it. */
  function Words(bytes: seq<byte>): (words: seq<bv64>)
    ensures |words| == |bytes|
  {
    seq(|bytes|, i requires 0 <= i < |bytes| => Turned(Word(bytes[i]), |bytes| - 1 - i))
  }

  function Folded(bytes: seq<byte>): bv64 {
    SumAll(Words(bytes))
  }

  function Flat(fragments: seq<seq<byte>>): seq<byte> {
    if fragments == [] then [] else fragments[0] + Flat(fragments[1..])
  }

  lemma TurnSum(x: bv64, y: bv64)
    ensures Turn(Sum(x, y)) == Sum(Turn(x), Turn(y))
  {
  }

  function TurnAll(words: seq<bv64>): (turned: seq<bv64>)
    ensures |turned| == |words|
  {
    seq(|words|, i requires 0 <= i < |words| => Turn(words[i]))
  }

  lemma TurnNothing()
    ensures Turn(0) == 0
  {
  }

  lemma {:induction false} TurnSumAll(words: seq<bv64>)
    ensures SumAll(TurnAll(words)) == Turn(SumAll(words))
  {
    hide Turn, Sum;
    if words == [] {
      TurnNothing();
    } else {
      var init, last := words[..|words| - 1], words[|words| - 1];
      TurnSumAll(init);
      assert TurnAll(words)[..|init|] == TurnAll(init);
      TurnSum(SumAll(init), last);
    }
  }

  lemma MixIs(x: bv64, b: byte)
    ensures MixByte(x, b) == Sum(Turn(x), Word(b))
  {
    RotateIs(x);
  }

  lemma RotateIs(x: bv64)
    ensures x.RotateLeft(5) == Turn(x)
  {
  }

  lemma WordsSnoc(bytes: seq<byte>, b: byte)
    ensures Words(bytes + [b]) == TurnAll(Words(bytes)) + [Word(b)]
  {
    hide Turn, Word;
    var more := Words(bytes + [b]);
    assert more[|bytes|] == Turned(Word(b), 0) == Word(b);
    forall i | 0 <= i < |bytes| ensures more[i] == TurnAll(Words(bytes))[i] {
      assert more[i] == Turned(Word(bytes[i]), |bytes| - i) == Turn(Turned(Word(bytes[i]), |bytes| - 1 - i));
    }
  }

  lemma FoldedSnoc(bytes: seq<byte>, b: byte)
    ensures Folded(bytes + [b]) == Sum(Turn(Folded(bytes)), Word(b))
  {
    hide Turn, Sum, Word, Words, TurnAll;
    WordsSnoc(bytes, b);
    TurnSumAll(Words(bytes));
    var turned := TurnAll(Words(bytes));
    assert (turned + [Word(b)])[..|turned|] == turned;
  }

  lemma {:induction false} ChecksumFolds(before: seq<byte>, bytes: seq<byte>)
    ensures ChecksumBytes(Folded(before), bytes) == Folded(before + bytes)
  {
    hide Turn, Folded, Sum, Word, MixByte;
    if bytes == [] {
      assert before + bytes == before;
    } else {
      var init, b := bytes[..|bytes| - 1], bytes[|bytes| - 1];
      ChecksumFolds(before, init);
      FoldedSnoc(before + init, b);
      MixIs(Folded(before + init), b);
      assert before + bytes == before + init + [b];
    }
  }

  lemma {:induction false} FlatSnoc(fragments: seq<seq<byte>>, last: seq<byte>)
    ensures Flat(fragments + [last]) == Flat(fragments) + last
  {
    if fragments == [] {
      assert fragments + [last] == [last] && [last][1..] == [] && last + [] == last && [] + last == last;
    } else {
      FlatSnoc(fragments[1..], last);
      assert (fragments + [last])[1..] == fragments[1..] + [last];
      assert fragments[0] + (Flat(fragments[1..]) + last) == fragments[0] + Flat(fragments[1..]) + last;
    }
  }

  /** The checksum of fragments is that of their bytes in one run, wherever one fragment ends and the next begins. */
  lemma {:induction false} ChecksumOfAll(fragments: seq<seq<byte>>)
    ensures ChecksumAll(fragments) == Folded(Flat(fragments)) && TotalBytes(fragments) == |Flat(fragments)|
  {
    hide ChecksumBytes, Folded, Flat;
    if fragments == [] {
      NothingFlat();
    } else {
      var init, last := fragments[..|fragments| - 1], fragments[|fragments| - 1];
      ChecksumOfAll(init);
      ChecksumFolds(Flat(init), last);
      FlatSnoc(init, last);
      assert fragments == init + [last];
    }
  }

  lemma NothingFlat()
    ensures Flat([]) == [] && Folded([]) == 0
  {
  }

  /** No later write has the key of write `n`. */
  ghost predicate Current(log: Log, n: int)
    requires 1 <= n <= |log|
  {
    forall i :: n <= i < |log| ==> log[i].key != log[n - 1].key
  }

  /** `numbers` are the current writes after `since`, oldest first, the first `limit` of them unless that is zero. */
  ghost predicate Selects(log: Log, since: nat, limit: nat, numbers: seq<nat>) {
    && Ascending(numbers)
    && (forall n :: n in numbers ==> since < n <= |log| && Current(log, n))
    && (limit > 0 ==> |numbers| <= limit)
    && (forall n :: since < n <= |log| && n !in numbers && Current(log, n)
          ==> limit > 0 && |numbers| == limit && forall m :: m in numbers ==> m < n)
  }

  /** What an answer says of the writes selected. */
  ghost predicate Says(log: Log, numbers: seq<nat>, answer: Answer) {
    && (forall i :: 0 <= i < |numbers| ==> 1 <= numbers[i] <= |log|)
    && answer.head == |log| && answer.count == |numbers|
    && answer.bytes == |Flat(Fragments(log, numbers))|
    && answer.checksum == Folded(Flat(Fragments(log, numbers)))
  }

  lemma SelectsLimited(log: Log, since: nat, limit: nat)
    ensures Selects(log, since, limit, Limited(LiveAfter(log, since), limit))
  {
    hide LiveAfter, Live, Current;
    var live := LiveAfter(log, since);
    var numbers := Limited(live, limit);
    LiveAfterSpec(log, since);
    forall n | since < n <= |log| ensures n in live <==> Current(log, n) { LiveIsCurrent(log, n); }
    forall n | n in numbers ensures since < n <= |log| && Current(log, n) {
      assert n in live;
      LiveBounds(log, n);
    }
    forall n | since < n <= |log| && n !in numbers && Current(log, n)
      ensures limit > 0 && |numbers| == limit && forall m :: m in numbers ==> m < n
    {
      var j :| 0 <= j < |live| && live[j] == n;
    }
  }

  lemma LiveBounds(log: Log, n: nat)
    requires Live(log, n)
    ensures 1 <= n <= |log|
  {
  }

  lemma LiveIsCurrent(log: Log, n: nat)
    requires 1 <= n <= |log|
    ensures Live(log, n) <==> Current(log, n)
  {
    LiveIsLast(log, n);
  }

  lemma FragmentsLimited(log: Log, numbers: seq<nat>, limit: nat)
    requires forall i :: 0 <= i < |numbers| ==> 1 <= numbers[i] <= |log|
    ensures forall i :: 0 <= i < |Limited(numbers, limit)| ==> 1 <= Limited(numbers, limit)[i] <= |log|
    ensures Limited(Fragments(log, numbers), limit) == Fragments(log, Limited(numbers, limit))
  {
  }

  /**
    A range answer is of exactly the live writes after `since`, the oldest `limit` of them where there is a limit: how
    many, how many bytes, and the checksum of their bytes in one run.
   */
  lemma RangeSays(log: Log, since: nat, limit: nat) returns (numbers: seq<nat>)
    ensures Selects(log, since, limit, numbers) && Says(log, numbers, Range(log, since, limit))
  {
    hide Selects, Flat, Folded, ChecksumAll, TotalBytes, LiveAfter, Limited, Fragments;
    var live := LiveAfter(log, since);
    numbers := Limited(live, limit);
    SelectsLimited(log, since, limit);
    FragmentsLimited(log, live, limit);
    ChecksumOfAll(Fragments(log, numbers));
  }
}

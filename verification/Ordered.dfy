/** Finite sets of numbers listed in order: how a `BTreeMap<u64, _>` is walked. */
module Ordered {

  ghost predicate Ascending(s: seq<nat>) {
    forall i, j :: 0 <= i < j < |s| ==> s[i] < s[j]
  }

  predicate IsLeast(x: nat, s: set<nat>) {
    x in s && forall y :: y in s ==> x <= y
  }

  lemma {:induction false} HasLeast(s: set<nat>)
    requires s != {}
    ensures exists x :: IsLeast(x, s)
  {
    var x :| x in s;
    var rest := s - {x};
    if rest == {} {
      assert s == {x};
      assert IsLeast(x, s);
    } else {
      HasLeast(rest);
      var least :| IsLeast(least, rest);
      assert forall y :: y in s ==> y == x || y in rest;
      assert IsLeast(if least < x then least else x, s);
    }
  }

  /** The elements of `s`, least first. */
  function Listed(s: set<nat>): (r: seq<nat>)
    ensures |r| == |s|
    ensures Ascending(r)
    ensures forall x :: x in r <==> x in s
  {
    if s == {} then []
    else
      HasLeast(s);
      var x :| IsLeast(x, s);
      var rest := Listed(s - {x});
      ListedStep(s, x, rest);
      [x] + rest
  }

  lemma ListedStep(s: set<nat>, x: nat, rest: seq<nat>)
    requires IsLeast(x, s)
    requires |rest| == |s - {x}| && Ascending(rest) && forall y :: y in rest <==> y in s - {x}
    ensures |[x] + rest| == |s|
    ensures Ascending([x] + rest)
    ensures forall y :: y in [x] + rest <==> y in s
  {
    forall i | 0 <= i < |rest| ensures x < rest[i] { assert rest[i] in rest; }
    assert s == s - {x} + {x};
  }

  /** Two ascending sequences with the same elements are the same sequence. */
  lemma {:induction false} AscendingUnique(a: seq<nat>, b: seq<nat>)
    requires Ascending(a) && Ascending(b)
    requires forall x :: x in a <==> x in b
    ensures a == b
  {
    if a == [] {
      assert forall i :: 0 <= i < |b| ==> b[i] in b;
    } else {
      assert a[0] in b && |b| > 0 && b[0] in a;
      assert a[0] == b[0];
      assert forall x :: x in a[1..] <==> x in a && x != a[0];
      assert forall x :: x in b[1..] <==> x in b && x != b[0];
      AscendingUnique(a[1..], b[1..]);
      assert a == [a[0]] + a[1..] == b;
    }
  }

  /** The numbers of `s` past `since`, in order: `range((Excluded(since), Unbounded))`. */
  function ListedAfter(s: set<nat>, since: nat): (r: seq<nat>)
    ensures Ascending(r)
    ensures forall x :: x in r <==> x in s && x > since
  {
    Listed(set x | x in s && x > since)
  }
}

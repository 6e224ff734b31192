/** Bytes, fixed-width integers in both byte orders, and the UTF-8 check a Rust `String` carries. */
module Bytes {

  type byte = x: int | 0 <= x < 256

  const U32_LIMIT: nat := 0x1_0000_0000
  const U64_LIMIT: nat := 0x1_0000_0000_0000_0000

  /** One more than the largest number `width` bytes hold. */
  function Capacity(width: nat): (c: nat)
    ensures c >= 1
  {
    if width == 0 then 1 else 256 * Capacity(width - 1)
  }

  lemma CapacityOfWords()
    ensures Capacity(4) == U32_LIMIT
    ensures Capacity(8) == U64_LIMIT
  {
    assert Capacity(2) == 256 * Capacity(1) == 0x1_0000;
    assert Capacity(4) == 256 * Capacity(3) == 0x1_0000 * Capacity(2);
    assert Capacity(6) == 256 * Capacity(5) == 0x1_0000 * Capacity(4);
    assert Capacity(8) == 256 * Capacity(7) == 0x1_0000 * Capacity(6);
  }

  /** `to_le_bytes` of an integer of `width` bytes. */
  function ToLe(n: nat, width: nat): (s: seq<byte>)
    ensures |s| == width
  {
    if width == 0 then [] else [n % 256] + ToLe(n / 256, width - 1)
  }

  /** `from_le_bytes`. */
  function FromLe(s: seq<byte>): (n: nat)
    ensures n < Capacity(|s|)
  {
    if s == [] then 0 else s[0] + 256 * FromLe(s[1..])
  }

  lemma {:induction false} LeRoundTrip(n: nat, width: nat)
    requires n < Capacity(width)
    ensures FromLe(ToLe(n, width)) == n
  {
    if width > 0 {
      LeRoundTrip(n / 256, width - 1);
      assert ToLe(n, width)[1..] == ToLe(n / 256, width - 1);
    }
  }

  /** `to_be_bytes` of an integer of `width` bytes. */
  function ToBe(n: nat, width: nat): (s: seq<byte>)
    ensures |s| == width
  {
    if width == 0 then [] else ToBe(n / 256, width - 1) + [n % 256]
  }

  /** `from_be_bytes`. */
  function FromBe(s: seq<byte>): (n: nat)
  {
    if s == [] then 0 else 256 * FromBe(s[..|s| - 1]) + s[|s| - 1]
  }

  lemma {:induction false} BeRoundTrip(n: nat, width: nat)
    requires n < Capacity(width)
    ensures FromBe(ToBe(n, width)) == n
  {
    if width > 0 {
      BeRoundTrip(n / 256, width - 1);
      assert ToBe(n, width)[..width - 1] == ToBe(n / 256, width - 1);
    }
  }

  lemma {:induction false} BeBytes(s: seq<byte>)
    ensures ToBe(FromBe(s), |s|) == s && FromBe(s) < Capacity(|s|)
  {
    if s != [] {
      BeBytes(s[..|s| - 1]);
      assert s == s[..|s| - 1] + [s[|s| - 1]];
      assert FromBe(s) / 256 == FromBe(s[..|s| - 1]) && FromBe(s) % 256 == s[|s| - 1];
    }
  }

  /** Least significant byte first. */
  lemma {:induction false} LeAt(n: nat, width: nat, i: nat)
    requires i < width
    ensures ToLe(n, width)[i] == n / Capacity(i) % 256
  {
    if i > 0 {
      LeAt(n / 256, width - 1, i - 1);
      Quotients(n, Capacity(i - 1));
    }
  }

  lemma Quotients(n: nat, c: nat)
    requires c > 0
    ensures n / 256 / c == n / (256 * c)
  {
    var q, r := n / 256, n % 256;
    var s, t := q / c, q % c;
    assert n == 256 * (c * s + t) + r;
    assert n == (256 * c) * s + (256 * t + r) by { Spread(c, s, t, r); }
    assert 0 <= 256 * t + r < 256 * c;
    Euclid(n, 256 * c, s, 256 * t + r);
  }

  lemma Spread(c: nat, s: nat, t: nat, r: nat)
    ensures 256 * (c * s + t) + r == (256 * c) * s + (256 * t + r)
  {
  }

  lemma Euclid(n: nat, d: nat, q: nat, r: nat)
    requires n == d * q + r && r < d
    ensures n / d == q
  {
    var q' := n / d;
    assert n == d * q' + n % d;
    Apart(d, q, q');
    NoMultiple(d, q - q', n % d - r);
  }

  lemma Apart(d: nat, a: nat, b: nat)
    ensures d * (a - b) == d * a - d * b
  {
  }

  lemma NoMultiple(d: nat, k: int, x: int)
    requires d * k == x && x < d && x + d > 0
    ensures k == 0
  {
  }

  /** Most significant byte first. */
  lemma {:induction false} BeAt(n: nat, width: nat, i: nat)
    requires i < width
    ensures ToBe(n, width)[i] == n / Capacity(width - 1 - i) % 256
  {
    if i < width - 1 {
      BeAt(n / 256, width - 1, i);
      Quotients(n, Capacity(width - 2 - i));
    }
  }

  /** The bytes of `n` stand at `at`, least significant first. */
  predicate LeField(s: seq<byte>, at: nat, width: nat, n: nat) {
    at + width <= |s| && forall i :: 0 <= i < width ==> s[at + i] == n / Capacity(i) % 256
  }

  /** Or most significant first. */
  predicate BeField(s: seq<byte>, at: nat, width: nat, n: nat) {
    at + width <= |s| && forall i :: 0 <= i < width ==> s[at + width - 1 - i] == n / Capacity(i) % 256
  }

  lemma LeFieldOf(s: seq<byte>, at: nat, width: nat, n: nat)
    requires at + width <= |s| && s[at..at + width] == ToLe(n, width)
    ensures LeField(s, at, width, n)
  {
    hide ToLe, Capacity;
    forall i | 0 <= i < width ensures s[at + i] == n / Capacity(i) % 256 {
      LeAt(n, width, i);
      assert s[at + i] == s[at..at + width][i];
    }
  }

  lemma BeFieldOf(s: seq<byte>, at: nat, width: nat, n: nat)
    requires at + width <= |s| && s[at..at + width] == ToBe(n, width)
    ensures BeField(s, at, width, n)
  {
    hide ToBe, Capacity;
    forall i | 0 <= i < width ensures s[at + width - 1 - i] == n / Capacity(i) % 256 {
      BeAt(n, width, width - 1 - i);
      assert s[at + width - 1 - i] == s[at..at + width][width - 1 - i];
    }
  }

  predicate Continuation(b: byte) {
    0x80 <= b <= 0xBF
  }

  /** Well-formed UTF-8 (table 3-7 of the Unicode Standard): what `String::from_utf8` accepts. */
  predicate ValidUtf8(s: seq<byte>) {
    if s == [] then true
    else if s[0] < 0x80 then ValidUtf8(s[1..])
    else if 0xC2 <= s[0] <= 0xDF then |s| >= 2 && Continuation(s[1]) && ValidUtf8(s[2..])
    else if 0xE0 <= s[0] <= 0xEF then
      && |s| >= 3
      && (if s[0] == 0xE0 then 0xA0 else 0x80) <= s[1] <= (if s[0] == 0xED then 0x9F else 0xBF)
      && Continuation(s[2])
      && ValidUtf8(s[3..])
    else if 0xF0 <= s[0] <= 0xF4 then
      && |s| >= 4
      && (if s[0] == 0xF0 then 0x90 else 0x80) <= s[1] <= (if s[0] == 0xF4 then 0x8F else 0xBF)
      && Continuation(s[2])
      && Continuation(s[3])
      && ValidUtf8(s[4..])
    else false
  }
}

/**
  Unpadded base64url (sections 3.5 and 5 of RFC 4648), as the numbers its bits spell. A text and the bytes it stands
  for are the same bit string cut into sixes and into eights; the encoder's chunk loop and the decoder's bit
  accumulator are proved to be that one correspondence, a bijection between byte strings and canonical texts.
 */
module Base64Url {
  import opened Bytes
  import opened Results

  /** The symbol of a six-bit value, as its ASCII code. */
  function Symbol(v: nat): (b: byte)
    requires v < 64
  {
    if v < 26 then 65 + v else if v < 52 then 97 + (v - 26) else if v < 62 then 48 + (v - 52)
    else if v == 62 then 45 else 95
  }

  /** The position of a symbol in the alphabet. */
  function ValueOf(b: byte): (r: Option<nat>)
    ensures r.Some? ==> r.value < 64 && Symbol(r.value) == b
    ensures r.None? ==> forall v: nat :: v < 64 ==> Symbol(v) != b
    ensures forall v: nat :: v < 64 && Symbol(v) == b ==> r == Some(v)
  {
    if 65 <= b < 91 then Some(b - 65) else if 97 <= b < 123 then Some(b - 97 + 26)
    else if 48 <= b < 58 then Some(b - 48 + 52) else if b == 45 then Some(62) else if b == 95 then Some(63) else None
  }

  /** The alphabet of section 5 of RFC 4648, in order. */
  const UPPER: string := "ABCDEFGHIJKLMNOPQRSTUVWXYZ"
  const LOWER: string := "abcdefghijklmnopqrstuvwxyz"
  const REST: string := "0123456789-_"

  lemma Alphabet(v: nat)
    requires v < 64
    ensures Symbol(v) as char == if v < 26 then UPPER[v] else if v < 52 then LOWER[v - 26] else REST[v - 52]
  {
  }

  function Pow2(n: nat): (p: nat)
    ensures p > 0
  {
    if n == 0 then 1 else 2 * Pow2(n - 1)
  }

  lemma Powers()
    ensures Pow2(0) == 1 && Pow2(2) == 4 && Pow2(4) == 16 && Pow2(6) == 64 && Pow2(8) == 256 && Pow2(10) == 1024
    ensures Pow2(12) == 4096 && Pow2(16) == 65_536 && Pow2(18) == 262_144 && Pow2(24) == 16_777_216
  {
    assert Pow2(4) == 2 * Pow2(3) == 4 * Pow2(2) && Pow2(6) == 4 * Pow2(4) by { assert Pow2(5) == 2 * Pow2(4); }
    assert Pow2(8) == 4 * Pow2(6) by { assert Pow2(7) == 2 * Pow2(6); }
    assert Pow2(10) == 4 * Pow2(8) by { assert Pow2(9) == 2 * Pow2(8); }
    assert Pow2(12) == 4 * Pow2(10) by { assert Pow2(11) == 2 * Pow2(10); }
    assert Pow2(14) == 4 * Pow2(12) by { assert Pow2(13) == 2 * Pow2(12); }
    assert Pow2(16) == 4 * Pow2(14) by { assert Pow2(15) == 2 * Pow2(14); }
    assert Pow2(18) == 4 * Pow2(16) by { assert Pow2(17) == 2 * Pow2(16); }
    assert Pow2(20) == 4 * Pow2(18) by { assert Pow2(19) == 2 * Pow2(18); }
    assert Pow2(22) == 4 * Pow2(20) by { assert Pow2(21) == 2 * Pow2(20); }
    assert Pow2(24) == 4 * Pow2(22) by { assert Pow2(23) == 2 * Pow2(22); }
  }

  // ---- the correspondence

  /** The last `k` six-bit digits of `n`. */
  function Symbols(n: nat, k: nat): (t: seq<byte>)
    ensures |t| == k
  {
    if k == 0 then [] else Symbols(n / 64, k - 1) + [Symbol(n % 64)]
  }

  predicate AllSymbols(t: seq<byte>) {
    forall i :: 0 <= i < |t| ==> ValueOf(t[i]).Some?
  }

  /** The number a text's symbols spell. */
  function Number(t: seq<byte>): nat
    requires AllSymbols(t)
  {
    if t == [] then 0 else 64 * Number(t[..|t| - 1]) + ValueOf(t[|t| - 1]).value
  }

  /** The zero bits an encoding of `n` bytes ends with. */
  function Spare(n: nat): nat {
    if n % 3 == 0 then 0 else if n % 3 == 1 then 4 else 2
  }

  function TextLength(n: nat): nat {
    (8 * n + Spare(n)) / 6
  }

  /** The text of some bytes: their bits, filled out with zeros to whole symbols. */
  function Encoded(bytes: seq<byte>): (t: seq<byte>)
    ensures |t| == TextLength(|bytes|)
  {
    Symbols(FromBe(bytes) * Pow2(Spare(|bytes|)), TextLength(|bytes|))
  }

  /** The bytes of a text, which is refused when it is not the text of any bytes. */
  function Decoded(t: seq<byte>): Option<seq<byte>> {
    if |t| % 4 == 1 || !AllSymbols(t) then None
    else
      var spare := 6 * |t| % 8;
      if Number(t) % Pow2(spare) != 0 then None else Some(ToBe(Number(t) / Pow2(spare), 6 * |t| / 8))
  }

  // ---- it is one to one

  lemma {:induction false} SymbolsNumber(n: nat, k: nat)
    requires n < Pow64(k)
    ensures AllSymbols(Symbols(n, k)) && Number(Symbols(n, k)) == n
  {
    if k > 0 {
      SymbolsNumber(n / 64, k - 1);
      assert Symbols(n, k)[..k - 1] == Symbols(n / 64, k - 1);
      assert ValueOf(Symbol(n % 64)) == Some(n % 64);
    }
  }

  function Pow64(k: nat): (p: nat)
    ensures p > 0
  {
    if k == 0 then 1 else 64 * Pow64(k - 1)
  }

  lemma {:induction false} NumberSymbols(t: seq<byte>)
    requires AllSymbols(t)
    ensures Number(t) < Pow64(|t|) && Symbols(Number(t), |t|) == t
  {
    if t != [] {
      var front := t[..|t| - 1];
      NumberSymbols(front);
      assert Number(t) / 64 == Number(front) && Number(t) % 64 == ValueOf(t[|t| - 1]).value;
      assert t == front + [t[|t| - 1]];
    }
  }

  /** A number of `n` bytes, shifted past the spare bits, fits the symbols its text has. */
  lemma {:induction false} ShiftedFits(n: nat)
    ensures Capacity(n) * Pow2(Spare(n)) == Pow64(TextLength(n))
  {
    Powers();
    if n < 3 {
      assert Capacity(1) == 256 * Capacity(0) && Capacity(2) == 256 * Capacity(1);
      assert Pow64(1) == 64 && Pow64(2) == 64 * Pow64(1) && Pow64(3) == 64 * Pow64(2);
    } else {
      ShiftedFits(n - 3);
      assert Spare(n) == Spare(n - 3) && TextLength(n) == TextLength(n - 3) + 4;
      assert Capacity(n) == 256 * Capacity(n - 1) == 65_536 * Capacity(n - 2) == 16_777_216 * Capacity(n - 3) by {
        assert Capacity(n - 1) == 256 * Capacity(n - 2);
      }
      FourMore(TextLength(n - 3));
      Regroup(Capacity(n - 3), Pow2(Spare(n)));
    }
  }

  lemma Regroup(c: nat, p: nat)
    ensures 16_777_216 * c * p == 16_777_216 * (c * p)
  {
  }

  lemma FourMore(k: nat)
    ensures Pow64(k + 4) == 16_777_216 * Pow64(k)
  {
    assert Pow64(k + 4) == 64 * Pow64(k + 3) && Pow64(k + 3) == 64 * Pow64(k + 2) && Pow64(k + 2) == 64 * Pow64(k + 1);
  }

  lemma TextLengthOf(q: nat, r: nat)
    requires r < 3
    ensures TextLength(3 * q + r) == 4 * q + (if r == 0 then 0 else r + 1) && Spare(3 * q + r) == Spare(r)
  {
    assert (3 * q + r) % 3 == r;
    if r == 0 { assert 24 * q / 6 == 4 * q; }
    else if r == 1 { assert (24 * q + 12) / 6 == 4 * q + 2; }
    else { assert (24 * q + 18) / 6 == 4 * q + 3; }
  }

  lemma Lengths(n: nat)
    ensures TextLength(n) % 4 != 1
    ensures 6 * TextLength(n) % 8 == Spare(n) && 6 * TextLength(n) / 8 == n
  {
    hide TextLength;
    var q, r := n / 3, n % 3;
    TextLengthOf(q, r);
    EightSplit(6 * TextLength(n), n, Spare(n));
    assert TextLength(n) == 4 * q + (if r == 0 then 0 else r + 1);
  }

  lemma EightSplit(x: nat, n: nat, bits: nat)
    requires x == 8 * n + bits && bits < 8
    ensures x / 8 == n && x % 8 == bits
  {
  }

  lemma BytesOfText(len: nat)
    requires len % 4 != 1
    ensures TextLength(6 * len / 8) == len && Spare(6 * len / 8) == 6 * len % 8
  {
    hide TextLength;
    var q, r := len / 4, if len % 4 == 0 then 0 else len % 4 - 1;
    TextLengthOf(q, r);
    EightSplit(6 * len, 3 * q + r, Spare(r));
  }

  lemma Times(a: nat, b: nat, p: nat)
    requires a < b
    ensures a * p + p <= b * p
  {
    if a + 1 < b { Times(a, b - 1, p); }
    assert (b - 1) * p + p == b * p;
  }

  lemma Multiply(a: nat, b: nat, p: nat)
    requires a < b && p > 0
    ensures a * p < b * p && a * p / p == a && a * p % p == 0
  {
    Times(a, b, p);
    Divided(a, p, 0);
  }

  lemma Divided(a: nat, p: nat, r: nat)
    requires r < p
    ensures (a * p + r) / p == a && (a * p + r) % p == r
  {
    var x := a * p + r;
    SameQuotient(x / p, x % p, a, r, p);
  }

  lemma SameQuotient(q: nat, m: nat, a: nat, r: nat, p: nat)
    requires q * p + m == a * p + r && m < p && r < p
    ensures q == a && m == r
  {
    if q < a { Times(q, a, p); } else if a < q { Times(a, q, p); }
  }

  lemma DividedTwice(n: nat, p: nat)
    requires p > 0
    ensures n / p / 64 == n / (64 * p)
  {
    var q, m := n / p, n % p;
    var q', m' := q / 64, q % 64;
    Times(m', 64, p);
    assert n == (q' * 64 + m') * p + m;
    assert (q' * 64 + m') * p + m == q' * (64 * p) + (m' * p + m);
    Divided(q', 64 * p, m' * p + m);
  }

  /** Decoding an encoding gives the bytes back. */
  lemma EncodedDecodes(bytes: seq<byte>)
    ensures Decoded(Encoded(bytes)) == Some(bytes)
  {
    hide Capacity, FromBe, ToBe, Symbols, Number, Pow2, Pow64, Spare, TextLength;
    var p := Pow2(Spare(|bytes|));
    BeBytes(bytes);
    ShiftedFits(|bytes|);
    Multiply(FromBe(bytes), Capacity(|bytes|), p);
    SymbolsNumber(FromBe(bytes) * p, TextLength(|bytes|));
    Lengths(|bytes|);
  }

  /** A text that decodes is the text of what it decodes to. */
  lemma DecodedEncodes(t: seq<byte>)
    requires Decoded(t).Some?
    ensures Encoded(Decoded(t).value) == t
  {
    hide Capacity, FromBe, ToBe, Symbols, Number, Pow2, Pow64, Spare, TextLength;
    var spare := 6 * |t| % 8;
    var n := Number(t) / Pow2(spare);
    var x := Decoded(t).value;
    BytesOfText(|t|);
    NumberSymbols(t);
    ShiftedFits(|x|);
    assert Number(t) == n * Pow2(spare);
    Cancels(n, Capacity(|x|), Pow2(spare));
    BeRoundTrip(n, |x|);
  }

  lemma Cancels(a: nat, b: nat, p: nat)
    requires a * p < b * p && p > 0
    ensures a < b
  {
    if b < a { Times(b, a, p); }
  }

  /** Texts and bytes correspond one to one: a text decodes to some bytes exactly when it is their encoding. */
  lemma Bijection(t: seq<byte>, bytes: seq<byte>)
    ensures Decoded(t) == Some(bytes) <==> t == Encoded(bytes)
  {
    hide Decoded, Encoded;
    EncodedDecodes(bytes);
    if Decoded(t) == Some(bytes) { DecodedEncodes(t); }
  }

  // ---- the encoder

  lemma {:induction false} SymbolsAppend(m: nat, j: nat, r: nat, k: nat)
    requires r < Pow64(k)
    ensures Symbols(m * Pow64(k) + r, j + k) == Symbols(m, j) + Symbols(r, k)
  {
    if k == 0 {
      assert m * Pow64(0) + r == m && Symbols(m, j) + [] == Symbols(m, j);
    } else {
      var p := Pow64(k - 1);
      assert m * Pow64(k) == 64 * (m * p);
      assert (m * Pow64(k) + r) / 64 == m * p + r / 64 && (m * Pow64(k) + r) % 64 == r % 64;
      SymbolsAppend(m, j, r / 64, k - 1);
      assert Symbols(m, j) + Symbols(r / 64, k - 1) + [Symbol(r % 64)]
             == Symbols(m, j) + (Symbols(r / 64, k - 1) + [Symbol(r % 64)]);
    }
  }

  lemma {:induction false} BytesAppend(a: seq<byte>, c: seq<byte>)
    ensures FromBe(a + c) == FromBe(a) * Capacity(|c|) + FromBe(c)
  {
    if c == [] {
      assert a + c == a;
    } else {
      var front := c[..|c| - 1];
      BytesAppend(a, front);
      assert (a + c)[..|a + c| - 1] == a + front && (a + c)[|a + c| - 1] == c[|c| - 1];
      Carry(FromBe(a), Capacity(|front|), FromBe(front), c[|c| - 1]);
    }
  }

  lemma Carry(a: nat, c: nat, f: nat, b: nat)
    ensures 256 * (a * c + f) + b == a * (256 * c) + (256 * f + b)
  {
  }

  /** The text after a chunk is the text before it and the chunk's own, when only whole chunks came before. */
  lemma EncodedAppend(a: seq<byte>, c: seq<byte>)
    requires |a| % 3 == 0
    ensures Encoded(a + c) == Encoded(a) + Encoded(c)
  {
    hide FromBe, Symbols, Pow64, Capacity, Pow2, Spare, TextLength;
    LengthsAdd(|a|, |c|);
    var p := Pow2(Spare(|c|));
    BytesAppend(a, c);
    ShiftedFits(|c|);
    BeBytes(c);
    Multiply(FromBe(c), Capacity(|c|), p);
    Spread(FromBe(a), Capacity(|c|), FromBe(c), p);
    SymbolsAppend(FromBe(a), TextLength(|a|), FromBe(c) * p, TextLength(|c|));
  }

  lemma LengthsAdd(a: nat, c: nat)
    requires a % 3 == 0
    ensures Spare(a + c) == Spare(c) && TextLength(a + c) == TextLength(a) + TextLength(c) && Pow2(Spare(a)) == 1
  {
    hide TextLength;
    TextLengthOf(a / 3, 0);
    TextLengthOf(c / 3, c % 3);
    TextLengthOf(a / 3 + c / 3, c % 3);
  }

  lemma Spread(a: nat, b: nat, c: nat, p: nat)
    ensures (a * b + c) * p == a * (b * p) + c * p
  {
  }

  /** A chunk's bytes as the top bits of twenty-four. */
  method Gather(chunk: seq<byte>) returns (n: nat)
    requires 1 <= |chunk| <= 3
    ensures n == FromBe(chunk) * Pow2(8 * (3 - |chunk|))
  {
    n := 0;
    var i := 0;
    Powers();
    while i < |chunk|
      invariant 0 <= i <= |chunk|
      invariant n == FromBe(chunk[..i]) * (if i == 0 then 16_777_216 else Pow2(8 * (3 - i)))
    {
      n := n + chunk[i] * Pow2(16 - 8 * i);
      assert chunk[..i + 1][..i] == chunk[..i];
      i := i + 1;
    }
    assert chunk[..i] == chunk;
  }

  /** The top symbols of a chunk's bits are the chunk's text. */
  lemma TopSymbols(chunk: seq<byte>)
    requires 1 <= |chunk| <= 3
    ensures var n := FromBe(chunk) * Pow2(8 * (3 - |chunk|));
            Encoded(chunk) == Symbols(n / Pow64(3 - |chunk|), |chunk| + 1)
  {
    hide FromBe, Symbols;
    Powers();
    assert Pow64(1) == 64 && Pow64(2) == 64 * Pow64(1);
    var v := FromBe(chunk);
    if |chunk| == 1 {
      assert v * 65_536 / 4096 == v * 16;
    } else if |chunk| == 2 {
      assert v * 256 / 64 == v * 4;
    }
  }

  lemma NextSymbol(n: nat, p: nat, k: nat)
    requires p > 0
    ensures Symbols(n / p, k + 1) == Symbols(n / (64 * p), k) + [Symbol(n / p % 64)]
  {
    DividedTwice(n, p);
  }

  /** One chunk's symbols, from the most significant six bits down: the shift by `18 - 6 * i` bits is a division. */
  method Emit(out: seq<byte>, chunk: seq<byte>) returns (r: seq<byte>)
    requires 1 <= |chunk| <= 3
    ensures r == out + Encoded(chunk)
  {
    hide Symbols, Encoded, FromBe, Symbol;
    var n := Gather(chunk);
    r := out;
    var i := 0;
    while i <= |chunk|
      invariant 0 <= i <= |chunk| + 1
      invariant r == out + Symbols(n / Pow64(4 - i), i)
    {
      assert Pow64(4 - i) == 64 * Pow64(3 - i);
      NextSymbol(n, Pow64(3 - i), i);
      r := r + [Symbol(n / Pow64(3 - i) % 64)];
      i := i + 1;
    }
    TopSymbols(chunk);
  }

  /** `b64url`: the encoder, chunk by chunk. */
  method Encode(bytes: seq<byte>) returns (out: seq<byte>)
    ensures out == Encoded(bytes)
  {
    hide Encoded;
    out := [];
    var at := 0;
    assert Encoded(bytes[..0]) == [] by { EncodedEmpty(); }
    while at < |bytes|
      invariant 0 <= at <= |bytes| && (at % 3 == 0 || at == |bytes|)
      invariant out == Encoded(bytes[..at])
    {
      var next := if at + 3 <= |bytes| then at + 3 else |bytes|;
      EncodedAppend(bytes[..at], bytes[at..next]);
      assert bytes[..at] + bytes[at..next] == bytes[..next];
      out := Emit(out, bytes[at..next]);
      at := next;
    }
    assert bytes[..at] == bytes;
  }

  lemma EncodedEmpty()
    ensures Encoded([]) == []
  {
  }

  // ---- the decoder

  /** The text's bits so far are the bytes put out and the bits still held. */
  predicate Held(t: seq<byte>, out: seq<byte>, acc: nat, bits: nat) {
    && AllSymbols(t)
    && bits in {0, 2, 4, 6} && acc < Pow2(bits)
    && 6 * |t| == 8 * |out| + bits
    && Number(t) == FromBe(out) * Pow2(bits) + acc
  }

  lemma NumberSnoc(t: seq<byte>, b: byte)
    requires AllSymbols(t) && ValueOf(b).Some?
    ensures AllSymbols(t + [b]) && Number(t + [b]) == 64 * Number(t) + ValueOf(b).value
  {
    assert (t + [b])[..|t|] == t;
  }

  lemma BytesSnoc(out: seq<byte>, b: byte)
    ensures FromBe(out + [b]) == 256 * FromBe(out) + b
  {
    assert (out + [b])[..|out|] == out;
  }

  /** Six more bits are held, and eight of them go out as soon as there are eight. */
  lemma HeldStep(t: seq<byte>, out: seq<byte>, acc: nat, bits: nat, b: byte)
    requires Held(t, out, acc, bits) && ValueOf(b).Some?
    ensures var acc', bits' := acc * 64 + ValueOf(b).value, bits + 6;
            if bits' < 8 then Held(t + [b], out, acc', bits')
            else acc' / Pow2(bits' - 8) < 256
                 && Held(t + [b], out + [acc' / Pow2(bits' - 8)], acc' % Pow2(bits' - 8), bits' - 8)
  {
    hide Number, FromBe, AllSymbols, ValueOf, Pow2;
    Powers();
    NumberSnoc(t, b);
    var v, n := ValueOf(b).value, FromBe(out);
    if bits > 0 {
      EightOut(n, acc, bits, v);
      var top := (acc * 64 + v) / Pow2(bits - 2);
      BytesSnoc(out, top);
      assert |out + [top]| == |out| + 1;
    }
  }

  /** Taking eight bits off the top of those held, in numbers. */
  lemma EightOut(n: nat, acc: nat, bits: nat, v: nat)
    requires bits in {2, 4, 6} && acc < Pow2(bits) && v < 64
    ensures var acc' := acc * 64 + v;
            var top := acc' / Pow2(bits - 2);
            top < 256 && 64 * (n * Pow2(bits) + acc) + v == (256 * n + top) * Pow2(bits - 2) + acc' % Pow2(bits - 2)
  {
    hide Pow2;
    Powers();
    if bits == 2 {
    } else if bits == 4 {
    } else {
    }
  }

  /** `b64url_decode`: the decoder, symbol by symbol. */
  method Decode(s: seq<byte>) returns (r: Option<seq<byte>>)
    ensures r == Decoded(s)
  {
    hide Held, Decoded, Pow2, ValueOf;
    if |s| % 4 == 1 {
      Refused(s, 0);
      return None;
    }
    var out: seq<byte>, acc: nat, bits: nat, i := [], 0, 0, 0;
    HeldEmpty();
    assert s[..0] == [];
    while i < |s|
      invariant 0 <= i <= |s|
      invariant Held(s[..i], out, acc, bits)
    {
      var v := ValueOf(s[i]);
      if v.None? {
        Refused(s, i);
        return None;
      }
      HeldStep(s[..i], out, acc, bits, s[i]);
      assert s[..i + 1] == s[..i] + [s[i]];
      acc := acc * 64 + v.value;
      bits := bits + 6;
      if bits >= 8 {
        bits := bits - 8;
        out := out + [acc / Pow2(bits)];
        acc := acc % Pow2(bits);
      }
      i := i + 1;
    }
    assert s[..i] == s;
    HeldEnds(s, out, acc, bits);
    r := if acc == 0 then Some(out) else None;
  }

  lemma Refused(s: seq<byte>, i: nat)
    requires i < |s| && (|s| % 4 == 1 || ValueOf(s[i]).None?)
    ensures Decoded(s) == None
  {
  }

  lemma HeldEmpty()
    ensures Held([], [], 0, 0)
  {
  }

  /** At the end the bits still held are the text's spare bits. */
  lemma HeldEnds(s: seq<byte>, out: seq<byte>, acc: nat, bits: nat)
    requires Held(s, out, acc, bits) && |s| % 4 != 1
    ensures Decoded(s) == if acc == 0 then Some(out) else None
  {
    hide Number, FromBe, AllSymbols, Pow2, ToBe;
    Divided(FromBe(out), Pow2(bits), acc);
    BeBytes(out);
    EightSplit(6 * |s|, |out|, bits);
  }
}

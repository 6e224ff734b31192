/**
  The fixed 64-byte record kept beside a cached JSON body: the stamp of the body it describes, and the body's digest.
 */
module SidecarCodec {
  import opened Bytes
  import opened Results

  type u32 = n: nat | n < U32_LIMIT
  type u64 = n: nat | n < U64_LIMIT

  /** A digest cut to 128 bits. */
  type Tag = t: seq<byte> | |t| == 16 witness seq(16, _ => 0)

  /** What names one generation of a file. */
  datatype Stamp = Stamp(len: u64, seconds: u64, nanos: u32, device: u64, inode: u64)

  const META_LEN := 64
  const MAGIC: seq<byte> := [68, 69, 78, 74, 83, 79, 78, 50]
  const JSON_CONTENT_TYPE: byte := 1
  const IDENTITY_ENCODING: byte := 0

  /** The record's bytes, with two reserved ones that are written as zero. */
  function Encoded(stamp: Stamp, tag: Tag): (out: seq<byte>)
    ensures |out| == META_LEN
  {
    MAGIC + ToBe(stamp.len, 8) + ToBe(stamp.seconds, 8) + ToBe(stamp.nanos, 4)
    + [JSON_CONTENT_TYPE, IDENTITY_ENCODING, 0, 0]
    + ToBe(stamp.device, 8) + ToBe(stamp.inode, 8) + tag
  }

  /** `decode_json_meta` of a record of the right length; one of another length is not read at all. */
  function Read(bytes: seq<byte>, expected: Stamp): Option<Tag> {
    if |bytes| != META_LEN then None
    else if bytes[..8] != MAGIC
            || FromBe(bytes[8..16]) != expected.len || FromBe(bytes[16..24]) != expected.seconds
            || FromBe(bytes[24..28]) != expected.nanos
            || FromBe(bytes[32..40]) != expected.device || FromBe(bytes[40..48]) != expected.inode
            || bytes[28] != JSON_CONTENT_TYPE || bytes[29] != IDENTITY_ENCODING then None
    else Some(bytes[48..64])
  }

  /** A field holds a number exactly when it holds the number's own bytes. */
  lemma Field(bytes: seq<byte>, n: nat)
    requires n < Capacity(|bytes|)
    ensures FromBe(bytes) == n <==> bytes == ToBe(n, |bytes|)
  {
    BeRoundTrip(n, |bytes|);
    BeBytes(bytes);
  }

  predicate Fields(bytes: seq<byte>, stamp: Stamp, tag: Tag)
    requires |bytes| == META_LEN
  {
    && bytes[..8] == MAGIC && bytes[8..16] == ToBe(stamp.len, 8) && bytes[16..24] == ToBe(stamp.seconds, 8)
    && bytes[24..28] == ToBe(stamp.nanos, 4) && bytes[28] == JSON_CONTENT_TYPE && bytes[29] == IDENTITY_ENCODING
    && bytes[32..40] == ToBe(stamp.device, 8) && bytes[40..48] == ToBe(stamp.inode, 8) && bytes[48..64] == tag
  }

  lemma EncodedFields(stamp: Stamp, tag: Tag)
    ensures Fields(Encoded(stamp, tag), stamp, tag)
  {
    hide ToBe;
  }

  /** Where each field of the record stands, byte by byte. */
  lemma RecordLayout(stamp: Stamp, tag: Tag)
    ensures var s := Encoded(stamp, tag);
            && |s| == 64 && s[..8] == [68, 69, 78, 74, 83, 79, 78, 50]
            && BeField(s, 8, 8, stamp.len) && BeField(s, 16, 8, stamp.seconds) && BeField(s, 24, 4, stamp.nanos)
            && s[28..32] == [1, 0, 0, 0]
            && BeField(s, 32, 8, stamp.device) && BeField(s, 40, 8, stamp.inode) && s[48..] == tag
  {
    hide BeField, ToBe;
    var s := Encoded(stamp, tag);
    EncodedFields(stamp, tag);
    BeFieldOf(s, 8, 8, stamp.len);
    BeFieldOf(s, 16, 8, stamp.seconds);
    BeFieldOf(s, 24, 4, stamp.nanos);
    BeFieldOf(s, 32, 8, stamp.device);
    BeFieldOf(s, 40, 8, stamp.inode);
    assert s[48..] == s[48..64];
  }

  lemma ReadIsFields(bytes: seq<byte>, stamp: Stamp, tag: Tag)
    requires |bytes| == META_LEN
    ensures Read(bytes, stamp) == Some(tag) <==> Fields(bytes, stamp, tag)
  {
    hide FromBe, ToBe, Capacity;
    CapacityOfWords();
    Field(bytes[8..16], stamp.len);
    Field(bytes[16..24], stamp.seconds);
    Field(bytes[24..28], stamp.nanos);
    Field(bytes[32..40], stamp.device);
    Field(bytes[40..48], stamp.inode);
  }

  /** A record is read for a stamp as a digest exactly when, its two reserved bytes aside, it is the record of both. */
  lemma ReadExactly(bytes: seq<byte>, stamp: Stamp, tag: Tag)
    requires |bytes| == META_LEN
    ensures Read(bytes, stamp) == Some(tag) <==> bytes[30 := 0][31 := 0] == Encoded(stamp, tag)
  {
    hide Read, FromBe, ToBe, Encoded;
    ReadIsFields(bytes, stamp, tag);
    EncodedFields(stamp, tag);
    Assembled(bytes, stamp, tag);
  }

  lemma Assembled(bytes: seq<byte>, stamp: Stamp, tag: Tag)
    requires |bytes| == META_LEN
    ensures Fields(bytes, stamp, tag) <==> bytes[30 := 0][31 := 0] == Encoded(stamp, tag)
  {
    hide ToBe;
    var z := bytes[30 := 0][31 := 0];
    EncodedFields(stamp, tag);
    assert z[..8] == bytes[..8] && z[8..16] == bytes[8..16] && z[16..24] == bytes[16..24] && z[24..28] == bytes[24..28];
    assert z[32..40] == bytes[32..40] && z[40..48] == bytes[40..48] && z[48..64] == bytes[48..64];
    if Fields(bytes, stamp, tag) {
      assert z == z[..8] + z[8..16] + z[16..24] + z[24..28] + [z[28], z[29], 0, 0] + z[32..40] + z[40..48] + z[48..64];
    }
  }

  /** A written record is read back only for its own stamp. */
  lemma RoundTrip(stamp: Stamp, tag: Tag, expected: Stamp)
    ensures Read(Encoded(stamp, tag), expected) == if stamp == expected then Some(tag) else None
  {
    hide Read, Encoded, FromBe, ToBe;
    var bytes := Encoded(stamp, tag);
    assert bytes[30] == 0 && bytes[31] == 0 by { Reserved(stamp, tag); }
    assert bytes[30 := 0][31 := 0] == bytes;
    ReadExactly(bytes, stamp, tag);
    if Read(bytes, expected).Some? {
      var found := Read(bytes, expected).value;
      ReadExactly(bytes, expected, found);
      SameRecord(stamp, tag, expected, found);
    }
  }

  lemma Reserved(stamp: Stamp, tag: Tag)
    ensures Encoded(stamp, tag)[30] == 0 && Encoded(stamp, tag)[31] == 0
  {
    hide ToBe;
  }

  lemma SameRecord(a: Stamp, x: Tag, b: Stamp, y: Tag)
    requires Encoded(a, x) == Encoded(b, y)
    ensures a == b && x == y
  {
    hide Encoded, ToBe, FromBe, Capacity;
    EncodedFields(a, x);
    EncodedFields(b, y);
    CapacityOfWords();
    BeRoundTrip(a.len, 8);
    BeRoundTrip(b.len, 8);
    BeRoundTrip(a.seconds, 8);
    BeRoundTrip(b.seconds, 8);
    BeRoundTrip(a.nanos, 4);
    BeRoundTrip(b.nanos, 4);
    BeRoundTrip(a.device, 8);
    BeRoundTrip(b.device, 8);
    BeRoundTrip(a.inode, 8);
    BeRoundTrip(b.inode, 8);
  }

  // ---- filling the buffer

  method Copy(out: array<byte>, at: nat, part: seq<byte>)
    requires at + |part| <= out.Length
    modifies out
    ensures out[..at + |part|] == old(out[..at]) + part
    ensures forall i :: at + |part| <= i < out.Length ==> out[i] == old(out[i])
  {
    for i := 0 to |part|
      invariant out[..at + i] == old(out[..at]) + part[..i]
      invariant forall j :: at + i <= j < out.Length ==> out[j] == old(out[j])
    {
      out[at + i] := part[i];
      assert out[..at + i + 1] == out[..at + i] + [part[i]];
      assert part[..i + 1] == part[..i] + [part[i]];
    }
    assert part[..|part|] == part;
  }

  /** `encode_json_meta`: a zeroed buffer filled field by field. */
  method Encode(stamp: Stamp, tag: Tag) returns (r: seq<byte>)
    ensures r == Encoded(stamp, tag)
  {
    hide ToBe, Encoded;
    var out := new byte[META_LEN](_ => 0);
    Copy(out, 0, MAGIC);
    Copy(out, 8, ToBe(stamp.len, 8));
    Copy(out, 16, ToBe(stamp.seconds, 8));
    Copy(out, 24, ToBe(stamp.nanos, 4));
    Copy(out, 28, [JSON_CONTENT_TYPE, IDENTITY_ENCODING]);
    ghost var head := MAGIC + ToBe(stamp.len, 8) + ToBe(stamp.seconds, 8) + ToBe(stamp.nanos, 4)
                      + [JSON_CONTENT_TYPE, IDENTITY_ENCODING];
    assert out[..30] == head;
    assert out[..32] == head + [0, 0] by { assert out[30] == 0 && out[31] == 0; }
    Copy(out, 32, ToBe(stamp.device, 8));
    Copy(out, 40, ToBe(stamp.inode, 8));
    Copy(out, 48, tag);
    r := out[..];
    assert r == out[..64];
    Layout(stamp, tag);
  }

  lemma Layout(stamp: Stamp, tag: Tag)
    ensures Encoded(stamp, tag)
            == (MAGIC + ToBe(stamp.len, 8) + ToBe(stamp.seconds, 8) + ToBe(stamp.nanos, 4)
                + [JSON_CONTENT_TYPE, IDENTITY_ENCODING] + [0, 0])
               + ToBe(stamp.device, 8) + ToBe(stamp.inode, 8) + tag
  {
    hide ToBe;
    assert [JSON_CONTENT_TYPE, IDENTITY_ENCODING] + [0, 0] == [JSON_CONTENT_TYPE, IDENTITY_ENCODING, 0, 0];
  }
}

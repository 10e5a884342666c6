/**
 * FLV framing as the converter writes it: the 13-byte file header (signature,
 * version 1, audio and video flags, header size 9, then a zero
 * PreviousTagSize0) and one tag per message, laid out as in section E.4.1 of
 * Adobe's FLV file format specification: an 11-byte tag header, the payload,
 * and the tag's total size as a 4-byte trailer.
 *
 * A reader for the same layout is the partner of the writer: it takes back
 * every tag the writer produces.
 */
module Flv {
  import opened Wrappers
  import opened Bytes
  import opened Messages

  /** `FLV_HEADER`: "FLV", version 1, flags 5 (audio and video), data offset 9, PreviousTagSize0 = 0. */
  const FlvHeader: seq<byte> := [0x46, 0x4C, 0x56, 1, 5, 0, 0, 0, 9, 0, 0, 0, 0]

  /**
   * The file header holds the signature "FLV", version 1, the flags byte with
   * both the audio (4) and the video (1) bit set, the 32-bit big-endian
   * header size 9 (which is where the first PreviousTagSize starts), and a
   * zero 32-bit PreviousTagSize0.
   */
  lemma FlvHeaderLayout()
    ensures |FlvHeader| == 13 && FlvHeader[..3] == [0x46, 0x4C, 0x56] && FlvHeader[3] == 1
    ensures FlvHeader[4] as nat / 4 % 2 == 1 && FlvHeader[4] as nat % 2 == 1
    ensures BeUint(FlvHeader[5..9]) == 9 && BeUint(FlvHeader[9..]) == 0
  {
    var z1: seq<byte>, z2: seq<byte>, z3: seq<byte> := [0], [0, 0], [0, 0, 0];
    assert z1[..0] == [] && z2[..1] == z1 && z3[..2] == z2;
    assert BeUint(z1) == 0 && BeUint(z2) == 0 && BeUint(z3) == 0;
    assert FlvHeader[5..9][..3] == z3 && FlvHeader[9..][..3] == z3;
  }

  /**
   * The first struct the tag writer packs (`>BHBHBB`): the type, the payload
   * length split into its upper 16 and lower 8 bits, and the timestamp split
   * into bits 8-23, bits 0-7 and bits 24-31.
   */
  function TagHeader(t: byte, n: nat, ts: nat): seq<byte>
    requires n < 0x100_0000 && ts < 0x1_0000_0000
  {
    var sizeHigh, tsMiddle := n / 256, ts / 256 % 0x1_0000;
    [t, (sizeHigh / 256) as byte, (sizeHigh % 256) as byte, (n % 256) as byte,
     (tsMiddle / 256) as byte, (tsMiddle % 256) as byte, (ts % 256) as byte, (ts / 0x100_0000) as byte]
  }

  /** The trailer struct (`>I`): a 32-bit big-endian value. */
  function Be32(x: nat): seq<byte>
    requires x < 0x1_0000_0000
  {
    [(x / 0x100_0000) as byte, (x / 0x1_0000 % 256) as byte, (x / 256 % 256) as byte, (x % 256) as byte]
  }

  /**
   * The bytes `get_flv_data` writes for a message: the tag header, a zero
   * stream id, the payload and the trailing size. Packing fails, and there is
   * no tag, when the payload length needs more than 24 bits or the timestamp
   * is negative or needs more than 32 bits.
   */
  function FlvTag(m: Message): (r: Option<seq<byte>>)
    ensures r.Some? <==> |m.data| < 0x100_0000 && 0 <= m.timestamp < 0x1_0000_0000
    ensures r.Some? ==> |r.value| == |m.data| + 15
  {
    var n := |m.data|;
    if n < 0x100_0000 && 0 <= m.timestamp < 0x1_0000_0000 then
      Some(TagHeader(m.msgType, n, m.timestamp) + [0, 0, 0] + m.data + Be32(n + 11))
    else None
  }

  /** Whether the writer can frame `m`. */
  predicate Framable(m: Message) {
    |m.data| < 0x100_0000 && 0 <= m.timestamp < 0x1_0000_0000
  }

  lemma BeUint3(a: byte, b: byte, c: byte)
    ensures BeUint([a, b, c]) == a as int * 0x1_0000 + b as int * 256 + c as int
  {
    var s: seq<byte> := [a, b, c];
    assert s[..2] == [a, b] && s[..2][..1] == [a] && s[..2][..1][..0] == [];
    assert BeUint([a]) == a as int;
    assert BeUint([a, b]) == a as int * 256 + b as int;
  }

  lemma BeUint4(a: byte, b: byte, c: byte, d: byte)
    ensures BeUint([a, b, c, d]) == a as int * 0x100_0000 + b as int * 0x1_0000 + c as int * 256 + d as int
  {
    var s: seq<byte> := [a, b, c, d];
    assert s[..3] == [a, b, c];
    BeUint3(a, b, c);
  }

  /**
   * The tag written for a framable message, field by field as the FLV
   * specification lays it out: the type, a 24-bit big-endian payload size,
   * the low 24 bits of the timestamp big-endian, the timestamp's upper 8
   * bits, a zero 24-bit stream id, the payload, and the payload size plus 11.
   */
  lemma TagLayout(m: Message)
    requires Framable(m)
    ensures var t, n := FlvTag(m).value, |m.data|;
            |t| == n + 15 && t[0] == m.msgType
            && BeUint(t[1..4]) == n
            && BeUint(t[4..7]) == m.timestamp % 0x100_0000 && t[7] as int == m.timestamp / 0x100_0000
            && t[8..11] == [0, 0, 0]
            && t[11..11 + n] == m.data
            && BeUint(t[11 + n..]) == n + 11
  {
    var n, ts := |m.data|, m.timestamp;
    var t := FlvTag(m).value;
    var h := TagHeader(m.msgType, n, ts);
    assert t[1..4] == [h[1], h[2], h[3]];
    assert t[4..7] == [h[4], h[5], h[6]];
    assert t[11 + n..] == Be32(n + 11);
    BeUint3(h[1], h[2], h[3]);
    BeUint3(h[4], h[5], h[6]);
    var e := Be32(n + 11);
    BeUint4(e[0], e[1], e[2], e[3]);
    SplitSize(n);
    SplitTimestamp(ts);
    SplitTrailer(n + 11);
  }

  lemma SplitSize(n: nat)
    ensures (n / 256 / 256) * 0x1_0000 + (n / 256 % 256) * 256 + n % 256 == n
  {
  }

  /** Bits 16-23, 8-15 and 0-7 of `ts` make up its low 24 bits. */
  lemma SplitTimestamp(ts: nat)
    ensures (ts / 256 % 0x1_0000 / 256) * 0x1_0000 + (ts / 256 % 0x1_0000 % 256) * 256 + ts % 256 == ts % 0x100_0000
  {
    var q, r := ts / 256, ts % 256;
    var a, b := q / 0x1_0000, q % 0x1_0000;
    assert ts == 0x100_0000 * a + (256 * b + r);
  }

  lemma SplitTrailer(x: nat)
    requires x < 0x1_0000_0000
    ensures (x / 0x100_0000) * 0x100_0000 + (x / 0x1_0000 % 256) * 0x1_0000 + (x / 256 % 256) * 256 + x % 256 == x
  {
    var q1, r0 := x / 256, x % 256;
    var q2, r1 := q1 / 256, q1 % 256;
    var q3, r2 := q2 / 256, q2 % 256;
    assert x == 256 * q1 + r0;
    assert q1 == 256 * q2 + r1;
    assert q2 == 256 * q3 + r2;
    assert x == 0x1_0000 * q2 + (256 * r1 + r0);
    assert x / 0x1_0000 == q2;
    assert x == 0x100_0000 * q3 + (0x1_0000 * r2 + 256 * r1 + r0);
    assert x / 0x100_0000 == q3;
  }

  /** A tag as a reader sees it: the stream id field is always zero and is not kept. */
  datatype Tag = Tag(tagType: byte, timestamp: nat, data: seq<byte>)

  /** The tag recorded for a message. */
  function TagOf(m: Message): Tag
    requires Framable(m)
  {
    Tag(m.msgType, m.timestamp, m.data)
  }

  /**
   * Reads the tag at `pos` of an FLV file: fails if the header or payload is
   * cut short, the stream id is not zero, or the trailer does not hold the
   * payload size plus 11.
   */
  function ReadTag(f: seq<byte>, pos: nat): (r: Option<Read<Tag>>)
    requires pos <= |f|
    ensures r.Some? ==> pos + 15 <= r.value.next <= |f|
    ensures r.Some? ==> r.value.next == pos + 15 + |r.value.value.data|
  {
    if pos + 11 > |f| then None
    else
      var size := BeUint(f[pos + 1..pos + 4]);
      var ts := BeUint(f[pos + 4..pos + 7]) + f[pos + 7] as int * 0x100_0000;
      if BeUint(f[pos + 8..pos + 11]) != 0 || pos + 15 + size > |f| then None
      else if BeUint(f[pos + 11 + size..pos + 15 + size]) != size + 11 then None
      else Some(Read(Tag(f[pos], ts, f[pos + 11..pos + 11 + size]), pos + 15 + size))
  }

  /** Reads tags from `pos` to the end of the file; fails if any tag is malformed. */
  function ReadTags(f: seq<byte>, pos: nat): Option<seq<Tag>>
    requires pos <= |f|
    decreases |f| - pos
  {
    if pos == |f| then Some([])
    else
      match ReadTag(f, pos)
      case None => None
      case Some(r) =>
        match ReadTags(f, r.next)
        case None => None
        case Some(rest) => Some([r.value] + rest)
  }

  /** Reads a whole FLV file: the header, then tags to the end. */
  function ReadFlv(f: seq<byte>): Option<seq<Tag>> {
    if |f| < |FlvHeader| || f[..|FlvHeader|] != FlvHeader then None
    else ReadTags(f, |FlvHeader|)
  }

  lemma SliceOfSlice<T>(s: seq<T>, a: nat, b: nat, i: nat, j: nat)
    requires a <= b <= |s| && i <= j <= b - a
    ensures s[a..b][i..j] == s[a + i..a + j]
  {
    forall k | 0 <= k < j - i
      ensures s[a..b][i..j][k] == s[a + i..a + j][k]
    {
      assert s[a..b][i..j][k] == s[a..b][i + k] == s[a + i + k];
    }
  }

  lemma ZeroField()
    ensures BeUint([0, 0, 0]) == 0
  {
    var z: seq<byte> := [0, 0, 0];
    assert z[..2] == [0, 0] && z[..2][..1] == [0] && z[..2][..1][..0] == [];
  }

  /** A tag written at `pos` is read back whole, and reading goes on after it. */
  lemma ReadWrittenTag(m: Message, f: seq<byte>, pos: nat)
    requires Framable(m)
    requires pos + |FlvTag(m).value| <= |f| && f[pos..pos + |FlvTag(m).value|] == FlvTag(m).value
    ensures ReadTag(f, pos) == Some(Read(TagOf(m), pos + |FlvTag(m).value|))
  {
    var t := FlvTag(m).value;
    TagLayout(m);
    assert m.timestamp % 0x100_0000 + (m.timestamp / 0x100_0000) * 0x100_0000 == m.timestamp;
    ReadLaidOutTag(f, pos, t, m.msgType, m.timestamp, m.data);
  }

  /** Bytes laid out as a tag of type `typ` at timestamp `ts` carrying `data`, found at `pos`, read back as that tag. */
  lemma ReadLaidOutTag(f: seq<byte>, pos: nat, t: seq<byte>, typ: byte, ts: nat, data: seq<byte>)
    requires |t| == |data| + 15 && t[0] == typ && BeUint(t[1..4]) == |data|
    requires BeUint(t[4..7]) + t[7] as int * 0x100_0000 == ts && t[8..11] == [0, 0, 0]
    requires t[11..11 + |data|] == data && BeUint(t[11 + |data|..]) == |data| + 11
    requires pos + |t| <= |f| && f[pos..pos + |t|] == t
    ensures ReadTag(f, pos) == Some(Read(Tag(typ, ts, data), pos + |t|))
  {
    var n := |data|;
    assert t[11 + n..15 + n] == t[11 + n..];
    assert f[pos] == t[0];
    SliceOfSlice(f, pos, pos + |t|, 1, 4);
    SliceOfSlice(f, pos, pos + |t|, 4, 7);
    assert f[pos + 7] == t[7];
    SliceOfSlice(f, pos, pos + |t|, 8, 11);
    ZeroField();
    SliceOfSlice(f, pos, pos + |t|, 11, 11 + n);
    SliceOfSlice(f, pos, pos + |t|, 11 + n, 15 + n);
    ReadTagFields(f, pos, typ, ts, data);
  }

  /** The reader's view of a tag whose fields hold the given type, timestamp and payload. */
  lemma ReadTagFields(f: seq<byte>, pos: nat, t: byte, ts: nat, data: seq<byte>)
    requires pos + 15 + |data| <= |f| && f[pos] == t
    requires BeUint(f[pos + 1..pos + 4]) == |data|
    requires BeUint(f[pos + 4..pos + 7]) + f[pos + 7] as int * 0x100_0000 == ts
    requires BeUint(f[pos + 8..pos + 11]) == 0
    requires f[pos + 11..pos + 11 + |data|] == data
    requires BeUint(f[pos + 11 + |data|..pos + 15 + |data|]) == |data| + 11
    ensures ReadTag(f, pos) == Some(Read(Tag(t, ts, data), pos + 15 + |data|))
  {
  }
}

/**
 * Bytes and the fixed-width unsigned integers the capture format is built from:
 * big-endian fields (Python's `>H`, `>I` and the 3-byte `r24` helper) and
 * little-endian fields (`<H`, `<I`).
 */
module Bytes {

  newtype byte = x: int | 0 <= x < 256

  /** 256 to the power n: one more than the largest n-byte unsigned value. */
  function Pow256(n: nat): (r: nat)
    ensures r >= 1
  {
    if n == 0 then 1 else 256 * Pow256(n - 1)
  }

  /** The unsigned value of `s` read most significant byte first. */
  function BeUint(s: seq<byte>): (r: nat)
    ensures r < Pow256(|s|)
  {
    if |s| == 0 then 0
    else
      var high := BeUint(s[..|s| - 1]);
      assert high * 256 + 255 < Pow256(|s|);
      high * 256 + s[|s| - 1] as int
  }

  /** The unsigned value of `s` read least significant byte first. */
  function LeUint(s: seq<byte>): (r: nat)
    ensures r < Pow256(|s|)
  {
    if |s| == 0 then 0
    else
      var high := LeUint(s[1..]);
      assert 255 + 256 * high < Pow256(|s|);
      s[0] as int + 256 * high
  }

  /** The `width`-byte big-endian encoding of `n`; reading it back gives `n`. */
  function BeBytes(n: nat, width: nat): (r: seq<byte>)
    requires n < Pow256(width)
    ensures |r| == width && BeUint(r) == n
  {
    if width == 0 then []
    else
      var r := BeBytes(n / 256, width - 1) + [(n % 256) as byte];
      assert r[..width - 1] == BeBytes(n / 256, width - 1);
      r
  }

  /** The `width`-byte little-endian encoding of `n`; reading it back gives `n`. */
  function LeBytes(n: nat, width: nat): (r: seq<byte>)
    requires n < Pow256(width)
    ensures |r| == width && LeUint(r) == n
  {
    if width == 0 then []
    else
      var r := [(n % 256) as byte] + LeBytes(n / 256, width - 1);
      assert r[1..] == LeBytes(n / 256, width - 1);
      r
  }

  /** Encoding a big-endian field read from `s` gives back `s`: each width has one encoding per value. */
  lemma {:induction false} BeBytesOfBeUint(s: seq<byte>)
    ensures BeBytes(BeUint(s), |s|) == s
  {
    if |s| > 0 {
      var init := s[..|s| - 1];
      BeBytesOfBeUint(init);
      var n := BeUint(s);
      assert n / 256 == BeUint(init) && n % 256 == s[|s| - 1] as int;
      assert s == init + [s[|s| - 1]];
    }
  }

  /** The position just past `s` when it is written at `pos`. */
  function After(pos: nat, s: seq<byte>): nat {
    pos + |s|
  }

  lemma AfterConcat(pos: nat, a: seq<byte>, b: seq<byte>)
    ensures After(After(pos, a), b) == After(pos, a + b)
  {
  }

  /** `data` holds `s` at `pos`. */
  predicate At(data: seq<byte>, pos: nat, s: seq<byte>) {
    pos + |s| <= |data| && data[pos..pos + |s|] == s
  }

  lemma AtSplit(data: seq<byte>, pos: nat, a: seq<byte>, b: seq<byte>)
    requires At(data, pos, a + b)
    ensures At(data, pos, a) && At(data, pos + |a|, b)
  {
    assert data[pos..pos + |a|] == (a + b)[..|a|];
    assert data[pos + |a|..pos + |a| + |b|] == (a + b)[|a|..];
  }

  /** Three consecutive pieces at `pos` lie one after another. */
  lemma AtThree(data: seq<byte>, pos: nat, a: seq<byte>, b: seq<byte>, c: seq<byte>)
    requires At(data, pos, a + b + c)
    ensures At(data, pos, a) && At(data, pos + |a|, b) && At(data, pos + |a| + |b|, c)
  {
    AtSplit(data, pos, a + b, c);
    AtSplit(data, pos, a, b);
  }

  /** A big-endian field written at `pos` reads back as the number it encodes. */
  lemma FieldAt(data: seq<byte>, pos: nat, n: nat, width: nat)
    requires n < Pow256(width) && At(data, pos, BeBytes(n, width))
    ensures BeUint(data[pos..pos + width]) == n
  {
  }

  /** A little-endian field written at `pos` reads back as the number it encodes. */
  lemma LeFieldAt(data: seq<byte>, pos: nat, n: nat, width: nat)
    requires n < Pow256(width) && At(data, pos, LeBytes(n, width))
    ensures LeUint(data[pos..pos + width]) == n
  {
  }

  /** A value read from a byte sequence, and the position just past it. */
  datatype Read<T> = Read(value: T, next: nat)

  function Min(a: int, b: int): int { if a <= b then a else b }

  /** Sequence concatenation regrouped, for proofs where the solver would search for it. */
  lemma Regroup<T>(a: seq<T>, b: seq<T>, c: seq<T>)
    ensures a + b + c == a + (b + c)
  {
  }
}

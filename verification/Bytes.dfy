/** Bytes, digests, fixed-width unsigned fields and the two byte orders the runtime uses. */
module Bytes {

  type Byte = x: int | 0 <= x < 256

  const TWO_64: nat := 0x1_0000_0000_0000_0000
  const TWO_32: nat := 0x1_0000_0000

  type U64 = x: int | 0 <= x < TWO_64
  type U32 = x: int | 0 <= x < TWO_32

  type Digest = s: seq<Byte> | |s| == 32 witness seq(32, _ => 0)

  /** The digest function; nothing is assumed about it. */
  type Hash = seq<Byte> -> Digest

  function ZeroDigest(): Digest {
    seq(32, _ => 0)
  }

  function Zeros(n: nat): (z: seq<Byte>)
    ensures |z| == n
  {
    seq(n, _ => 0)
  }

  /** The bytes of a string of the source text. */
  function Ascii(s: string): (r: seq<Byte>)
    ensures |r| == |s|
  {
    seq(|s|, k requires 0 <= k < |s| => s[k] as int % 256)
  }

  /** Unsigned 64-bit addition: the result wraps. */
  function Add64(a: U64, n: nat): U64 {
    (a + n) % TWO_64
  }

  /** 256 to the power w. */
  function Radix(w: nat): (r: nat)
    ensures r > 0
  {
    if w == 0 then 1 else 256 * Radix(w - 1)
  }

  /** The w low bytes of n, least significant first. */
  function LE(n: nat, w: nat): (s: seq<Byte>)
    ensures |s| == w
  {
    if w == 0 then [] else [n % 256] + LE(n / 256, w - 1)
  }

  function FromLE(s: seq<Byte>): (n: nat)
    ensures n < Radix(|s|)
  {
    if s == [] then 0 else s[0] + 256 * FromLE(s[1..])
  }

  /** The w low bytes of n, most significant first. */
  function BE(n: nat, w: nat): (s: seq<Byte>)
    ensures |s| == w
  {
    if w == 0 then [] else BE(n / 256, w - 1) + [n % 256]
  }

  function FromBE(s: seq<Byte>): (n: nat)
    ensures n < Radix(|s|)
  {
    if s == [] then 0 else 256 * FromBE(s[..|s| - 1]) + s[|s| - 1]
  }

  lemma {:induction false} LERoundTrip(n: nat, w: nat)
    requires n < Radix(w)
    ensures FromLE(LE(n, w)) == n
  {
    if w > 0 {
      LERoundTrip(n / 256, w - 1);
      assert LE(n, w)[1..] == LE(n / 256, w - 1);
    }
  }

  lemma {:induction false} FromLERoundTrip(s: seq<Byte>)
    ensures LE(FromLE(s), |s|) == s
  {
    if s != [] {
      FromLERoundTrip(s[1..]);
      assert s == [s[0]] + s[1..];
    }
  }

  lemma {:induction false} BERoundTrip(n: nat, w: nat)
    requires n < Radix(w)
    ensures FromBE(BE(n, w)) == n
  {
    if w > 0 {
      BERoundTrip(n / 256, w - 1);
      assert BE(n, w)[..w - 1] == BE(n / 256, w - 1);
    }
  }

  lemma {:induction false} FromBERoundTrip(s: seq<Byte>)
    ensures BE(FromBE(s), |s|) == s
  {
    if s != [] {
      FromBERoundTrip(s[..|s| - 1]);
      assert s == s[..|s| - 1] + [s[|s| - 1]];
    }
  }

  /** The widths the runtime's records use. */
  lemma Widths()
    ensures Radix(1) == 256
    ensures Radix(2) == 0x1_0000
    ensures Radix(4) == TWO_32
    ensures Radix(8) == TWO_64
  {
    assert Radix(3) == 0x100_0000;
    assert Radix(5) == 0x100_0000_0000;
    assert Radix(6) == 0x1_0000_0000_0000;
    assert Radix(7) == 0x100_0000_0000_0000;
  }
}

/** Bytes and the little-endian encoding of unsigned integers, which is how
    the `#[repr(C)]` integer fields of a header are laid out in memory on a
    little-endian machine. */
module Bytes {

  newtype byte = b: int | 0 <= b < 256

  /** The largest `u32`. */
  const U32_MAX: nat := 0xFFFF_FFFF

  /** 256 to the power `n`: the number of values `n` bytes can hold. */
  function Pow256(n: nat): (r: nat)
    ensures r > 0
  {
    if n == 0 then 1 else 256 * Pow256(n - 1)
  }

  lemma Pow256Four()
    ensures Pow256(4) == U32_MAX + 1
  {
  }

  /** The `width`-byte little-endian encoding of `n`: least significant byte
      first. */
  function ToLE(n: nat, width: nat): (r: seq<byte>)
    requires n < Pow256(width)
    ensures |r| == width
  {
    if width == 0 then [] else [(n % 256) as byte] + ToLE(n / 256, width - 1)
  }

  /** The number a little-endian byte sequence denotes. */
  function FromLE(bs: seq<byte>): (r: nat)
    ensures r < Pow256(|bs|)
  {
    if |bs| == 0 then 0 else bs[0] as nat + 256 * FromLE(bs[1..])
  }

  /** Decoding an encoding gives back the number. */
  lemma {:induction false} FromLEToLE(n: nat, width: nat)
    requires n < Pow256(width)
    ensures FromLE(ToLE(n, width)) == n
  {
    if width > 0 {
      var r := ToLE(n, width);
      assert r[1..] == ToLE(n / 256, width - 1);
      FromLEToLE(n / 256, width - 1);
    }
  }

  /** Encoding a decoded sequence at its own width gives back the bytes. */
  lemma {:induction false} ToLEFromLE(bs: seq<byte>)
    ensures ToLE(FromLE(bs), |bs|) == bs
  {
    if |bs| > 0 {
      var n := FromLE(bs);
      var rest := FromLE(bs[1..]);
      assert n % 256 == bs[0] as nat && n / 256 == rest;
      ToLEFromLE(bs[1..]);
      assert ToLE(n, |bs|) == [bs[0]] + bs[1..];
    }
  }

  /** Two byte sequences of one width denote the same number only when they
      are the same bytes. */
  lemma FromLEInjective(a: seq<byte>, b: seq<byte>)
    requires |a| == |b|
    ensures FromLE(a) == FromLE(b) <==> a == b
  {
    if FromLE(a) == FromLE(b) {
      ToLEFromLE(a);
      ToLEFromLE(b);
    }
  }
}

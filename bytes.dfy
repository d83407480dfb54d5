/**
 * Bytes of a binary file and the two low-level readings lt-print makes of
 * them itself: the C library's strncmp on the peeked header, and read_le's
 * little-endian decoding of the feature word.
 */
module Bytes {

  newtype byte = x: int | 0 <= x < 0x100

  /** `unsigned int`, the result type of Compression::multibyte_read. */
  newtype u32 = x: int | 0 <= x < 0x1_0000_0000

  /** 256 to the power `n`: one more than the largest `n`-byte value. */
  function Pow256(n: nat): (r: nat)
    ensures r > 0
  {
    if n == 0 then 1 else 256 * Pow256(n - 1)
  }

  /** The value of `bs` read least significant byte first, as read_le
      delivers it on every host. */
  function LittleEndian(bs: seq<byte>): (r: nat)
    ensures r < Pow256(|bs|)
  {
    if bs == [] then 0 else bs[0] as nat + 256 * LittleEndian(bs[1..])
  }

  /** The `width` bytes a little-endian writer emits for `n`. */
  function EncodeLE(n: nat, width: nat): (bs: seq<byte>)
    ensures |bs| == width
  {
    if width == 0 then [] else [(n % 256) as byte] + EncodeLE(n / 256, width - 1)
  }

  /** Decoding what was encoded gives the value back, for every value that fits. */
  lemma {:induction false} DecodeEncode(n: nat, width: nat)
    requires n < Pow256(width)
    ensures LittleEndian(EncodeLE(n, width)) == n
  {
    if width > 0 {
      DecodeEncode(n / 256, width - 1);
      assert EncodeLE(n, width)[1..] == EncodeLE(n / 256, width - 1);
    }
  }

  /** Encoding what was decoded gives the bytes back: the decoding is one to one. */
  lemma {:induction false} EncodeDecode(bs: seq<byte>)
    ensures EncodeLE(LittleEndian(bs), |bs|) == bs
  {
    if bs != [] {
      var n := LittleEndian(bs);
      assert n % 256 == bs[0] as nat;
      assert n / 256 == LittleEndian(bs[1..]);
      EncodeDecode(bs[1..]);
    }
  }

  /** strncmp(a, b, n) == 0: the first `n` characters agree, comparison
      stopping early after a NUL the two share. */
  predicate StrnEqual(a: seq<byte>, b: seq<byte>, n: nat)
    requires n <= |a| && n <= |b|
  {
    n == 0 || (a[0] == b[0] && (a[0] == 0 || StrnEqual(a[1..], b[1..], n - 1)))
  }

  /** Against a pattern without NUL bytes, strncmp compares all `n` bytes. */
  lemma {:induction false} StrnEqualWithoutNul(a: seq<byte>, b: seq<byte>, n: nat)
    requires n <= |a| && n <= |b|
    requires forall i :: 0 <= i < n ==> b[i] != 0
    ensures StrnEqual(a, b, n) <==> a[..n] == b[..n]
  {
    if n > 0 {
      StrnEqualWithoutNul(a[1..], b[1..], n - 1);
      assert a[..n] == [a[0]] + a[1..][..n - 1];
      assert b[..n] == [b[0]] + b[1..][..n - 1];
    }
  }
}

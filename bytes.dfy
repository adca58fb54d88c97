/** Bytes and big-endian integers, as Python's `int.from_bytes(bs, "big")` reads them. */
module Bytes {

  /** One octet read from or written to the serial link. */
  type byte = x: int | 0 <= x < 256

  /** 256 to the power k: one more than the largest value k bytes can hold. */
  function Pow256(k: nat): (p: nat)
    ensures p >= 1
  {
    if k == 0 then 1 else 256 * Pow256(k - 1)
  }

  /** The unsigned big-endian value of `bs` (the first byte is the most significant). */
  function BigEndian(bs: seq<byte>): (n: nat)
    ensures n < Pow256(|bs|)
  {
    if bs == [] then 0
    else
      var high := BigEndian(bs[..|bs| - 1]);
      assert high <= Pow256(|bs| - 1) - 1;
      assert high * 256 <= Pow256(|bs| - 1) * 256 - 256;
      high * 256 + bs[|bs| - 1]
  }

  /** The `len` bytes whose big-endian value is `n` (Python's `n.to_bytes(len, "big")`). */
  function ToBigEndian(n: nat, len: nat): (bs: seq<byte>)
    requires n < Pow256(len)
    ensures |bs| == len
  {
    if len == 0 then []
    else ToBigEndian(n / 256, len - 1) + [n % 256]
  }

  /** Encoding a value and reading it back gives the value. */
  lemma {:induction false} BigEndianOfToBigEndian(n: nat, len: nat)
    requires n < Pow256(len)
    ensures BigEndian(ToBigEndian(n, len)) == n
  {
    if len > 0 {
      var bs := ToBigEndian(n, len);
      assert bs[..len - 1] == ToBigEndian(n / 256, len - 1);
      BigEndianOfToBigEndian(n / 256, len - 1);
    }
  }

  /** Reading a byte string and encoding the value at the same width gives the bytes back. */
  lemma {:induction false} ToBigEndianOfBigEndian(bs: seq<byte>)
    ensures ToBigEndian(BigEndian(bs), |bs|) == bs
  {
    if bs != [] {
      var prefix := bs[..|bs| - 1];
      var n := BigEndian(bs);
      assert n / 256 == BigEndian(prefix) && n % 256 == bs[|bs| - 1];
      ToBigEndianOfBigEndian(prefix);
      assert bs == prefix + [bs[|bs| - 1]];
    }
  }

  /** Two byte strings of the same width with the same big-endian value are equal. */
  lemma BigEndianInjective(a: seq<byte>, b: seq<byte>)
    requires |a| == |b| && BigEndian(a) == BigEndian(b)
    ensures a == b
  {
    ToBigEndianOfBigEndian(a);
    ToBigEndianOfBigEndian(b);
  }
}

/** Bytes, and the big-endian form of a number. */
module Octets {
  type byte = x: int | 0 <= x < 256

  type Bytes = seq<byte>

  function Power(k: nat): (p: nat)
    ensures 1 <= p
  {
    if k == 0 then 1 else 256 * Power(k - 1)
  }

  /** The lowest `k` base-256 digits of a number, most significant first. */
  function BigEndian(n: nat, k: nat): (bytes: Bytes)
    ensures |bytes| == k
  {
    if k == 0 then [] else BigEndian(n / 256, k - 1) + [n % 256]
  }

  function ValueOf(bytes: Bytes): nat
  {
    if bytes == [] then 0 else 256 * ValueOf(bytes[..|bytes| - 1]) + bytes[|bytes| - 1]
  }

  /** Reading the digits gives the number back. */
  lemma {:induction false} ValueOfBigEndian(n: nat, k: nat)
    requires n < Power(k)
    ensures ValueOf(BigEndian(n, k)) == n
    decreases k
  {
    if k > 0 {
      ValueOfBigEndian(n / 256, k - 1);
      var bytes := BigEndian(n, k);
      assert bytes[..k - 1] == BigEndian(n / 256, k - 1);
    }
  }
}

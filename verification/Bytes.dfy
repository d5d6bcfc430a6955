/** Bytes, and the big-endian 16-bit numbers that the wire formats share. */
module Bytes {
  type Byte = b: int | 0 <= b < 256

  function Be16(n: nat): (bs: seq<Byte>)
    ensures |bs| == 2
  {
    [n / 256 % 256, n % 256]
  }

  function FromBe16(hi: Byte, lo: Byte): nat {
    hi * 256 + lo
  }

  lemma Be16RoundTrip(n: nat)
    ensures FromBe16(Be16(n)[0], Be16(n)[1]) == n % 65536
  {
    var q, m := n / 65536, n % 65536;
    assert n == q * 65536 + m;
    assert n / 256 == q * 256 + m / 256;
  }

  /** The high byte comes first. */
  lemma BigEndian(hi: Byte, lo: Byte)
    ensures Be16(256 * (hi as int) + lo) == [hi, lo] && FromBe16(hi, lo) == 256 * (hi as int) + lo
  {
  }

  lemma Be16Inverse(hi: Byte, lo: Byte)
    ensures Be16(FromBe16(hi, lo)) == [hi, lo]
  {
  }
}

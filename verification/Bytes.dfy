/** Bytes, and four-byte integers with the most significant byte first
    (section 2.1 of RFC 2083). */
module Bytes {
  type Byte = bv8

  const UINT32_LIMIT: nat := 0x1_0000_0000

  /** The byte with a given value, counted up from zero. */
  function ByteOf(n: nat): (v: Byte)
    requires n < 256
    ensures v as int == n
  {
    if n == 0 then 0 else ByteOf(n - 1) + 1
  }

  lemma ByteOfValue(v: Byte)
    ensures ByteOf(v as int) == v
  {
  }

  function UInt32Bytes(n: nat): (bytes: seq<Byte>)
    requires n < UINT32_LIMIT
    ensures |bytes| == 4
  {
    var n1 := n / 0x100;
    var n2 := n1 / 0x100;
    [ByteOf(n2 / 0x100), ByteOf(n2 % 0x100), ByteOf(n1 % 0x100), ByteOf(n % 0x100)]
  }

  function ReadUInt32(bytes: seq<Byte>): nat
    requires |bytes| == 4
  {
    (((bytes[0] as int) * 0x100 + (bytes[1] as int)) * 0x100 + (bytes[2] as int)) * 0x100 + (bytes[3] as int)
  }

  lemma UInt32RoundTrip(n: nat)
    requires n < UINT32_LIMIT
    ensures ReadUInt32(UInt32Bytes(n)) == n
  {
  }

  /** The most significant byte comes first. */
  lemma BigEndian(n: nat)
    requires n < UINT32_LIMIT
    ensures var b := UInt32Bytes(n);
      (b[0] as int) * 16777216 + (b[1] as int) * 65536 + (b[2] as int) * 256 + (b[3] as int) == n
  {
  }
}

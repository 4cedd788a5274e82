/**
  The checksum contract of pyro_crc.h. The CRC8 and CRC16 algorithms
  themselves are not part of this model: a `Checksums` value carries any two
  total functions, and every property of the links is proved for all of
  them. What the links rely on is the verify/append pair: `append` writes
  the checksum of the leading bytes into the trailing byte(s) and `verify`
  recomputes it and compares, so verifying right after appending succeeds.
*/
module Crc {
  import opened Wire

  datatype Checksums = Checksums(crc8: seq<byte> -> byte, crc16: seq<byte> -> bv16)

  /** verify_crc8_check_sum: the last byte is the CRC8 of the others. */
  predicate Verify8(c: Checksums, msg: seq<byte>)
    requires |msg| >= 1
  {
    msg[|msg| - 1] == c.crc8(msg[..|msg| - 1])
  }

  /** append_crc8_check_sum: overwrite the last byte with the CRC8 of the others. */
  function Append8(c: Checksums, msg: seq<byte>): (r: seq<byte>)
    requires |msg| >= 1
    ensures |r| == |msg| && r[..|msg| - 1] == msg[..|msg| - 1]
    ensures Verify8(c, r)
  {
    msg[..|msg| - 1] + [c.crc8(msg[..|msg| - 1])]
  }

  /** The two trailing bytes of a CRC16, low byte first. */
  function Crc16Bytes(c: Checksums, body: seq<byte>): (r: seq<byte>)
    ensures |r| == 2
  {
    var v := c.crc16(body);
    [(v & 0xFF) as byte, (v >> 8) as byte]
  }

  /** verify_crc16_check_sum: the last two bytes are the CRC16 of the others. */
  predicate Verify16(c: Checksums, msg: seq<byte>)
    requires |msg| >= 2
  {
    msg[|msg| - 2..] == Crc16Bytes(c, msg[..|msg| - 2])
  }

  /** append_crc16_check_sum: overwrite the last two bytes with the CRC16 of the others. */
  function Append16(c: Checksums, msg: seq<byte>): (r: seq<byte>)
    requires |msg| >= 2
    ensures |r| == |msg| && r[..|msg| - 2] == msg[..|msg| - 2]
    ensures Verify16(c, r)
  {
    msg[..|msg| - 2] + Crc16Bytes(c, msg[..|msg| - 2])
  }

  /** Appending is idempotent: a message that already verifies is left as it is. */
  lemma {:induction false} Append16OfVerified(c: Checksums, msg: seq<byte>)
    requires |msg| >= 2 && Verify16(c, msg)
    ensures Append16(c, msg) == msg
  {
    assert msg == msg[..|msg| - 2] + msg[|msg| - 2..];
  }

  /** Verification depends only on the bytes of the message. */
  lemma {:induction false} Verify16Unique(c: Checksums, msg: seq<byte>, t: seq<byte>)
    requires |msg| >= 2 && |t| == 2
    requires Verify16(c, msg[..|msg| - 2] + t)
    ensures t == Crc16Bytes(c, msg[..|msg| - 2])
  {
    var m := msg[..|msg| - 2] + t;
    assert m[..|m| - 2] == msg[..|msg| - 2];
    assert m[|m| - 2..] == t;
  }
}

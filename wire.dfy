/**
  Byte-level helpers shared by every link: the firmware reads and writes
  packed little-endian structures, so multi-byte fields are assembled from
  and split into bytes explicitly here.
*/
module Wire {

  type byte = bv8

  /** A uint8_t count or length, as an integer. */
  type u8 = n: nat | n < 0x100

  /** A uint16_t count or length, as an integer. */
  type u16 = n: nat | n < 0x1_0000

  datatype Option<T> = None | Some(value: T)

  /** The 16-bit little-endian value stored in two bytes. */
  function Le16(lo: byte, hi: byte): bv16
  {
    (lo as bv16) | ((hi as bv16) << 8)
  }

  /** The same value as an unsigned integer. */
  function U16(lo: byte, hi: byte): (n: u16)
  {
    lo as nat + 0x100 * hi as nat
  }

  /** The integer reading and the bit-level reading of two bytes agree. */
  lemma U16IsLe16(lo: byte, hi: byte)
    ensures U16(lo, hi) == Le16(lo, hi) as nat
  {
    assert ((lo as bv16) | ((hi as bv16) << 8)) as nat == lo as nat + 256 * hi as nat;
  }

  /** The two little-endian bytes of a 16-bit value. */
  function ToLe16(v: bv16): (r: seq<byte>)
    ensures |r| == 2 && Le16(r[0], r[1]) == v
  {
    [(v & 0xFF) as byte, (v >> 8) as byte]
  }

  /** The byte holding a nibble-sized integer, written out. */
  function Nibble(k: nat): (b: byte)
    requires k < 0x10
    ensures b as nat == k
  {
    if k == 0 then 0x0 else if k == 1 then 0x1 else if k == 2 then 0x2 else if k == 3 then 0x3
    else if k == 4 then 0x4 else if k == 5 then 0x5 else if k == 6 then 0x6 else if k == 7 then 0x7
    else if k == 8 then 0x8 else if k == 9 then 0x9 else if k == 10 then 0xA else if k == 11 then 0xB
    else if k == 12 then 0xC else if k == 13 then 0xD else if k == 14 then 0xE else 0xF
  }

  /** Two nibbles side by side hold sixteen times the high one plus the low one. */
  lemma NibblesValue(h: byte, l: byte)
    requires h < 0x10 && l < 0x10
    ensures ((h << 4) | l) as nat == 0x10 * h as nat + l as nat
  {
  }

  /** The byte holding a byte-sized integer. */
  function ByteOf(x: nat): (b: byte)
    requires x < 0x100
    ensures b as nat == x
  {
    NibblesValue(Nibble(x / 0x10), Nibble(x % 0x10));
    (Nibble(x / 0x10) << 4) | Nibble(x % 0x10)
  }

  /** The two little-endian bytes of a uint16_t count, low byte first. */
  function Bytes16(n: u16): (r: seq<byte>)
    ensures |r| == 2 && U16(r[0], r[1]) == n
  {
    [ByteOf(n % 0x100), ByteOf(n / 0x100)]
  }

  lemma Le16RoundTrip(lo: byte, hi: byte)
    ensures ToLe16(Le16(lo, hi)) == [lo, hi]
  {
  }

  /** Reinterpretation of a 16-bit pattern as a two's-complement int16. */
  function Int16(v: bv16): (r: int)
    ensures -0x8000 <= r < 0x8000
    ensures r >= 0 <==> v < 0x8000
  {
    if v < 0x8000 then v as int else v as int - 0x1_0000
  }

  /** The eight bytes of a 64-bit little-endian load, as one bit-vector. */
  function Load64(b: seq<byte>): bv64
    requires |b| == 8
  {
    (b[0] as bv64) | ((b[1] as bv64) << 8) | ((b[2] as bv64) << 16) | ((b[3] as bv64) << 24)
    | ((b[4] as bv64) << 32) | ((b[5] as bv64) << 40) | ((b[6] as bv64) << 48) | ((b[7] as bv64) << 56)
  }

  /** The eight bytes a 64-bit little-endian store writes. */
  function Store64(v: bv64): (r: seq<byte>)
    ensures |r| == 8
    ensures Load64(r) == v
  {
    [(v & 0xFF) as byte, ((v >> 8) & 0xFF) as byte, ((v >> 16) & 0xFF) as byte,
     ((v >> 24) & 0xFF) as byte, ((v >> 32) & 0xFF) as byte, ((v >> 40) & 0xFF) as byte,
     ((v >> 48) & 0xFF) as byte, ((v >> 56) & 0xFF) as byte]
  }

  lemma Load64RoundTrip(b: seq<byte>)
    requires |b| == 8
    ensures Store64(Load64(b)) == b
  {
  }

  /** The six bytes of a packed 48-bit little-endian bitfield, as one bit-vector. */
  function Load48(b: seq<byte>): (v: bv64)
    requires |b| == 6
    ensures v < 0x1_0000_0000_0000
  {
    (b[0] as bv64) | ((b[1] as bv64) << 8) | ((b[2] as bv64) << 16) | ((b[3] as bv64) << 24)
    | ((b[4] as bv64) << 32) | ((b[5] as bv64) << 40)
  }

  /** The six low bytes of a bit-vector, least significant first. */
  function Store48(v: bv64): (r: seq<byte>)
    requires v < 0x1_0000_0000_0000
    ensures |r| == 6
    ensures Load48(r) == v
  {
    [(v & 0xFF) as byte, ((v >> 8) & 0xFF) as byte, ((v >> 16) & 0xFF) as byte,
     ((v >> 24) & 0xFF) as byte, ((v >> 32) & 0xFF) as byte, ((v >> 40) & 0xFF) as byte]
  }

  lemma Load48RoundTrip(b: seq<byte>)
    requires |b| == 6
    ensures Store48(Load48(b)) == b
  {
  }

  /** Integer minimum, used by every bounded copy. */
  function Min(a: nat, b: nat): (m: nat)
    ensures m <= a && m <= b && (m == a || m == b)
  {
    if a < b then a else b
  }

  /** A run of n zero bytes. */
  function Zeros(n: nat): (r: seq<byte>)
    ensures |r| == n && forall i :: 0 <= i < n ==> r[i] == 0
  {
    seq(n, _ => 0)
  }
}

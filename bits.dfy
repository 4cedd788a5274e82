/**
  A uint64_t as its 64 bits, least significant first, with the C bitwise
  operators the CAN packer uses (`&`, `|`, `<<` and the low-bit mask
  `(1ULL << n) - 1`) defined bit by bit, and the little-endian `memcpy`
  between eight bytes and one word.
*/
module Bits {
  import opened Wire

  /** The 64 bits of a uint64_t; bit i has weight 2 to the i. */
  type Word = w: seq<bool> | |w| == 64 witness seq(64, _ => false)

  /** The zero word. */
  function Zero(): (w: Word)
    ensures forall i :: 0 <= i < 64 ==> !w[i]
  {
    seq(64, _ => false)
  }

  /** The eight bits of a byte, least significant first. */
  function ByteBits(b: byte): (r: seq<bool>)
    ensures |r| == 8
  {
    [b & 0x01 != 0, b & 0x02 != 0, b & 0x04 != 0, b & 0x08 != 0,
     b & 0x10 != 0, b & 0x20 != 0, b & 0x40 != 0, b & 0x80 != 0]
  }

  /** The byte with the given eight bits. */
  function BitsByte(r: seq<bool>): byte
    requires |r| == 8
  {
    (if r[0] then 0x01 else 0) | (if r[1] then 0x02 else 0) | (if r[2] then 0x04 else 0)
    | (if r[3] then 0x08 else 0) | (if r[4] then 0x10 else 0) | (if r[5] then 0x20 else 0)
    | (if r[6] then 0x40 else 0) | (if r[7] then 0x80 else 0)
  }

  lemma ByteBitsRoundTrip(b: byte)
    ensures BitsByte(ByteBits(b)) == b
  {
  }

  lemma BitsByteRoundTrip(r: seq<bool>)
    requires |r| == 8
    ensures ByteBits(BitsByte(r)) == r
  {
  }

  /** `memcpy(&word, bytes, 8)` on a little-endian machine. */
  function Load(b: seq<byte>): Word
    requires |b| == 8
  {
    seq(64, i requires 0 <= i < 64 => ByteBits(b[i / 8])[i % 8])
  }

  /** `memcpy(bytes, &word, 8)` on a little-endian machine. */
  function Store(w: Word): (b: seq<byte>)
    ensures |b| == 8
    ensures forall k :: 0 <= k < 8 ==> b[k] == BitsByte(w[8 * k .. 8 * k + 8])
  {
    seq(8, k requires 0 <= k < 8 => BitsByte(w[8 * k .. 8 * k + 8]))
  }

  lemma {:induction false} LoadStore(w: Word)
    ensures Load(Store(w)) == w
  {
    forall k | 0 <= k < 8
      ensures ByteBits(Store(w)[k]) == w[8 * k .. 8 * k + 8]
    {
      BitsByteRoundTrip(w[8 * k .. 8 * k + 8]);
    }
    forall i | 0 <= i < 64
      ensures Load(Store(w))[i] == w[i]
    {
      var k := i / 8;
      assert ByteBits(Store(w)[k])[i % 8] == w[8 * k .. 8 * k + 8][i % 8];
    }
  }

  lemma {:induction false} StoreLoad(b: seq<byte>)
    requires |b| == 8
    ensures Store(Load(b)) == b
  {
    forall k | 0 <= k < 8
      ensures Store(Load(b))[k] == b[k]
    {
      LoadByte(b, k);
      ByteBitsRoundTrip(b[k]);
    }
  }

  /** Bits 8k to 8k + 7 of a loaded word are the bits of byte k. */
  lemma LoadByte(b: seq<byte>, k: nat)
    requires |b| == 8 && k < 8
    ensures Load(b)[8 * k .. 8 * k + 8] == ByteBits(b[k])
    ensures forall j :: 0 <= j < 8 ==> Load(b)[8 * k + j] == ByteBits(b[k])[j]
  {
    forall j | 0 <= j < 8
      ensures Load(b)[8 * k + j] == ByteBits(b[k])[j]
    {
      assert (8 * k + j) / 8 == k && (8 * k + j) % 8 == j;
    }
  }

  /** `(1ULL << n) - 1`: the word whose n low bits are set. */
  function LowMask(n: nat): (w: Word)
    requires n < 64
    ensures forall i :: 0 <= i < 64 ==> (w[i] <==> i < n)
  {
    seq(64, i => i < n)
  }

  /** `a & b`. */
  function And(a: Word, b: Word): (w: Word)
    ensures forall i :: 0 <= i < 64 ==> (w[i] <==> a[i] && b[i])
  {
    seq(64, i requires 0 <= i < 64 => a[i] && b[i])
  }

  /** `a | b`. */
  function Or(a: Word, b: Word): (w: Word)
    ensures forall i :: 0 <= i < 64 ==> (w[i] <==> a[i] || b[i])
  {
    seq(64, i requires 0 <= i < 64 => a[i] || b[i])
  }

  /** `a << k` on a uint64_t: bits shifted past bit 63 are lost. */
  function Shl(a: Word, k: nat): (w: Word)
    requires k < 64
    ensures forall i :: 0 <= i < 64 ==> (w[i] <==> k <= i && a[i - k])
  {
    seq(64, i requires 0 <= i < 64 => k <= i && a[i - k])
  }

  // ----- agreement with machine words -----

  /** Bit j of a machine uint64_t, for a bit number j below 64. */
  predicate BvBit(x: bv64, j: bv7)
    requires j < 64
  {
    (x >> j) & 1 == 1
  }

  /** A machine uint64_t as its 64 bits. */
  function OfBv(x: bv64): (w: Word)
    ensures forall i :: 0 <= i < 64 ==> (w[i] <==> BvBit(x, i as bv7))
  {
    seq(64, i requires 0 <= i < 64 => BvBit(x, i as bv7))
  }

  lemma BvBitAnd(x: bv64, y: bv64, j: bv7)
    requires j < 64
    ensures BvBit(x & y, j) <==> BvBit(x, j) && BvBit(y, j)
  {
  }

  lemma BvBitOr(x: bv64, y: bv64, j: bv7)
    requires j < 64
    ensures BvBit(x | y, j) <==> BvBit(x, j) || BvBit(y, j)
  {
  }

  lemma BvBitShl1(x: bv64, j: bv7)
    requires j < 64
    ensures BvBit(x << 1, j) <==> 1 <= j && BvBit(x, j - 1)
  {
  }

  lemma BvBitLowMask(n: bv7, j: bv7)
    requires n < 64 && j < 64
    ensures BvBit(((1 as bv64) << n) - 1, j) <==> j < n
  {
  }

  /** Converting a bit number below 64 to a shift count loses nothing. */
  lemma Bv7RoundTrip(i: nat)
    requires i < 64
    ensures (i as bv7) as int == i
  {
  }

  lemma Bv7Pred(i: nat)
    requires 0 < i < 64
    ensures (i as bv7) - 1 == (i - 1) as bv7
  {
    Bv7RoundTrip(i);
    Bv7RoundTrip(i - 1);
  }

  lemma Bv7Order(a: bv7, b: bv7)
    ensures a < b <==> a as int < b as int
  {
  }

  lemma Bv7Lt(i: nat, n: nat)
    requires i < 64 && n < 64
    ensures (i as bv7 < n as bv7) <==> i < n
  {
    Bv7RoundTrip(i);
    Bv7RoundTrip(n);
    Bv7Order(i as bv7, n as bv7);
  }

  /** Shl by k is k shifts by one. */
  lemma {:induction false} ShlSplit(a: Word, k: nat)
    requires 1 <= k < 64
    ensures Shl(a, k) == Shl(Shl(a, k - 1), 1)
  {
    forall i | 0 <= i < 64
      ensures Shl(a, k)[i] == Shl(Shl(a, k - 1), 1)[i]
    {
      if 1 <= i {
        assert Shl(Shl(a, k - 1), 1)[i] == (k - 1 <= i - 1 && a[i - 1 - (k - 1)]);
      }
    }
  }

  /** A shift by one agrees with the machine shift by one. */
  lemma {:induction false} ShlOneIsBv(x: bv64)
    ensures Shl(OfBv(x), 1) == OfBv(x << 1)
  {
    forall i | 0 <= i < 64
      ensures Shl(OfBv(x), 1)[i] == OfBv(x << 1)[i]
    {
      BvBitShl1(x, i as bv7);
      if 1 <= i {
        Bv7Pred(i);
      }
    }
  }

  /** Zero is the machine 0. */
  lemma ZeroIsBv()
    ensures Zero() == OfBv(0)
  {
  }

  /** LowMask(n) is the machine `(1ULL << n) - 1`. */
  lemma {:induction false} LowMaskIsBv(n: nat)
    requires n < 64
    ensures LowMask(n) == OfBv(((1 as bv64) << (n as bv7)) - 1)
  {
    forall i | 0 <= i < 64
      ensures LowMask(n)[i] == OfBv(((1 as bv64) << (n as bv7)) - 1)[i]
    {
      BvBitLowMask(n as bv7, i as bv7);
      Bv7Lt(i, n);
    }
  }

  /** And is the machine `&`. */
  lemma {:induction false} AndIsBv(x: bv64, y: bv64)
    ensures And(OfBv(x), OfBv(y)) == OfBv(x & y)
  {
    forall i | 0 <= i < 64
      ensures And(OfBv(x), OfBv(y))[i] == OfBv(x & y)[i]
    {
      BvBitAnd(x, y, i as bv7);
    }
  }

  /** Or is the machine `|`. */
  lemma {:induction false} OrIsBv(x: bv64, y: bv64)
    ensures Or(OfBv(x), OfBv(y)) == OfBv(x | y)
  {
    forall i | 0 <= i < 64
      ensures Or(OfBv(x), OfBv(y))[i] == OfBv(x | y)[i]
    {
      BvBitOr(x, y, i as bv7);
    }
  }

  /**
    The machine `x << k` on a uint64_t: x times 2 to the k, reduced modulo
    2 to the 64, that is k doublings of a bv64.
  */
  function ShlBv(x: bv64, k: nat): bv64
  {
    if k == 0 then x else ShlBv(x, k - 1) << 1
  }

  /** Shl is the machine `<<` on a uint64_t. */
  lemma {:induction false} ShlIsBv(x: bv64, k: nat)
    requires k < 64
    ensures Shl(OfBv(x), k) == OfBv(ShlBv(x, k))
  {
    if k == 0 {
      ShlZero(OfBv(x));
    } else {
      var y := ShlBv(x, k - 1);
      ShlIsBv(x, k - 1);
      ShlOneIsBv(y);
      ShlAfter(OfBv(x), OfBv(y), OfBv(y << 1), k);
    }
  }

  lemma ShlZero(a: Word)
    ensures Shl(a, 0) == a
  {
  }

  /** If b is a shifted by k - 1 and c is b shifted by one, then c is a shifted by k. */
  lemma ShlAfter(a: Word, b: Word, c: Word, k: nat)
    requires 1 <= k < 64 && Shl(a, k - 1) == b && Shl(b, 1) == c
    ensures Shl(a, k) == c
  {
    ShlSplit(a, k);
  }
}

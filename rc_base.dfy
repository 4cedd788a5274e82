/**
  Priority arbitration between the remote-control drivers
  (pyro_rc_base_drv.h / pyro_rc_base_drv.cpp).

  All drivers share one 8-bit `sequence` mask. Bit p is set while the driver
  of priority p is live; bit 7 is a sentinel that no driver owns, so the mask
  is never zero and its count of trailing zeros is always defined. An
  interrupt admits a frame of the driver with priority p iff
  ctz(sequence) >= p, i.e. iff no driver of a smaller priority index is live.
*/
module RcBase {

  /** Priority index of the VT03 driver (pyro_vt03_rc_drv.cpp:37). */
  const VT03_PRIORITY: nat := 0
  /** Priority index of the DR16 driver (pyro_dr16_rc_drv.cpp:37). */
  const DR16_PRIORITY: nat := 1
  /** The value every driver constructor stores into the shared mask. */
  const SEQUENCE_RESET: bv8 := 0x80

  /** A driver priority: any bit but the sentinel. */
  type Priority = p: nat | p < 7

  /** `1 << k` for a bit index of an 8-bit mask, written out. */
  function Mask(k: nat): (r: bv8)
    requires k < 8
  {
    if k == 0 then 0x01 else if k == 1 then 0x02 else if k == 2 then 0x04 else if k == 3 then 0x08
    else if k == 4 then 0x10 else if k == 5 then 0x20 else if k == 6 then 0x40 else 0x80
  }

  /** `1 << i` for a key index of the 16-bit key bitmap, written out. */
  function KeyMask(i: nat): (r: bv16)
    requires i < 16
  {
    if i == 0 then 0x0001 else if i == 1 then 0x0002 else if i == 2 then 0x0004 else if i == 3 then 0x0008
    else if i == 4 then 0x0010 else if i == 5 then 0x0020 else if i == 6 then 0x0040 else if i == 7 then 0x0080
    else if i == 8 then 0x0100 else if i == 9 then 0x0200 else if i == 10 then 0x0400 else if i == 11 then 0x0800
    else if i == 12 then 0x1000 else if i == 13 then 0x2000 else if i == 14 then 0x4000 else 0x8000
  }

  /** `(key_code >> i) & 1`, the raw level of key i (0 past the 16 bits). */
  function KeyBit(code: bv16, i: nat): (r: bv8)
    ensures r == 0 || r == 1
  {
    if i < 16 && code & KeyMask(i) != 0 then 1 else 0
  }

  /** Bit k of an 8-bit mask. */
  predicate Bit(m: bv8, k: nat)
    requires k < 8
  {
    m & Mask(k) != 0
  }

  /** Setting or clearing bit p leaves every other bit as it was. */
  lemma OtherBitsKept(m: bv8, p: nat, j: nat)
    requires p < 8 && j < 8 && j != p
    ensures Bit(m | Mask(p), j) <==> Bit(m, j)
    ensures Bit(m & !Mask(p), j) <==> Bit(m, j)
  {
  }

  /** Index of the lowest set bit at or above k, or 8 when there is none. */
  function LowestFrom(m: bv8, k: nat): (r: nat)
    requires k <= 8
    ensures k <= r <= 8
    ensures forall j :: k <= j < r ==> !Bit(m, j)
    ensures r < 8 ==> Bit(m, r)
    decreases 8 - k
  {
    if k == 8 then 8 else if Bit(m, k) then k else LowestFrom(m, k + 1)
  }

  /** A mask with no set bit is zero. */
  lemma NoBitIsZero(m: bv8)
    ensures LowestFrom(m, 0) == 8 ==> m == 0
  {
    if LowestFrom(m, 0) == 8 {
      assert !Bit(m, 0) && !Bit(m, 1) && !Bit(m, 2) && !Bit(m, 3);
      assert !Bit(m, 4) && !Bit(m, 5) && !Bit(m, 6) && !Bit(m, 7);
    }
  }

  /** __builtin_ctz on a non-zero mask: the index of its lowest set bit. */
  function Ctz(m: bv8): (r: nat)
    requires m != 0
    ensures r < 8 && Bit(m, r)
    ensures forall j :: 0 <= j < r ==> !Bit(m, j)
  {
    NoBitIsZero(m);
    LowestFrom(m, 0)
  }

  /** The mask is well formed while the sentinel bit is set. */
  predicate Sentinel(m: bv8)
  {
    Bit(m, 7)
  }

  /** rc_callback's priority test: may a frame of priority p be enqueued? */
  predicate Admits(m: bv8, p: Priority)
    requires Sentinel(m)
  {
    Ctz(m) >= p
  }

  /** `sequence |= (1 << p)`: only bit p changes, and it becomes set. */
  function SetBit(m: bv8, p: Priority): (r: bv8)
    ensures Bit(r, p)
    ensures forall j :: 0 <= j < 8 && j != p ==> (Bit(r, j) <==> Bit(m, j))
  {
    forall j | 0 <= j < 8 && j != p
      ensures Bit(m | Mask(p), j) <==> Bit(m, j)
    {
      OtherBitsKept(m, p, j);
    }
    m | Mask(p)
  }

  /** `sequence &= ~(1 << p)`: only bit p changes, and it becomes clear. */
  function ClearBit(m: bv8, p: Priority): (r: bv8)
    ensures !Bit(r, p)
    ensures forall j :: 0 <= j < 8 && j != p ==> (Bit(r, j) <==> Bit(m, j))
  {
    forall j | 0 <= j < 8 && j != p
      ensures Bit(m & !Mask(p), j) <==> Bit(m, j)
    {
      OtherBitsKept(m, p, j);
    }
    m & !Mask(p)
  }

  /** A frame is admitted exactly when no driver of a smaller index is live. */
  lemma {:induction false} AdmitsIffNoHigherLive(m: bv8, p: Priority)
    requires Sentinel(m)
    ensures Admits(m, p) <==> forall j :: 0 <= j < p ==> !Bit(m, j)
  {
    var c := Ctz(m);
    if !Admits(m, p) {
      assert c < p && Bit(m, c);
    }
  }

  /** Setting or clearing a driver bit keeps the sentinel, so ctz stays defined. */
  lemma SentinelPreserved(m: bv8, p: Priority)
    requires Sentinel(m)
    ensures Sentinel(SetBit(m, p)) && Sentinel(ClearBit(m, p))
    ensures SetBit(m, p) != 0 && ClearBit(m, p) != 0
  {
  }

  /** The freshly reset mask admits every driver, and none is live. */
  lemma ResetAdmitsAll(p: Priority)
    ensures Sentinel(SEQUENCE_RESET) && Admits(SEQUENCE_RESET, p)
    ensures !Bit(SEQUENCE_RESET, p)
  {
    AdmitsIffNoHigherLive(SEQUENCE_RESET, p);
  }

  /** VT03 frames are always admitted; DR16 frames exactly while VT03 is not live. */
  lemma Vt03Preempts(m: bv8)
    requires Sentinel(m)
    ensures Admits(m, VT03_PRIORITY)
    ensures Admits(m, DR16_PRIORITY) <==> !Bit(m, VT03_PRIORITY)
  {
    AdmitsIffNoHigherLive(m, DR16_PRIORITY);
  }

  /** Once a driver's bit is set, every lower-priority driver is locked out. */
  lemma {:induction false} LiveLocksOutLower(m: bv8, p: Priority, q: Priority)
    requires Sentinel(m) && p < q
    ensures !Admits(SetBit(m, p), q)
  {
    SentinelPreserved(m, p);
    var c := Ctz(SetBit(m, p));
    assert c <= p;
  }

  /** The shared `rc_drv_t::sequence` mask. */
  class Arbiter {
    var sequence: bv8

    predicate Valid()
      reads this
    {
      Sentinel(sequence)
    }

    /** Static initialisation: `sequence = 0x80`. */
    constructor ()
      ensures Valid() && sequence == SEQUENCE_RESET
    {
      sequence := SEQUENCE_RESET;
    }

    /** The reset every driver constructor performs (pyro_rc_base_drv.cpp). */
    method Reset()
      modifies this
      ensures Valid() && sequence == SEQUENCE_RESET
    {
      sequence := SEQUENCE_RESET;
    }

    /** check_online: bit p of the mask. */
    method CheckOnline(p: Priority) returns (online: bool)
      ensures online == Bit(sequence, p)
    {
      online := sequence & Mask(p) != 0;
    }

    /** The priority test of an rc_callback. */
    method TryAdmit(p: Priority) returns (admitted: bool)
      requires Valid()
      ensures admitted <==> forall j :: 0 <= j < p ==> !Bit(sequence, j)
    {
      admitted := Ctz(sequence) >= p;
      AdmitsIffNoHigherLive(sequence, p);
    }

    /** A driver marks itself live. */
    method Raise(p: Priority)
      requires Valid()
      modifies this
      ensures Valid() && sequence == SetBit(old(sequence), p)
    {
      SentinelPreserved(sequence, p);
      sequence := sequence | Mask(p);
    }

    /** A driver marks itself offline (timeout or disable). */
    method Drop(p: Priority)
      requires Valid()
      modifies this
      ensures Valid() && sequence == ClearBit(old(sequence), p)
    {
      SentinelPreserved(sequence, p);
      sequence := sequence & !Mask(p);
    }
  }
}

/**
  The CAN transmit packer: one 8-byte frame per identifier, filled from
  bit 0 upwards by successive `add_data` calls, each appending a field of
  `bit_len` bits at the frame's watermark (`current_bit_usage`).
*/
module CanTx {
  import opened Wire
  import opened Bits

  /** A uint32_t identifier. */
  type u32 = n: nat | n < 0x1_0000_0000

  /** Bits in a classic CAN payload. */
  const FRAME_BITS: nat := 64

  /** `frame_node_t`: identifier, bit watermark, eight payload bytes. */
  datatype Frame = Frame(id: u32, usage: u8, buffer: seq<byte>)

  /**
    A well-formed node: eight bytes, a watermark within the frame, and no
    bit set at or above the watermark.
  */
  predicate Clean(f: Frame)
  {
    |f.buffer| == 8 && f.usage <= FRAME_BITS
    && forall i :: f.usage <= i < 64 ==> !Load(f.buffer)[i]
  }

  /** The node `get_frame` appends and `clear` resets to: usage 0, eight zero bytes. */
  function Fresh(id: u32): (f: Frame)
    ensures Clean(f) && f.id == id && f.usage == 0 && f.buffer == Zeros(8)
  {
    Frame(id, 0, Zeros(8))
  }

  /** `(bit_len + 7) / 8`, capped at 8: how many source bytes are read. */
  function CopySize(len: u8): (n: nat)
    ensures n <= 8 && (len <= FRAME_BITS ==> 8 * n >= len)
  {
    var c := (len + 7) / 8;
    if c > 8 then 8 else c
  }

  /** Whether a field of `len` bits still fits behind the watermark. */
  predicate Fits(f: Frame, len: u8)
  {
    f.usage + len <= FRAME_BITS
  }

  /** `data_val`: a zeroed word with the first `CopySize(len)` source bytes copied in. */
  function Source(src: seq<byte>, len: u8): Word
    requires |src| >= CopySize(len)
  {
    Load(src[..CopySize(len)] + Zeros(8 - CopySize(len)))
  }

  /** The word after `data_val &= (1ULL << bit_len) - 1`, which is skipped for 64 bits. */
  function Masked(v: Word, len: u8): (m: Word)
    ensures forall i :: 0 <= i < 64 ==> (m[i] <==> i < len && v[i])
  {
    if len < 64 then And(v, LowMask(len)) else v
  }

  /**
    A word with an n-bit field v written at bit k of w: the bits below k
    are w's, the next n bits are the low bits of v, and the rest are clear.
  */
  function Placement(w: Word, k: nat, n: nat, v: Word): (r: Word)
    requires k + n <= 64
  {
    seq(64, i requires 0 <= i < 64 => if i < k then w[i] else if i < k + n then v[i - k] else false)
  }

  /**
    `add_data_raw` on one node: nothing for an empty field or one that does
    not fit; otherwise the masked source is shifted to the watermark, ORed
    into the little-endian buffer, and the watermark grows by `len`. The
    new buffer is the old one with the field placed at the old watermark.
  */
  function Added(f: Frame, len: u8, src: seq<byte>): (r: Frame)
    requires Clean(f) && |src| >= CopySize(len)
    ensures Clean(r) && r.id == f.id
    ensures len == 0 || !Fits(f, len) ==> r == f
    ensures len > 0 && Fits(f, len) ==>
      r.usage == f.usage + len && Load(r.buffer) == Placement(Load(f.buffer), f.usage, len, Source(src, len))
  {
    if len == 0 || !Fits(f, len) then f
    else
      var merged := Or(Load(f.buffer), Shl(Masked(Source(src, len), len), f.usage));
      Placed(Load(f.buffer), f.usage, len, Source(src, len));
      LoadStore(merged);
      Frame(f.id, f.usage + len, Store(merged))
  }

  /**
    The source's bit operations place the field: ORing a masked field,
    shifted to bit k, into a word whose bits from k up are clear.
  */
  lemma Placed(w: Word, k: nat, n: u8, v: Word)
    requires 0 < n && k + n <= 64
    requires forall i :: k <= i < 64 ==> !w[i]
    ensures Or(w, Shl(Masked(v, n), k)) == Placement(w, k, n, v)
  {
    var m := Or(w, Shl(Masked(v, n), k));
    forall i | 0 <= i < 64
      ensures m[i] == Placement(w, k, n, v)[i]
    {
    }
  }

  /** The first node with the identifier, or the length of the list. */
  function Slot(fs: seq<Frame>, id: u32): (i: nat)
    ensures i <= |fs| && (i < |fs| ==> fs[i].id == id)
    ensures forall k :: 0 <= k < i ==> fs[k].id != id
  {
    if fs == [] then 0 else if fs[0].id == id then 0 else 1 + Slot(fs[1..], id)
  }

  /** The list after `get_frame`: unchanged when the identifier has a node, else one fresh node longer. */
  function Ensure(fs: seq<Frame>, id: u32): (r: seq<Frame>)
    ensures Slot(fs, id) < |r| && r[Slot(fs, id)].id == id
    ensures Slot(fs, id) < |fs| ==> r == fs
    ensures Slot(fs, id) == |fs| ==> r == fs + [Fresh(id)]
  {
    if Slot(fs, id) < |fs| then fs else fs + [Fresh(id)]
  }

  /** `get_frame` keeps the slot of the identifier. */
  lemma EnsureSlot(fs: seq<Frame>, id: u32)
    ensures Slot(Ensure(fs, id), id) == Slot(fs, id)
  {
    var r := Ensure(fs, id);
    var i := Slot(fs, id);
    assert forall k :: 0 <= k < i ==> r[k] == fs[k];
  }

  /** Replacing the node in the slot of `id` by one with the same identifier keeps the slot, and the list then has a node for `id`. */
  lemma Rewrite(fs: seq<Frame>, id: u32, f: Frame)
    requires Slot(fs, id) < |fs| && f.id == id
    ensures var gs := fs[Slot(fs, id) := f];
      Slot(gs, id) == Slot(fs, id) && Ensure(gs, id) == gs && gs[Slot(fs, id)] == f
  {
    var i := Slot(fs, id);
    var gs := fs[i := f];
    assert gs[i].id == id;
    assert forall k :: 0 <= k < i ==> gs[k] == fs[k];
  }

  /** Every node is well formed and no identifier has two nodes. */
  predicate Nodes(fs: seq<Frame>)
  {
    (forall i :: 0 <= i < |fs| ==> Clean(fs[i]))
    && (forall i, j :: 0 <= i < j < |fs| ==> fs[i].id != fs[j].id)
  }

  /** `get_frame` keeps the list well formed. */
  lemma EnsureKeepsNodes(fs: seq<Frame>, id: u32)
    requires Nodes(fs)
    ensures Nodes(Ensure(fs, id))
  {
  }

  /** Replacing the node in a slot by a well-formed node with the same identifier keeps the list well formed. */
  lemma ReplaceKeepsNodes(fs: seq<Frame>, i: nat, f: Frame)
    requires Nodes(fs) && i < |fs| && Clean(f) && f.id == fs[i].id
    ensures Nodes(fs[i := f])
  {
  }

  /** The bytes the chassis reads back from the command frame. */
  function Command(vx: byte, vy: byte, wz: byte, active: byte): (want: seq<byte>)
    ensures |want| == 8
    ensures want[0] == vx && want[1] == vy && want[2] == wz && want[3] == active & 1
  {
    [vx, vy, wz, active & 1, 0, 0, 0, 0]
  }

  /**
    The chassis command of the hero gimbal: `clear(0x101)`, then 8 bits of
    vx, vy and wz and 1 bit of `active`, each a one-byte value. The frame
    carries the three bytes as they are and the low bit of `active` in
    byte 3, which is where the chassis reads them back.
  */
  lemma ChassisCommand(vx: byte, vy: byte, wz: byte, active: byte)
    ensures var g := Added(Added(Added(Added(Fresh(0x101), 8, [vx]), 8, [vy]), 8, [wz]), 1, [active]);
      g.usage == 25 && g.buffer == [vx, vy, wz, active & 1, 0, 0, 0, 0]
  {
    var want := Command(vx, vy, wz, active);
    var f0 := Fresh(0x101);
    var f1 := Added(f0, 8, [vx]);
    var f2 := Added(f1, 8, [vy]);
    var f3 := Added(f2, 8, [wz]);
    var f4 := Added(f3, 1, [active]);
    ByteStep(f0, vx, want, 0);
    ByteStep(f1, vy, want, 1);
    ByteStep(f2, wz, want, 2);
    BitStep(f3, active, want);
    HighBitsClear(vx, vy, wz, active);
    Complete(f4, want);
  }

  /** A node that agrees with `want` up to its watermark, where `want` has no bit set, holds `want`. */
  lemma Complete(f: Frame, want: seq<byte>)
    requires Agrees(f, want)
    requires forall i :: f.usage <= i < 64 ==> !Load(want)[i]
    ensures f.buffer == want
  {
    assert Load(f.buffer) == Load(want);
    StoreLoad(f.buffer);
    StoreLoad(want);
  }

  /** An 8-bit field holding byte k of `want`, appended at bit 8k, keeps the node in agreement. */
  lemma ByteStep(f: Frame, b: byte, want: seq<byte>, k: nat)
    requires k < 3 && |want| == 8 && want[k] == b
    requires k == 0 ==> f == Fresh(0x101)
    requires k > 0 ==> Agrees(f, want) && f.usage == 8 * k
    ensures Agrees(Added(f, 8, [b]), want) && Added(f, 8, [b]).usage == 8 * k + 8
  {
    ByteAt(want, k, b);
    FieldStep(f, 8, [b], want);
  }

  /** A 1-bit field holding the low bit of byte 3 of `want`, appended at bit 24, keeps the node in agreement. */
  lemma BitStep(f: Frame, b: byte, want: seq<byte>)
    requires |want| == 8 && want[3] == b & 1
    requires Agrees(f, want) && f.usage == 24
    ensures Agrees(Added(f, 1, [b]), want) && Added(f, 1, [b]).usage == 25
  {
    LowBitAt(want, b);
    FieldStep(f, 1, [b], want);
  }

  /** The node holds the bits of `want` below its watermark. */
  predicate Agrees(f: Frame, want: seq<byte>)
  {
    Clean(f) && |want| == 8 && forall i :: 0 <= i < f.usage ==> Load(f.buffer)[i] == Load(want)[i]
  }

  /** Appending a field whose bits are those of `want` at the watermark keeps the node in agreement. */
  lemma FieldStep(f: Frame, len: u8, src: seq<byte>, want: seq<byte>)
    requires Agrees(f, want) && 0 < len && Fits(f, len) && |src| >= CopySize(len)
    requires forall i :: 0 <= i < len ==> Source(src, len)[i] == Load(want)[f.usage + i]
    ensures Agrees(Added(f, len, src), want) && Added(f, len, src).usage == f.usage + len
  {
    var g := Added(f, len, src);
    forall i | 0 <= i < g.usage
      ensures Load(g.buffer)[i] == Load(want)[i]
    {
      if i >= f.usage {
        assert Source(src, len)[i - f.usage] == Load(want)[f.usage + (i - f.usage)];
      }
    }
  }

  /** A one-byte source for an 8-bit field has the bits of byte k of `want`. */
  lemma ByteAt(want: seq<byte>, k: nat, b: byte)
    requires |want| == 8 && k < 8 && want[k] == b
    ensures forall i :: 0 <= i < 8 ==> Source([b], 8)[i] == Load(want)[8 * k + i]
  {
    OneByteSource(b, 8);
    OneByteBits(b);
    LoadByte(want, k);
  }

  /** A one-byte source for a 1-bit field has the low bit of byte 3 of `want`. */
  lemma LowBitAt(want: seq<byte>, b: byte)
    requires |want| == 8 && want[3] == b & 1
    ensures forall i :: 0 <= i < 1 ==> Source([b], 1)[i] == Load(want)[24 + i]
  {
    OneByteSource(b, 1);
    OneByteBits(b);
    LoadByte(want, 3);
    LowBit(b);
  }

  /** A field of at most 8 bits copies one source byte into a zeroed word. */
  lemma OneByteSource(b: byte, len: u8)
    requires 0 < len <= 8
    ensures Source([b], len) == Load([b] + Zeros(7))
  {
    assert [b][..1] + Zeros(7) == [b] + Zeros(7);
  }

  /** The low eight bits of a zero-padded byte are the byte's bits. */
  lemma OneByteBits(b: byte)
    ensures forall j :: 0 <= j < 8 ==> Load([b] + Zeros(7))[j] == ByteBits(b)[j]
  {
    LoadByte([b] + Zeros(7), 0);
  }

  /** Masking a byte to its low bit keeps bit 0. */
  lemma LowBit(b: byte)
    ensures ByteBits(b & 1)[0] == ByteBits(b)[0]
  {
  }

  /** The chassis command has no bit set from bit 25 up. */
  lemma HighBitsClear(vx: byte, vy: byte, wz: byte, active: byte)
    ensures forall i :: 25 <= i < 64 ==> !Load(Command(vx, vy, wz, active))[i]
  {
    assert (active & 1) & 0xFE == 0;
  }

  /** The process-wide list of frame nodes. */
  class Packer {
    var frames: seq<Frame>

    predicate Valid()
      reads this
    {
      Nodes(frames)
    }

    /** The constructor clears the list. */
    constructor ()
      ensures Valid() && frames == []
    {
      frames := [];
    }

    /** `get_frame`: the slot of the node for `id`, appending a fresh node when there is none. */
    method GetFrame(id: u32) returns (i: nat)
      requires Valid()
      modifies this
      ensures Valid()
      ensures i == Slot(old(frames), id) && frames == Ensure(old(frames), id)
    {
      i := 0;
      while i < |frames|
        invariant i <= |frames|
        invariant forall k :: 0 <= k < i ==> frames[k].id != id
      {
        if frames[i].id == id {
          return;
        }
        i := i + 1;
      }
      frames := frames + [Fresh(id)];
    }

    /** `clear`: the node for `id`, created if absent, is reset to usage 0 and zero bytes. */
    method Clear(id: u32)
      requires Valid()
      modifies this
      ensures Valid()
      ensures var e := Ensure(old(frames), id); frames == e[Slot(old(frames), id) := Fresh(id)]
    {
      var i := GetFrame(id);
      frames := frames[i := Fresh(id)];
    }

    /**
      `add_data_raw`: nothing for a null source or an empty field;
      otherwise the node for `id` is created if absent and the field is
      appended to it when it fits.
    */
    method AddDataRaw(id: u32, len: u8, data: Option<seq<byte>>)
      requires Valid()
      requires data.Some? && 0 < len && Fits(Ensure(frames, id)[Slot(frames, id)], len) ==>
        |data.value| >= CopySize(len)
      modifies this
      ensures Valid()
      ensures data.None? || len == 0 ==> frames == old(frames)
      ensures data.Some? && len > 0 ==>
        var e := Ensure(old(frames), id);
        var i := Slot(old(frames), id);
        && (Fits(e[i], len) ==> frames == e[i := Added(e[i], len, data.value)])
        && (!Fits(e[i], len) ==> frames == e)
    {
      if data.None? || len == 0 {
        return;
      }
      var i := GetFrame(id);
      var f := frames[i];
      if f.usage + len > FRAME_BITS {
        assert frames[i := f] == frames;
        return;
      }
      var g := Append(f, len, data.value);
      ReplaceKeepsNodes(frames, i, g);
      frames := frames[i := g];
    }

    /**
      The body of `add_data_raw` once the node is found and the field
      fits: load, mask, shift, OR, store, and move the watermark.
    */
    static method Append(f: Frame, len: u8, src: seq<byte>) returns (g: Frame)
      requires Clean(f) && 0 < len && Fits(f, len) && |src| >= CopySize(len)
      ensures g == Added(f, len, src)
    {
      var copySize := (len + 7) / 8;
      if copySize > 8 {
        copySize := 8;
      }
      assert copySize == CopySize(len);
      var dataVal := Load(src[..copySize] + Zeros(8 - copySize));
      if len < 64 {
        dataVal := And(dataVal, LowMask(len));
      }
      assert dataVal == Masked(Source(src, len), len);
      dataVal := Shl(dataVal, f.usage);
      var bufferVal := Load(f.buffer);
      bufferVal := Or(bufferVal, dataVal);
      g := Frame(f.id, f.usage + len, Store(bufferVal));
    }

    /** `add_data<T>`: the field's source is the little-endian representation of the value. */
    method AddData(id: u32, len: u8, repr: seq<byte>)
      requires Valid() && |repr| >= CopySize(len)
      modifies this
      ensures Valid()
      ensures len == 0 ==> frames == old(frames)
      ensures len > 0 ==>
        var e := Ensure(old(frames), id);
        var i := Slot(old(frames), id);
        frames == e[i := Added(e[i], len, repr)]
    {
      AddDataRaw(id, len, Some(repr));
    }

    /**
      What `send` hands to the CAN driver: the id and bytes of the first
      node for `id`, or nothing when there is no driver or no such node.
    */
    method Outgoing(id: u32, driver: bool) returns (msg: Option<(u32, seq<byte>)>)
      requires Valid()
      ensures driver && Slot(frames, id) < |frames| ==> msg == Some((id, frames[Slot(frames, id)].buffer))
      ensures !driver || Slot(frames, id) == |frames| ==> msg == None
    {
      if !driver {
        return None;
      }
      var i := 0;
      while i < |frames|
        invariant i <= |frames|
        invariant forall k :: 0 <= k < i ==> frames[k].id != id
      {
        if frames[i].id == id {
          return Some((id, frames[i].buffer));
        }
        i := i + 1;
      }
      return None;
    }

    /**
      The gimbal's chassis command as the application issues it; the
      frame for 0x101 then holds the command's bytes.
    */
    method PackChassisCommand(vx: byte, vy: byte, wz: byte, active: byte)
      requires Valid()
      modifies this
      ensures Valid() && Slot(frames, 0x101) < |frames|
      ensures frames[Slot(frames, 0x101)].buffer == [vx, vy, wz, active & 1, 0, 0, 0, 0]
    {
      ghost var s := Slot(frames, 0x101);
      EnsureSlot(frames, 0x101);
      Clear(0x101);
      Rewrite(Ensure(old(frames), 0x101), 0x101, Fresh(0x101));
      ghost var p0 := frames;
      AddData(0x101, 8, [vx]);
      Rewrite(p0, 0x101, Added(p0[s], 8, [vx]));
      ghost var p1 := frames;
      AddData(0x101, 8, [vy]);
      Rewrite(p1, 0x101, Added(p1[s], 8, [vy]));
      ghost var p2 := frames;
      AddData(0x101, 8, [wz]);
      Rewrite(p2, 0x101, Added(p2[s], 8, [wz]));
      ghost var p3 := frames;
      AddData(0x101, 1, [active]);
      Rewrite(p3, 0x101, Added(p3[s], 1, [active]));
      ChassisCommand(vx, vy, wz, active);
    }
  }
}

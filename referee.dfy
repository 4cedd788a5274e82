/**
  The referee-system driver (pyro_referee.h / pyro_referee.cpp).

  Receive side: bytes from the UART FIFO run through a byte-at-a-time frame
  synchroniser (`unpack_context`, `unpack_fifo_data`). A frame whose header
  CRC8 and whole-frame CRC16 verify is handed to `solve_data`, which marks
  the link live and, if the command is on the 1024-entry allow-list and has
  a record, copies min(length, record size) payload bytes into that record
  of the packed `RefereeData`. The task marks the link offline after 2000 ms
  without a frame.

  Send side: `send_packet` frames a payload (SOF, length, sequence number,
  CRC8, command, payload, CRC16) in a 256-byte buffer; the interaction, UI
  and custom-info sends wrap their payloads in the interaction header.

  The pure functions below specify the parser (`Feed`, `Scan`) and the
  receive path (`AbsorbByte`, `Absorb`); the `Driver` class holds the
  source's mutable state and its methods are proved against them.
*/
module Referee {
  import opened Wire
  import opened Crc
  import opened RefereeProtocol

  // ----- the frame format -----

  /** A frame exactly as the synchroniser accepts it. */
  predicate WellFormed(c: Checksums, v: seq<byte>)
  {
    && |v| >= HEADER_CRC_CMDID_LEN && v[0] == HEADER_SOF
    && U16(v[1], v[2]) < 247 && |v| == HEADER_CRC_CMDID_LEN + U16(v[1], v[2])
    && Verify8(c, v[..HEADER_SIZE]) && Verify16(c, v)
  }

  /** The length field matches the frame's size. */
  predicate FrameShape(v: seq<byte>)
  {
    |v| >= HEADER_CRC_CMDID_LEN && |v| == HEADER_CRC_CMDID_LEN + U16(v[1], v[2])
  }

  /** The frame send_packet writes for a payload of `len` bytes. */
  function BuildFrame(c: Checksums, cmd: u16, seqNo: byte, len: u16, payload: seq<byte>): (f: seq<byte>)
    requires |payload| == len
    ensures |f| == HEADER_CRC_CMDID_LEN + len
  {
    Append16(c, Append8(c, [HEADER_SOF] + Bytes16(len) + [seqNo, 0]) + Bytes16(cmd) + payload + [0, 0])
  }

  /**
    The built frame carries SOF, the length, the sequence number, the command
    and the payload where the receiver reads them, and both checksums verify.
  */
  lemma {:induction false} BuiltFrameFields(c: Checksums, cmd: u16, seqNo: byte, len: u16, payload: seq<byte>)
    requires |payload| == len
    ensures var f := BuildFrame(c, cmd, seqNo, len, payload);
            && f[0] == HEADER_SOF && U16(f[1], f[2]) == len && f[3] == seqNo
            && U16(f[5], f[6]) == cmd && f[HEADER_CMDID_LEN..HEADER_CMDID_LEN + len] == payload
            && Verify8(c, f[..HEADER_SIZE]) && Verify16(c, f) && FrameShape(f)
  {
    var h := Append8(c, [HEADER_SOF] + Bytes16(len) + [seqNo, 0]);
    var m := h + Bytes16(cmd) + payload + [0, 0];
    var f := BuildFrame(c, cmd, seqNo, len, payload);
    assert f[..|m| - 2] == m[..|m| - 2];
    assert f[..HEADER_SIZE] == h;
    assert h[..4] == [HEADER_SOF] + Bytes16(len) + [seqNo];
    assert f[0] == h[0] && f[1] == h[1] && f[2] == h[2] && f[3] == h[3];
    assert f[5] == m[5] && f[6] == m[6];
    assert f[HEADER_CMDID_LEN..HEADER_CMDID_LEN + len] == m[HEADER_CMDID_LEN..HEADER_CMDID_LEN + len];
  }

  /** A built frame whose payload is shorter than 247 bytes is well formed. */
  lemma BuiltFrameWellFormed(c: Checksums, cmd: u16, seqNo: byte, len: u16, payload: seq<byte>)
    requires |payload| == len && len < 247
    ensures WellFormed(c, BuildFrame(c, cmd, seqNo, len, payload))
  {
    BuiltFrameFields(c, cmd, seqNo, len, payload);
  }

  // ----- the synchroniser -----

  /** unpack_step, in declaration order. */
  datatype Step = HeaderSof | LengthLow | LengthHigh | FrameSeq | HeaderCrc8 | DataCrc16
  {
    function Code(): nat
    {
      match this
      case HeaderSof => 0
      case LengthLow => 1
      case LengthHigh => 2
      case FrameSeq => 3
      case HeaderCrc8 => 4
      case DataCrc16 => 5
    }
  }

  /** unpack_context: step, index, data_len and the 256-byte packet. */
  datatype Parser = Parser(step: Step, index: nat, dataLen: u16, packet: seq<byte>)

  /** The value-initialised context. */
  function InitialParser(): Parser
  {
    Parser(HeaderSof, 0, 0, Zeros(FRAME_MAX_SIZE))
  }

  /** From LENGTH_HIGH on, the stored length field is the data_len being parsed and is below 247. */
  predicate HeadOk(p: Parser)
    requires |p.packet| == FRAME_MAX_SIZE
  {
    p.packet[0] == HEADER_SOF && U16(p.packet[1], p.packet[2]) == p.dataLen && p.dataLen < 247
  }

  /**
    The context invariant: the index is the number of frame bytes stored,
    and in the body it stays below 9 + data_len <= 255, so every write is
    inside the packet.
  */
  predicate ParserValid(c: Checksums, p: Parser)
  {
    && |p.packet| == FRAME_MAX_SIZE
    && match p.step
       case HeaderSof => p.index == 0
       case LengthLow => p.index == 1 && p.packet[0] == HEADER_SOF
       case LengthHigh => p.index == 2 && p.packet[0] == HEADER_SOF && p.dataLen == p.packet[1] as nat
       case FrameSeq => p.index == 3 && HeadOk(p)
       case HeaderCrc8 => p.index == 4 && HeadOk(p)
       case DataCrc16 =>
         HeadOk(p) && Verify8(c, p.packet[..HEADER_SIZE])
         && HEADER_SIZE <= p.index < HEADER_CRC_CMDID_LEN + p.dataLen
  }

  lemma InitialParserValid(c: Checksums)
    ensures ParserValid(c, InitialParser())
  {
  }

  function FrameList(f: Option<seq<byte>>): seq<seq<byte>>
  {
    if f.Some? then [f.value] else []
  }

  /** HEADER_SOF: a 0xA5 starts a frame at packet[0]; any other byte is dropped with index 0. */
  function FeedSof(c: Checksums, p: Parser, b: byte): (r: Parser)
    requires ParserValid(c, p) && p.step == HeaderSof
    ensures ParserValid(c, r)
  {
    if b == HEADER_SOF then Parser(LengthLow, 1, p.dataLen, p.packet[0 := b]) else p.(index := 0)
  }

  /** LENGTH_LOW: the low length byte. */
  function FeedLengthLow(c: Checksums, p: Parser, b: byte): (r: Parser)
    requires ParserValid(c, p) && p.step == LengthLow
    ensures ParserValid(c, r)
  {
    Parser(LengthHigh, 2, b as nat, p.packet[1 := b])
  }

  /**
    LENGTH_HIGH: the high length byte (`len |= byte << 8`, which, the low
    byte being below 256, is len + 256 * byte); a length of 256 - 9 or more
    resets.
  */
  function FeedLengthHigh(c: Checksums, p: Parser, b: byte): (r: Parser)
    requires ParserValid(c, p) && p.step == LengthHigh
    ensures ParserValid(c, r)
  {
    var len := p.dataLen + 0x100 * b as nat;
    var pk := p.packet[2 := b];
    if len < 247 then Parser(FrameSeq, 3, len, pk) else Parser(HeaderSof, 0, len, pk)
  }

  /** FeedLengthHigh with its two outcomes written out; the length fits 16 bits. */
  lemma LengthHighShape(c: Checksums, p: Parser, b: byte)
    requires ParserValid(c, p) && p.step == LengthHigh
    ensures var len := p.dataLen + 0x100 * b as nat;
            && len < 0x1_0000
            && FeedLengthHigh(c, p, b)
               == Parser(if len < 247 then FrameSeq else HeaderSof, if len < 247 then 3 else 0, len, p.packet[2 := b])
  {
  }

  /** FRAME_SEQ: the sequence byte. */
  function FeedSeq(c: Checksums, p: Parser, b: byte): (r: Parser)
    requires ParserValid(c, p) && p.step == FrameSeq
    ensures ParserValid(c, r)
  {
    Parser(HeaderCrc8, 4, p.dataLen, p.packet[3 := b])
  }

  /** HEADER_CRC8: the fifth header byte; the CRC8 over the five decides. */
  function FeedCrc8(c: Checksums, p: Parser, b: byte): (r: Parser)
    requires ParserValid(c, p) && p.step == HeaderCrc8
    ensures ParserValid(c, r)
  {
    var pk := p.packet[4 := b];
    assert pk[..HEADER_SIZE - 1] == p.packet[..HEADER_SIZE - 1];
    if Verify8(c, pk[..HEADER_SIZE]) then Parser(DataCrc16, HEADER_SIZE, p.dataLen, pk)
    else Parser(HeaderSof, 0, p.dataLen, pk)
  }

  /** DATA_CRC16: store the byte; at 9 + data_len bytes reset, handing over the frame if its CRC16 verifies. */
  function FeedBody(c: Checksums, p: Parser, b: byte): (r: (Parser, Option<seq<byte>>))
    requires ParserValid(c, p) && p.step == DataCrc16
    ensures ParserValid(c, r.0)
  {
    var total := HEADER_CRC_CMDID_LEN + p.dataLen;
    var pk := p.packet[p.index := b];
    assert pk[..HEADER_SIZE] == p.packet[..HEADER_SIZE];
    if p.index + 1 >= total then
      (Parser(HeaderSof, 0, p.dataLen, pk), if Verify16(c, pk[..total]) then Some(pk[..total]) else None)
    else (Parser(DataCrc16, p.index + 1, p.dataLen, pk), None)
  }

  /**
    One byte of unpack_fifo_data's switch: the next context, and the frame
    handed to solve_data when this byte completes one whose CRC16 verifies.
  */
  function Feed(c: Checksums, p: Parser, b: byte): (r: (Parser, Option<seq<byte>>))
    requires ParserValid(c, p)
    ensures ParserValid(c, r.0)
  {
    match p.step
    case HeaderSof => (FeedSof(c, p, b), None)
    case LengthLow => (FeedLengthLow(c, p, b), None)
    case LengthHigh => (FeedLengthHigh(c, p, b), None)
    case FrameSeq => (FeedSeq(c, p, b), None)
    case HeaderCrc8 => (FeedCrc8(c, p, b), None)
    case DataCrc16 => FeedBody(c, p, b)
  }

  /** A frame handed over is well formed, and the synchroniser is back at SOF search. */
  lemma FeedHandsOverWellFormed(c: Checksums, p: Parser, b: byte)
    requires ParserValid(c, p)
    ensures var r := Feed(c, p, b);
            r.1.Some? ==> WellFormed(c, r.1.value) && r.0.step == HeaderSof
  {
    if p.step == DataCrc16 {
      var total := HEADER_CRC_CMDID_LEN + p.dataLen;
      var pk := p.packet[p.index := b];
      assert pk[..HEADER_SIZE] == p.packet[..HEADER_SIZE];
      assert pk[..total][..HEADER_SIZE] == pk[..HEADER_SIZE];
    }
  }

  /**
    A frame handed over is the leading 9 + length bytes of the packet left
    behind, for the length its header field holds, which is below 247:
    solve_data may read the frame straight from the packet buffer.
  */
  lemma FeedHandsOverPacket(c: Checksums, p: Parser, b: byte)
    requires ParserValid(c, p)
    ensures var r := Feed(c, p, b);
            r.1.Some? ==>
              && U16(r.0.packet[1], r.0.packet[2]) < 247
              && r.1.value == r.0.packet[..HEADER_CRC_CMDID_LEN + U16(r.0.packet[1], r.0.packet[2])]
  {
    if p.step == DataCrc16 {
      var pk := p.packet[p.index := b];
      assert pk[1] == p.packet[1] && pk[2] == p.packet[2];
    }
  }

  /**
    The synchroniser falls back to SOF search exactly on a non-SOF byte
    while searching, a length of 247 or more, a bad header CRC8, or the last
    byte of a body; it hands over a frame exactly when that last byte
    completes a frame whose CRC16 verifies.
  */
  lemma FeedResyncs(c: Checksums, p: Parser, b: byte)
    requires ParserValid(c, p)
    ensures var r := Feed(c, p, b);
            r.0.step == HeaderSof <==>
              || (p.step == HeaderSof && b != HEADER_SOF)
              || (p.step == LengthHigh && U16(p.packet[1], b) >= 247)
              || (p.step == HeaderCrc8 && !Verify8(c, p.packet[..4] + [b]))
              || (p.step == DataCrc16 && p.index + 1 == HEADER_CRC_CMDID_LEN + p.dataLen)
    ensures var r := Feed(c, p, b);
            r.0.step == HeaderSof ==> r.0.index == 0
    ensures var r := Feed(c, p, b);
            r.1.Some? <==>
              p.step == DataCrc16 && p.index + 1 == HEADER_CRC_CMDID_LEN + p.dataLen
              && Verify16(c, p.packet[p.index := b][..p.index + 1])
  {
    match p.step
    case HeaderCrc8 =>
      assert p.packet[4 := b][..HEADER_SIZE] == p.packet[..4] + [b];
    case _ =>
  }

  /** Running the synchroniser over a byte string: final context and the frames handed over, in order. */
  function Scan(c: Checksums, p: Parser, bytes: seq<byte>): (r: (Parser, seq<seq<byte>>))
    requires ParserValid(c, p)
    ensures ParserValid(c, r.0)
    decreases |bytes|
  {
    if bytes == [] then (p, [])
    else
      var s := Feed(c, p, bytes[0]);
      var r := Scan(c, s.0, bytes[1..]);
      if s.1.Some? then (r.0, [s.1.value] + r.1) else r
  }

  /** The frames one byte hands over: none, or the one it completes. */
  function Handed(f: Option<seq<byte>>): (r: seq<seq<byte>>)
    ensures f.Some? ==> r == [f.value]
    ensures f.None? ==> r == []
  {
    if f.Some? then [f.value] else []
  }

  /** Every frame the synchroniser hands over is well formed. */
  lemma {:induction false} ScannedFramesWellFormed(c: Checksums, p: Parser, bytes: seq<byte>)
    requires ParserValid(c, p)
    ensures forall i :: 0 <= i < |Scan(c, p, bytes).1| ==> WellFormed(c, Scan(c, p, bytes).1[i])
    decreases |bytes|
  {
    if bytes != [] {
      var s := Feed(c, p, bytes[0]);
      FeedHandsOverWellFormed(c, p, bytes[0]);
      ScannedFramesWellFormed(c, s.0, bytes[1..]);
    }
  }

  /** Scanning two strings one after the other is scanning their concatenation. */
  lemma {:induction false} ScanConcat(c: Checksums, p: Parser, a: seq<byte>, b: seq<byte>)
    requires ParserValid(c, p)
    ensures var ra := Scan(c, p, a);
            var rb := Scan(c, ra.0, b);
            Scan(c, p, a + b) == (rb.0, ra.1 + rb.1)
  {
    var ra := Scan(c, p, a);
    ScanIsFold(c, p, a + b);
    ScanIsFold(c, p, a);
    ScanIsFold(c, ra.0, b);
    FoldConcat(Stepper(c), p, a, b);
  }

  /** Feed as a total step function, for reasoning about scans without its cases. */
  function Stepper(c: Checksums): (Parser, byte) -> (Parser, Option<seq<byte>>)
  {
    (q: Parser, x: byte) => if ParserValid(c, q) then Feed(c, q, x) else (q, None)
  }

  /** A scan with an arbitrary step function. */
  function Fold<P>(step: (P, byte) -> (P, Option<seq<byte>>), p: P, bytes: seq<byte>): (P, seq<seq<byte>>)
    decreases |bytes|
  {
    if bytes == [] then (p, [])
    else
      var s := step(p, bytes[0]);
      var r := Fold(step, s.0, bytes[1..]);
      (r.0, Handed(s.1) + r.1)
  }

  lemma {:induction false} FoldConcat<P>(step: (P, byte) -> (P, Option<seq<byte>>), p: P, a: seq<byte>, b: seq<byte>)
    ensures var ra := Fold(step, p, a);
            var rb := Fold(step, ra.0, b);
            Fold(step, p, a + b) == (rb.0, ra.1 + rb.1)
    decreases |a|
  {
    if a == [] {
      assert a + b == b;
      assert [] + Fold(step, p, b).1 == Fold(step, p, b).1;
    } else {
      var s := step(p, a[0]);
      assert (a + b)[0] == a[0];
      assert (a + b)[1..] == a[1..] + b;
      FoldConcat(step, s.0, a[1..], b);
      var ra := Fold(step, s.0, a[1..]);
      var rb := Fold(step, ra.0, b);
      assert Handed(s.1) + (ra.1 + rb.1) == (Handed(s.1) + ra.1) + rb.1;
    }
  }

  /** Scan is the fold of its step function. */
  lemma {:induction false} ScanIsFold(c: Checksums, p: Parser, bytes: seq<byte>)
    requires ParserValid(c, p)
    ensures Scan(c, p, bytes) == Fold(Stepper(c), p, bytes)
    decreases |bytes|
  {
    if bytes != [] {
      var s := Feed(c, p, bytes[0]);
      assert Stepper(c)(p, bytes[0]) == s;
      ScanIsFold(c, s.0, bytes[1..]);
      ghost var r := Scan(c, s.0, bytes[1..]);
      assert Handed(s.1) + r.1 == if s.1.Some? then [s.1.value] + r.1 else r.1;
    }
  }

  /** While searching for SOF, bytes other than 0xA5 are discarded and nothing is handed over. */
  lemma {:induction false} GarbageSkipped(c: Checksums, p: Parser, bytes: seq<byte>)
    requires ParserValid(c, p) && p.step == HeaderSof
    requires forall i :: 0 <= i < |bytes| ==> bytes[i] != HEADER_SOF
    ensures Scan(c, p, bytes) == (p, [])
    decreases |bytes|
  {
    if bytes != [] {
      assert bytes[0] != HEADER_SOF;
      assert FeedSof(c, p, bytes[0]) == p;
      assert Feed(c, p, bytes[0]) == (p, None);
      assert forall i :: 0 <= i < |bytes[1..]| ==> bytes[1..][i] == bytes[i + 1];
      GarbageSkipped(c, p, bytes[1..]);
      var none: Option<seq<byte>> := None;
      assert FrameList(none) + [] == [];
    }
  }

  /** Storing f[k] at index k extends a stored prefix of f by one byte. */
  lemma StoreExtends(packet: seq<byte>, f: seq<byte>, k: nat)
    requires k < |packet| && k < |f| && packet[..k] == f[..k]
    ensures packet[k := f[k]][..k + 1] == f[..k + 1]
  {
    assert forall i :: 0 <= i < k ==> packet[i] == packet[..k][i];
  }

  /**
    The body phase: from any index k inside a frame f of 9 + data_len bytes
    whose CRC16 verifies, the rest of f completes exactly f.
  */
  lemma {:induction false} BodyCompletes(c: Checksums, p: Parser, f: seq<byte>, k: nat)
    requires ParserValid(c, p) && p.step == DataCrc16 && p.index == k
    requires |f| == HEADER_CRC_CMDID_LEN + p.dataLen && Verify16(c, f)
    requires k < |f| && p.packet[..k] == f[..k]
    ensures Scan(c, p, f[k..]).0.step == HeaderSof && Scan(c, p, f[k..]).1 == [f]
    decreases |f| - k
  {
    StoreExtends(p.packet, f, k);
    var pk := p.packet[k := f[k]];
    var s := FeedBody(c, p, f[k]);
    assert f[k..][0] == f[k] && f[k..][1..] == f[k + 1..];
    if k + 1 == |f| {
      assert pk[..|f|] == f;
      assert s == (Parser(HeaderSof, 0, p.dataLen, pk), Some(f));
      assert f[k + 1..] == [];
    } else {
      assert s == (Parser(DataCrc16, k + 1, p.dataLen, pk), None);
      BodyCompletes(c, s.0, f, k + 1);
    }
  }

  /** Scanning a string is feeding its first byte, then scanning the rest. */
  lemma ScanStep(c: Checksums, p: Parser, bytes: seq<byte>)
    requires ParserValid(c, p) && bytes != []
    requires Feed(c, p, bytes[0]).1 == None
    ensures Scan(c, p, bytes) == Scan(c, Feed(c, p, bytes[0]).0, bytes[1..])
  {
  }

  /** SOF and the two length bytes of a frame with an acceptable length lead to FRAME_SEQ. */
  lemma {:induction false} LengthRead(c: Checksums, p: Parser, f: seq<byte>)
    requires ParserValid(c, p) && p.step == HeaderSof
    requires |f| >= HEADER_SIZE && f[0] == HEADER_SOF && U16(f[1], f[2]) < 247
    ensures var p3 := Parser(FrameSeq, 3, U16(f[1], f[2]), p.packet[0 := f[0]][1 := f[1]][2 := f[2]]);
            && ParserValid(c, p3) && p3.packet[..3] == f[..3]
            && Scan(c, p, f) == Scan(c, p3, f[3..])
  {
    var p1 := Parser(LengthLow, 1, p.dataLen, p.packet[0 := f[0]]);
    assert Feed(c, p, f[0]) == (p1, None);
    var p2 := Parser(LengthHigh, 2, f[1] as nat, p1.packet[1 := f[1]]);
    assert Feed(c, p1, f[1]) == (p2, None);
    var p3 := Parser(FrameSeq, 3, U16(f[1], f[2]), p2.packet[2 := f[2]]);
    assert Feed(c, p2, f[2]) == (p3, None);
    assert p3.packet[..3] == f[..3];
    ScanStep(c, p, f);
    assert f[1..][0] == f[1] && f[1..][1..] == f[2..];
    ScanStep(c, p1, f[1..]);
    assert f[2..][0] == f[2] && f[2..][1..] == f[3..];
    ScanStep(c, p2, f[2..]);
  }

  /** The sequence byte and a header CRC8 that verifies lead to the body. */
  lemma {:induction false} HeaderChecked(c: Checksums, p: Parser, f: seq<byte>)
    requires ParserValid(c, p) && p.step == FrameSeq
    requires |f| >= HEADER_SIZE && p.packet[..3] == f[..3] && Verify8(c, f[..HEADER_SIZE])
    ensures var p5 := Parser(DataCrc16, HEADER_SIZE, p.dataLen, p.packet[3 := f[3]][4 := f[4]]);
            && ParserValid(c, p5) && p5.packet[..HEADER_SIZE] == f[..HEADER_SIZE]
            && Scan(c, p, f[3..]) == Scan(c, p5, f[HEADER_SIZE..])
  {
    var p4 := Parser(HeaderCrc8, 4, p.dataLen, p.packet[3 := f[3]]);
    assert Feed(c, p, f[3]) == (p4, None);
    var pk := p4.packet[4 := f[4]];
    assert pk[..HEADER_SIZE] == f[..HEADER_SIZE];
    var p5 := Parser(DataCrc16, HEADER_SIZE, p.dataLen, pk);
    assert Feed(c, p4, f[4]) == (p5, None);
    assert f[3..][0] == f[3] && f[3..][1..] == f[4..];
    ScanStep(c, p, f[3..]);
    assert f[4..][0] == f[4] && f[4..][1..] == f[5..];
    ScanStep(c, p4, f[4..]);
  }

  /**
    From SOF search, a well-formed frame is recognised whole: the synchroniser
    hands over exactly that frame and is back at SOF search.
  */
  lemma {:induction false} FrameRecognised(c: Checksums, p: Parser, f: seq<byte>)
    requires ParserValid(c, p) && p.step == HeaderSof && WellFormed(c, f)
    ensures Scan(c, p, f).0.step == HeaderSof && Scan(c, p, f).1 == [f]
  {
    LengthRead(c, p, f);
    var p3 := Parser(FrameSeq, 3, U16(f[1], f[2]), p.packet[0 := f[0]][1 := f[1]][2 := f[2]]);
    HeaderChecked(c, p3, f);
    var p5 := Parser(DataCrc16, HEADER_SIZE, p3.dataLen, p3.packet[3 := f[3]][4 := f[4]]);
    BodyCompletes(c, p5, f, HEADER_SIZE);
  }

  // ----- dispatch -----

  /** `memcpy(data + off, src, |src|)` on the packed record holder. */
  function CopyInto(data: seq<byte>, off: nat, src: seq<byte>): (r: seq<byte>)
    requires off + |src| <= |data|
    ensures |r| == |data|
  {
    data[..off] + src + data[off + |src|..]
  }

  /** safe_copy into record r: min(len, sizeof record) bytes. */
  function SafeCopy(data: seq<byte>, r: Record, src: seq<byte>, len: nat): (d: seq<byte>)
    requires |data| == DATA_SIZE && |src| >= Min(len, r.Size())
    ensures |d| == DATA_SIZE
  {
    RecordsDisjoint(r, r);
    CopyInto(data, Offset(r), src[..Min(len, r.Size())])
  }

  /**
    safe_copy writes exactly min(len, size) bytes into record r, from the
    record's start; the rest of r and every other record keep their bytes.
  */
  lemma SafeCopyBounded(data: seq<byte>, r: Record, src: seq<byte>, len: nat, j: nat)
    requires |data| == DATA_SIZE && |src| >= Min(len, r.Size()) && j < DATA_SIZE
    ensures var d := SafeCopy(data, r, src, len);
            var n := Min(len, r.Size());
            && n <= r.Size()
            && (Offset(r) <= j < Offset(r) + n ==> d[j] == src[j - Offset(r)])
            && (!(Offset(r) <= j < Offset(r) + n) ==> d[j] == data[j])
  {
    RecordsDisjoint(r, r);
    CopyIntoAt(data, Offset(r), src[..Min(len, r.Size())], j);
  }

  /** A copy changes exactly the bytes of its destination range, to the source's. */
  lemma CopyIntoAt(data: seq<byte>, off: nat, src: seq<byte>, j: nat)
    requires off + |src| <= |data| && j < |data|
    ensures off <= j < off + |src| ==> CopyInto(data, off, src)[j] == src[j - off]
    ensures !(off <= j < off + |src|) ==> CopyInto(data, off, src)[j] == data[j]
  {
  }

  /** solve_data's effect on the records of an accepted frame. */
  function Dispatch(data: seq<byte>, enabled: seq<bool>, frame: seq<byte>): (d: seq<byte>)
    requires |data| == DATA_SIZE && |enabled| == MAX_CMD_ID_COUNT && FrameShape(frame)
    ensures |d| == DATA_SIZE
  {
    var cmd := U16(frame[5], frame[6]);
    if cmd >= MAX_CMD_ID_COUNT || !enabled[cmd] then data
    else
      match RecordFor(cmd)
      case None => data
      case Some(r) => SafeCopy(data, r, frame[HEADER_CMDID_LEN..], U16(frame[1], frame[2]))
  }

  /**
    A frame changes records only when its command is enabled and has a
    record; then only that record's range changes, and it receives the
    payload's leading bytes.
  */
  lemma {:induction false} DispatchTouchesOneRecord(data: seq<byte>, enabled: seq<bool>, frame: seq<byte>, j: nat)
    requires |data| == DATA_SIZE && |enabled| == MAX_CMD_ID_COUNT && FrameShape(frame) && j < DATA_SIZE
    ensures var cmd := U16(frame[5], frame[6]);
            Dispatch(data, enabled, frame)[j] != data[j] ==>
              && cmd < MAX_CMD_ID_COUNT && enabled[cmd] && RecordFor(cmd).Some?
              && var r := RecordFor(cmd).value;
                 Offset(r) <= j < Offset(r) + Min(U16(frame[1], frame[2]), r.Size())
                 && Dispatch(data, enabled, frame)[j] == frame[HEADER_CMDID_LEN + j - Offset(r)]
  {
    var cmd := U16(frame[5], frame[6]);
    if cmd < MAX_CMD_ID_COUNT && enabled[cmd] && RecordFor(cmd).Some? {
      SafeCopyBounded(data, RecordFor(cmd).value, frame[HEADER_CMDID_LEN..], U16(frame[1], frame[2]), j);
    }
  }

  /** A 1-byte GAME_RESULT payload overwrites exactly `winner`, the whole of its record. */
  lemma GameResultOverwritesWinner(data: seq<byte>, enabled: seq<bool>, frame: seq<byte>)
    requires |data| == DATA_SIZE && |enabled| == MAX_CMD_ID_COUNT && FrameShape(frame)
    requires U16(frame[5], frame[6]) == GameResult.Value() && enabled[GameResult.Value()] && U16(frame[1], frame[2]) == 1
    ensures Dispatch(data, enabled, frame) == data[..Offset(GameResultRec)] + [frame[HEADER_CMDID_LEN]]
                                              + data[Offset(GameResultRec) + 1..]
  {
  }

  // ----- the receive path -----

  /** The receive-side state: context, packed records, liveness flag and timestamp. */
  datatype RxState = RxState(parser: Parser, data: seq<byte>, online: bool, lastUpdate: nat)

  predicate RxValid(c: Checksums, s: RxState)
  {
    ParserValid(c, s.parser) && |s.data| == DATA_SIZE
  }

  /** One FIFO byte: the synchroniser step and, on a verified frame, solve_data at time `now`. */
  function AbsorbByte(c: Checksums, enabled: seq<bool>, s: RxState, b: byte, now: nat): (r: RxState)
    requires RxValid(c, s) && |enabled| == MAX_CMD_ID_COUNT
    ensures RxValid(c, r)
  {
    var f := Feed(c, s.parser, b);
    if f.1.Some? then RxState(f.0, Dispatch(s.data, enabled, f.1.value), true, now)
    else s.(parser := f.0)
  }

  /** unpack_fifo_data: every byte of the FIFO in order. */
  function Absorb(c: Checksums, enabled: seq<bool>, s: RxState, bytes: seq<byte>, now: nat): (r: RxState)
    requires RxValid(c, s) && |enabled| == MAX_CMD_ID_COUNT
    ensures RxValid(c, r)
    decreases |bytes|
  {
    if bytes == [] then s else Absorb(c, enabled, AbsorbByte(c, enabled, s, bytes[0], now), bytes[1..], now)
  }

  /** solve_data applied to each frame in order. */
  function DispatchAll(data: seq<byte>, enabled: seq<bool>, frames: seq<seq<byte>>): (d: seq<byte>)
    requires |data| == DATA_SIZE && |enabled| == MAX_CMD_ID_COUNT
    requires forall i :: 0 <= i < |frames| ==> FrameShape(frames[i])
    ensures |d| == DATA_SIZE
    decreases |frames|
  {
    if frames == [] then data else DispatchAll(Dispatch(data, enabled, frames[0]), enabled, frames[1..])
  }

  lemma WellFormedShape(c: Checksums, v: seq<byte>)
    requires WellFormed(c, v)
    ensures FrameShape(v)
  {
  }

  /**
    The receive path is the synchroniser followed by the dispatcher: the
    records change by the frames Scan hands over, in order; the link is
    marked live, with timestamp `now`, exactly when at least one frame was
    handed over, and is otherwise left as it was.
  */
  lemma {:induction false} AbsorbIsScanThenDispatch(c: Checksums, enabled: seq<bool>, s: RxState, bytes: seq<byte>, now: nat)
    requires RxValid(c, s) && |enabled| == MAX_CMD_ID_COUNT
    ensures var sc := Scan(c, s.parser, bytes);
            var r := Absorb(c, enabled, s, bytes, now);
            && (forall i :: 0 <= i < |sc.1| ==> FrameShape(sc.1[i]))
            && r.parser == sc.0
            && r.data == DispatchAll(s.data, enabled, sc.1)
            && r.online == (s.online || sc.1 != [])
            && r.lastUpdate == (if sc.1 != [] then now else s.lastUpdate)
    decreases |bytes|
  {
    ScannedFramesShaped(c, s.parser, bytes);
    if bytes != [] {
      var sc := Scan(c, s.parser, bytes);
      var f := Feed(c, s.parser, bytes[0]);
      var s1 := AbsorbByte(c, enabled, s, bytes[0], now);
      AbsorbIsScanThenDispatch(c, enabled, s1, bytes[1..], now);
      var rest := Scan(c, f.0, bytes[1..]);
      if f.1.Some? {
        assert sc.1 == [f.1.value] + rest.1;
        assert sc.1[1..] == rest.1;
      } else {
        assert sc.1 == rest.1;
      }
    }
  }

  /** Every frame Scan hands over has the shape solve_data relies on. */
  lemma ScannedFramesShaped(c: Checksums, p: Parser, bytes: seq<byte>)
    requires ParserValid(c, p)
    ensures forall i :: 0 <= i < |Scan(c, p, bytes).1| ==> FrameShape(Scan(c, p, bytes).1[i])
  {
    var frames := Scan(c, p, bytes).1;
    ScannedFramesWellFormed(c, p, bytes);
    forall i | 0 <= i < |frames|
      ensures FrameShape(frames[i])
    {
      WellFormedShape(c, frames[i]);
    }
  }

  /** solve_data on a frame naming record r's command and carrying `len` payload bytes copies them into r. */
  lemma DispatchFields(data: seq<byte>, enabled: seq<bool>, r: Record, f: seq<byte>, len: u16, payload: seq<byte>)
    requires |data| == DATA_SIZE && |enabled| == MAX_CMD_ID_COUNT && FrameShape(f)
    requires U16(f[1], f[2]) == len && U16(f[5], f[6]) == r.Cmd().Value() && enabled[r.Cmd().Value()]
    requires |payload| == len && f[HEADER_CMDID_LEN..HEADER_CMDID_LEN + len] == payload
    ensures Dispatch(data, enabled, f) == SafeCopy(data, r, payload, len)
  {
    DispatchTo(data, enabled, r, f);
    var n := Min(len, r.Size());
    assert f[HEADER_CMDID_LEN..][..n] == payload[..n];
  }

  /** A frame naming an enabled command with a record is copied into that record. */
  lemma DispatchTo(data: seq<byte>, enabled: seq<bool>, r: Record, f: seq<byte>)
    requires |data| == DATA_SIZE && |enabled| == MAX_CMD_ID_COUNT && FrameShape(f)
    requires U16(f[5], f[6]) == r.Cmd().Value() && enabled[r.Cmd().Value()]
    ensures Dispatch(data, enabled, f) == SafeCopy(data, r, f[HEADER_CMDID_LEN..], U16(f[1], f[2]))
  {
    CmdIdsFitAllowList(r.Cmd(), r.Cmd());
    RecordForComplete(r);
  }

  /** solve_data on a frame built by send_packet for record r's command copies its payload into r. */
  lemma DispatchBuilt(c: Checksums, data: seq<byte>, enabled: seq<bool>, r: Record,
                      seqNo: byte, len: u16, payload: seq<byte>)
    requires |data| == DATA_SIZE && |enabled| == MAX_CMD_ID_COUNT
    requires |payload| == len && enabled[r.Cmd().Value()]
    ensures var f := BuildFrame(c, r.Cmd().Value(), seqNo, len, payload);
            FrameShape(f) && Dispatch(data, enabled, f) == SafeCopy(data, r, payload, len)
  {
    BuiltFrameFields(c, r.Cmd().Value(), seqNo, len, payload);
    DispatchFields(data, enabled, r, BuildFrame(c, r.Cmd().Value(), seqNo, len, payload), len, payload);
  }

  /**
    End to end: a frame built by send_packet, received from SOF search,
    lands in its command's record (when enabled) and marks the link live.
  */
  lemma {:induction false} SentFrameDelivered(c: Checksums, enabled: seq<bool>, s: RxState, r: Record,
                                              seqNo: byte, len: u16, payload: seq<byte>, now: nat)
    requires RxValid(c, s) && |enabled| == MAX_CMD_ID_COUNT && s.parser.step == HeaderSof
    requires |payload| == len && len < 247 && enabled[r.Cmd().Value()]
    ensures var f := BuildFrame(c, r.Cmd().Value(), seqNo, len, payload);
            var out := Absorb(c, enabled, s, f, now);
            && out.parser.step == HeaderSof
            && out.data == SafeCopy(s.data, r, payload, len)
            && out.online && out.lastUpdate == now
  {
    var f := BuildFrame(c, r.Cmd().Value(), seqNo, len, payload);
    BuiltFrameWellFormed(c, r.Cmd().Value(), seqNo, len, payload);
    DispatchBuilt(c, s.data, enabled, r, seqNo, len, payload);
    FrameRecognised(c, s.parser, f);
    AbsorbIsScanThenDispatch(c, enabled, s, f, now);
    var single: seq<seq<byte>> := [f];
    assert single[1..] == [];
    assert DispatchAll(s.data, enabled, single) == DispatchAll(Dispatch(s.data, enabled, f), enabled, []);
  }

  // ----- the allow-list -----

  /**
    init(listening_ids): the bitset after reset() and set() of every id
    below 1024, in order; `ids` are the ids cast to uint16_t.
  */
  function AllowList(ids: seq<u16>): (e: seq<bool>)
    ensures |e| == MAX_CMD_ID_COUNT
    decreases |ids|
  {
    if ids == [] then seq(MAX_CMD_ID_COUNT, _ => false)
    else
      var e := AllowList(ids[..|ids| - 1]);
      var v := ids[|ids| - 1];
      if v < MAX_CMD_ID_COUNT then e[v := true] else e
  }

  /** An id is enabled exactly when it was listed and is below 1024. */
  lemma {:induction false} AllowListMembers(ids: seq<u16>, j: nat)
    requires j < MAX_CMD_ID_COUNT
    ensures AllowList(ids)[j] <==> j in ids
    decreases |ids|
  {
    if ids != [] {
      var init := ids[..|ids| - 1];
      AllowListMembers(init, j);
      assert ids == init + [ids[|ids| - 1]];
      assert j in ids <==> j in init || j == ids[|ids| - 1];
    }
  }

  // ----- the send side -----

  /** send_packet's `frame_total_len`, a uint16_t: 7 + len + 2 wraps modulo 2^16. */
  function TotalLenAsWritten(len: u16): u16
  {
    (HEADER_CRC_CMDID_LEN + len) % 0x1_0000
  }

  /** send_packet's guard as written: it refuses a frame only when the wrapped total exceeds 256. */
  predicate GuardPassesAsWritten(len: u16)
  {
    !(TotalLenAsWritten(len) > FRAME_MAX_SIZE)
  }

  /**
    The guard as written also lets the nine largest lengths through: for
    them the wrapped total is 0..8, and the memcpy of len bytes at offset 7
    runs far past the 256-byte transmit buffer.
  */
  lemma GuardAsWrittenAdmitsHugeLengths(len: u16)
    ensures GuardPassesAsWritten(len) <==> len <= 247 || len >= 0xFFF7
    ensures GuardPassesAsWritten(0xFFF7) && TotalLenAsWritten(0xFFF7) == 0
            && HEADER_CMDID_LEN + 0xFFF7 > FRAME_MAX_SIZE
  {
  }

  /** The guard without the wrap: the whole frame fits the transmit buffer. */
  predicate SendFits(len: u16)
  {
    HEADER_CMDID_LEN + len + CRC16_SIZE <= FRAME_MAX_SIZE
  }

  /** The corrected guard admits exactly the lengths whose frame fits, and agrees with the written one on them. */
  lemma SendFitsExactly(len: u16)
    ensures SendFits(len) <==> len <= 247
    ensures SendFits(len) ==> GuardPassesAsWritten(len)
    ensures SendFits(len) ==> TotalLenAsWritten(len) == HEADER_CRC_CMDID_LEN + len
  {
  }

  /**
    A 247-byte payload passes the send guard, but the receiver's LENGTH_HIGH
    test (len < 256 - 9) drops such a frame: the longest frame send_packet
    builds is never accepted.
  */
  lemma LongestSendNotReceived(c: Checksums, p: Parser, b: byte)
    requires ParserValid(c, p) && p.step == LengthHigh && U16(p.packet[1], b) == 247
    ensures SendFits(247) && Feed(c, p, b).0.step == HeaderSof
  {
  }

  /**
    The payload bytes send_packet's frame carries: the caller's first len
    bytes, or, when there are none or no pointer, whatever the transmit
    buffer held there (memcpy is skipped).
  */
  function TxPayload(src: Option<seq<byte>>, len: u16, stale: seq<byte>): (p: seq<byte>)
    requires |stale| == FRAME_MAX_SIZE && SendFits(len)
    requires src.Some? ==> |src.value| >= len
    ensures |p| == len
    ensures src.Some? ==> p == src.value[..len]
  {
    if len > 0 && src.Some? then src.value[..len] else stale[HEADER_CMDID_LEN..HEADER_CMDID_LEN + len]
  }

  /**
    The interaction payload built in the 128-byte stack buffer: the header,
    then the caller's len bytes, or the buffer's uninitialised bytes when
    there is no data pointer.
  */
  function InteractionPayload(h: InteractionHeader, src: Option<seq<byte>>, len: u16, stack: seq<byte>): (p: seq<byte>)
    requires |stack| == 128 && INTERACTION_HEADER_SIZE + len <= 119
    requires src.Some? ==> |src.value| >= len
    ensures |p| == INTERACTION_HEADER_SIZE + len
    ensures ParseInteractionHeader(p) == h
    ensures src.Some? ==> p[INTERACTION_HEADER_SIZE..] == src.value[..len]
  {
    var user := if len > 0 && src.Some? then src.value[..len]
                else stack[INTERACTION_HEADER_SIZE..INTERACTION_HEADER_SIZE + len];
    var hb := InteractionHeaderBytes(h);
    InteractionHeaderRoundTrip(h);
    assert (hb + user)[..INTERACTION_HEADER_SIZE] == hb;
    hb + user
  }

  /** send_ui_interaction's length table. */
  function UiLength(sub: bv16): (n: u16)
    ensures n <= 105
    ensures n != 0 <==> sub in {0x0100, 0x0101, 0x0102, 0x0103, 0x0104, 0x0110}
  {
    match sub
    case 0x0100 => 2
    case 0x0101 => 15
    case 0x0102 => 30
    case 0x0103 => 75
    case 0x0104 => 105
    case 0x0110 => 45
    case _ => 0
  }

  /** send_custom_info's user data: at most 30 characters of the message, zero padded. */
  function CustomUserData(message: seq<byte>): (u: seq<byte>)
    ensures |u| == CUSTOM_USER_DATA_SIZE
    ensures var n := Min(|message|, CUSTOM_USER_DATA_SIZE);
            u[..n] == message[..n] && forall i :: n <= i < CUSTOM_USER_DATA_SIZE ==> u[i] == 0
  {
    var n := Min(|message|, CUSTOM_USER_DATA_SIZE);
    message[..n] + Zeros(CUSTOM_USER_DATA_SIZE - n)
  }

  // ----- the task -----

  const OFFLINE_TIMEOUT_MS: nat := 2000

  /** The task's 2 s check after unpacking: no frame for more than 2000 ms takes the link offline. */
  function Watchdog(s: RxState, now: nat): (r: RxState)
    ensures r.online ==> s.online && now - s.lastUpdate <= OFFLINE_TIMEOUT_MS
    ensures r == s || r == s.(online := false)
    ensures s.online && now - s.lastUpdate <= OFFLINE_TIMEOUT_MS ==> r == s
  {
    if now - s.lastUpdate > OFFLINE_TIMEOUT_MS then s.(online := false) else s
  }

  /** One task iteration: drain the FIFO, then the timeout check. */
  function TaskStep(c: Checksums, enabled: seq<bool>, s: RxState, fifo: seq<byte>, now: nat): (r: RxState)
    requires RxValid(c, s) && |enabled| == MAX_CMD_ID_COUNT
    ensures RxValid(c, r)
  {
    Watchdog(Absorb(c, enabled, s, fifo, now), now)
  }

  /**
    After a task iteration the link is live exactly when it was live or a
    frame arrived, and the last frame is at most 2000 ms old; an iteration
    whose FIFO completes a verified frame always leaves it live.
  */
  lemma {:induction false} TaskStepLiveness(c: Checksums, enabled: seq<bool>, s: RxState, fifo: seq<byte>, now: nat)
    requires RxValid(c, s) && |enabled| == MAX_CMD_ID_COUNT && s.lastUpdate <= now
    ensures var r := TaskStep(c, enabled, s, fifo, now);
            var frames := Scan(c, s.parser, fifo).1;
            && (frames != [] ==> r.online && r.lastUpdate == now)
            && (r.online ==> now - r.lastUpdate <= OFFLINE_TIMEOUT_MS)
            && (frames == [] ==> r.online == (s.online && now - s.lastUpdate <= OFFLINE_TIMEOUT_MS))
  {
    AbsorbIsScanThenDispatch(c, enabled, s, fifo, now);
  }
}

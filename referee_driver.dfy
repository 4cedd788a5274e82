/**
  The referee driver object (`referee_drv_t`): the UART FIFO, the
  synchroniser's context with its 256-byte packet buffer, the packed
  records, the allow-list bitset, the transmit buffer and sequence counter,
  the robot id and the liveness flag and timestamp.

  Every method is proved against the pure definitions in module Referee:
  the receive methods against `AbsorbByte`, `Absorb` and `TaskStep`, the
  send methods against `BuildFrame` and the payload functions.
*/
module RefereeDriver {
  import opened Wire
  import opened Crc
  import opened RefereeProtocol
  import opened Referee

  /** The bytes send_packet writes, all at once: header with CRC8, command, payload, CRC16. */
  lemma {:induction false} BuildFrameBytes(c: Checksums, cmd: u16, seqNo: byte, len: u16, payload: seq<byte>,
                                           head: seq<byte>)
    requires |payload| == len && head == [HEADER_SOF] + Bytes16(len) + [seqNo]
    ensures var body := head + [c.crc8(head)] + Bytes16(cmd) + payload;
            BuildFrame(c, cmd, seqNo, len, payload) == body + Crc16Bytes(c, body)
  {
    var h0 := head + [0];
    assert [HEADER_SOF] + Bytes16(len) + [seqNo, 0] == h0;
    assert h0[..4] == head;
    var body := head + [c.crc8(head)] + Bytes16(cmd) + payload;
    var m := Append8(c, h0) + Bytes16(cmd) + payload + [0, 0];
    assert Append8(c, h0) == head + [c.crc8(head)];
    assert m[..|m| - 2] == body;
  }

  /** The frame solve_data reads from the packet buffer: 9 + length bytes, for the length in its header. */
  function PacketFrame(packet: seq<byte>): (f: seq<byte>)
    requires |packet| == FRAME_MAX_SIZE && U16(packet[1], packet[2]) < 247
    ensures |f| == HEADER_CRC_CMDID_LEN + U16(packet[1], packet[2]) && f == packet[..|f|]
    ensures f[1] == packet[1] && f[2] == packet[2] && f[5] == packet[5] && f[6] == packet[6]
    ensures FrameShape(f)
  {
    packet[..HEADER_CRC_CMDID_LEN + U16(packet[1], packet[2])]
  }

  /** A frame for a disabled or unrecorded command leaves the records alone. */
  lemma DispatchSkips(data: seq<byte>, enabled: seq<bool>, packet: seq<byte>)
    requires |data| == DATA_SIZE && |enabled| == MAX_CMD_ID_COUNT
    requires |packet| == FRAME_MAX_SIZE && U16(packet[1], packet[2]) < 247
    requires var cmd := U16(packet[5], packet[6]);
             cmd >= MAX_CMD_ID_COUNT || !enabled[cmd] || RecordFor(cmd).None?
    ensures Dispatch(data, enabled, PacketFrame(packet)) == data
  {
  }

  /** The payload bytes a bounded copy takes from a frame in the packet buffer. */
  lemma PacketPayload(packet: seq<byte>, n: nat)
    requires |packet| == FRAME_MAX_SIZE && U16(packet[1], packet[2]) < 247
    requires n <= U16(packet[1], packet[2])
    ensures PacketFrame(packet)[HEADER_CMDID_LEN..][..n] == packet[HEADER_CMDID_LEN..HEADER_CMDID_LEN + n]
  {
  }

  /** A frame for an enabled command with record r copies min(length, size of r) payload bytes into r. */
  lemma DispatchCopies(data: seq<byte>, enabled: seq<bool>, packet: seq<byte>, r: Record)
    requires |data| == DATA_SIZE && |enabled| == MAX_CMD_ID_COUNT
    requires |packet| == FRAME_MAX_SIZE && U16(packet[1], packet[2]) < 247
    requires var cmd := U16(packet[5], packet[6]);
             cmd < MAX_CMD_ID_COUNT && enabled[cmd] && RecordFor(cmd) == Some(r)
    ensures var n := Min(U16(packet[1], packet[2]), r.Size());
            && Offset(r) + n <= DATA_SIZE
            && Dispatch(data, enabled, PacketFrame(packet))
               == CopyInto(data, Offset(r), packet[HEADER_CMDID_LEN..HEADER_CMDID_LEN + n])
  {
    RecordsDisjoint(r, r);
    PacketPayload(packet, Min(U16(packet[1], packet[2]), r.Size()));
  }

  /** What a copy leaves before, in and after the destination range. */
  lemma CopyIntoParts(d: seq<byte>, off: nat, src: seq<byte>, from: nat)
    requires off + |src| <= from <= |d|
    ensures var r := CopyInto(d, off, src);
            && r[..off] == d[..off] && r[off..off + |src|] == src && r[from..] == d[from..]
  {
  }

  /** The header copy then the payload memcpy: both land in front of an untouched tail. */
  lemma HeaderThenPayload(stale: seq<byte>, hc: seq<byte>, payload: seq<byte>, total: nat)
    requires |stale| == FRAME_MAX_SIZE && |hc| == HEADER_CMDID_LEN
    requires total == HEADER_CRC_CMDID_LEN + |payload| <= FRAME_MAX_SIZE
    ensures var t := CopyInto(CopyInto(stale, 0, hc), HEADER_CMDID_LEN, payload);
            t[..total - CRC16_SIZE] == hc + payload && t[total..] == stale[total..]
  {
    var t1 := CopyInto(stale, 0, hc);
    CopyIntoParts(stale, 0, hc, total);
    var t := CopyInto(t1, HEADER_CMDID_LEN, payload);
    CopyIntoParts(t1, HEADER_CMDID_LEN, payload, total);
    assert t[..total - CRC16_SIZE] == t[..HEADER_CMDID_LEN] + t[HEADER_CMDID_LEN..total - CRC16_SIZE];
  }

  /** The header copy alone: the payload bytes are the buffer's previous ones. */
  lemma HeaderOverStale(stale: seq<byte>, hc: seq<byte>, total: nat)
    requires |stale| == FRAME_MAX_SIZE && |hc| == HEADER_CMDID_LEN
    requires HEADER_CRC_CMDID_LEN <= total <= FRAME_MAX_SIZE
    ensures var t := CopyInto(stale, 0, hc);
            t[..total - CRC16_SIZE] == hc + stale[HEADER_CMDID_LEN..total - CRC16_SIZE] && t[total..] == stale[total..]
  {
    var t := CopyInto(stale, 0, hc);
    CopyIntoParts(stale, 0, hc, total);
    assert t[..total - CRC16_SIZE] == t[..HEADER_CMDID_LEN] + t[HEADER_CMDID_LEN..total - CRC16_SIZE];
  }

  /** append_crc16_check_sum over the first total - 2 bytes. */
  lemma ChecksumLast(c: Checksums, stale: seq<byte>, t: seq<byte>, body: seq<byte>, total: nat)
    requires |t| == |stale| == FRAME_MAX_SIZE && CRC16_SIZE <= total <= FRAME_MAX_SIZE
    requires t[..total - CRC16_SIZE] == body && t[total..] == stale[total..]
    ensures var r := CopyInto(t, total - CRC16_SIZE, Crc16Bytes(c, t[..total - CRC16_SIZE]));
            r[..total] == body + Crc16Bytes(c, body) && r[total..] == stale[total..]
  {
    var r := CopyInto(t, total - CRC16_SIZE, Crc16Bytes(c, body));
    CopyIntoParts(t, total - CRC16_SIZE, Crc16Bytes(c, body), total);
    assert r[..total] == r[..total - CRC16_SIZE] + r[total - CRC16_SIZE..total];
  }

  class Driver {
    const crc: Checksums
    /** Whether the driver has a UART handle: without one, init and send_packet do nothing. */
    const hasUart: bool

    /** The bytes the receive callback has put in the FIFO and the task has not yet taken. */
    var fifo: seq<byte>

    var step: Step
    var index: nat
    var dataLen: u16
    const packet: array<byte>

    /** `RefereeData`, packed. */
    const data: array<byte>
    const enabled: array<bool>

    var sendSeq: byte
    var robotId: bv16
    const tx: array<byte>

    var online: bool
    var lastUpdate: nat

    predicate Valid()
      reads this, packet, data, enabled, tx
    {
      && packet.Length == FRAME_MAX_SIZE && data.Length == DATA_SIZE
      && enabled.Length == MAX_CMD_ID_COUNT && tx.Length == FRAME_MAX_SIZE
      && packet != data && packet != tx && data != tx
      && ParserValid(crc, Context())
    }

    /** The unpack context as a value. */
    function Context(): Parser
      reads this, packet
    {
      Parser(step, index, dataLen, packet[..])
    }

    /** The fields a step of the unpack context leaves alone: the FIFO, the link state and the transmit side. */
    function Others(): (seq<byte>, bool, nat, bv16, byte)
      reads this
    {
      (fifo, online, lastUpdate, robotId, sendSeq)
    }

    /** The receive-side state as a value. */
    function RxModel(): RxState
      reads this, packet, data
    {
      RxState(Context(), data[..], online, lastUpdate)
    }

    /** get_client_id: the robot id plus 0x100, in 16 bits. */
    function ClientId(): bv16
      reads this
    {
      robotId + 0x100
    }

    /** The constructor: everything zero, offline, an empty FIFO and allow-list. */
    constructor (c: Checksums, uart: bool)
      ensures Valid() && crc == c && hasUart == uart
      ensures RxModel() == RxState(InitialParser(), Zeros(DATA_SIZE), false, 0)
      ensures enabled[..] == AllowList([]) && fifo == []
      ensures sendSeq == 0 && robotId == 0 && tx[..] == Zeros(FRAME_MAX_SIZE)
      ensures fresh(packet) && fresh(data) && fresh(enabled) && fresh(tx)
    {
      crc := c;
      hasUart := uart;
      fifo := [];
      step := HeaderSof;
      index := 0;
      dataLen := 0;
      packet := new byte[FRAME_MAX_SIZE](_ => 0);
      data := new byte[DATA_SIZE](_ => 0);
      enabled := new bool[MAX_CMD_ID_COUNT](_ => false);
      sendSeq := 0;
      robotId := 0;
      tx := new byte[FRAME_MAX_SIZE](_ => 0);
      online := false;
      lastUpdate := 0;
    }

    /** init(listening_ids): the allow-list holds exactly the listed ids below 1024. */
    method Listen(ids: seq<u16>)
      requires Valid()
      modifies enabled
      ensures Valid()
      ensures hasUart ==> enabled[..] == AllowList(ids)
      ensures !hasUart ==> enabled[..] == old(enabled[..])
    {
      if !hasUart {
        return;
      }
      for j := 0 to MAX_CMD_ID_COUNT
        invariant forall k :: 0 <= k < j ==> !enabled[k]
      {
        enabled[j] := false;
      }
      assert enabled[..] == AllowList(ids[..0]);
      for i := 0 to |ids|
        invariant enabled[..] == AllowList(ids[..i])
      {
        assert ids[..i + 1][..i] == ids[..i];
        if ids[i] < MAX_CMD_ID_COUNT {
          enabled[ids[i]] := true;
        }
      }
      assert ids[..|ids|] == ids;
    }

    /** init(): every command id is enabled. */
    method ListenAll()
      requires Valid()
      modifies enabled
      ensures Valid()
      ensures hasUart ==> forall j :: 0 <= j < MAX_CMD_ID_COUNT ==> enabled[j]
      ensures !hasUart ==> enabled[..] == old(enabled[..])
    {
      if !hasUart {
        return;
      }
      for j := 0 to MAX_CMD_ID_COUNT
        invariant forall k :: 0 <= k < j ==> enabled[k]
      {
        enabled[j] := true;
      }
    }

    method SetRobotId(id: bv16)
      modifies this
      ensures robotId == id && fifo == old(fifo) && sendSeq == old(sendSeq)
      ensures step == old(step) && index == old(index) && dataLen == old(dataLen)
      ensures online == old(online) && lastUpdate == old(lastUpdate)
    {
      robotId := id;
    }

    /** memcpy(dst + off, src, |src|). */
    static method Copy(dst: array<byte>, off: nat, src: seq<byte>)
      requires off + |src| <= dst.Length
      modifies dst
      ensures dst[..] == CopyInto(old(dst[..]), off, src)
    {
      for k := 0 to |src|
        invariant dst[..] == old(dst[..])[..off] + src[..k] + old(dst[..])[off + k..]
      {
        dst[off + k] := src[k];
        assert src[..k + 1] == src[..k] + [src[k]];
      }
      assert src[..|src|] == src;
    }

    /**
      send_packet with the length guard corrected: a frame that does not fit
      the 256-byte buffer, or no UART, sends nothing; otherwise the buffer
      holds the frame of the next sequence number and the UART's status is
      returned. `sent` is what is written to the UART.
    */
    method SendPacket(cmd: CmdId, src: Option<seq<byte>>, len: u16, uartOk: bool) returns (ok: bool, sent: seq<byte>)
      requires Valid() && (src.Some? ==> |src.value| >= len)
      modifies this, tx
      ensures Valid() && RxModel() == old(RxModel()) && fifo == old(fifo) && robotId == old(robotId)
      ensures !SendFits(len) || !hasUart ==> !ok && sent == [] && sendSeq == old(sendSeq) && tx[..] == old(tx[..])
      ensures SendFits(len) && hasUart ==>
                var total := HEADER_CRC_CMDID_LEN + len;
                && sent == BuildFrame(crc, cmd.Value(), old(sendSeq), len, TxPayload(src, len, old(tx[..])))
                && tx[..total] == sent && tx[total..] == old(tx[total..])
                && sendSeq == old(sendSeq) + 1 && ok == uartOk
    {
      var total := HEADER_CMDID_LEN + len + CRC16_SIZE;
      if total > FRAME_MAX_SIZE {
        return false, [];
      }
      if !hasUart {
        return false, [];
      }
      var seqNo := sendSeq;
      sendSeq := sendSeq + 1;
      sent := EncodeFrame(crc, tx, cmd.Value(), seqNo, src, len);
      ok := uartOk;
    }

    /** send_packet's frame assembly in the transmit buffer: header, command, payload and CRC16. */
    static method EncodeFrame(c: Checksums, tx: array<byte>, cmd: u16, seqNo: byte, src: Option<seq<byte>>, len: u16)
      returns (sent: seq<byte>)
      requires tx.Length == FRAME_MAX_SIZE && SendFits(len) && (src.Some? ==> |src.value| >= len)
      modifies tx
      ensures var total := HEADER_CRC_CMDID_LEN + len;
              && sent == BuildFrame(c, cmd, seqNo, len, TxPayload(src, len, old(tx[..])))
              && tx[..total] == sent && tx[total..] == old(tx[total..])
    {
      var total := HEADER_CMDID_LEN + len + CRC16_SIZE;
      var head := [HEADER_SOF] + Bytes16(len) + [seqNo];
      var hc := head + [c.crc8(head)] + Bytes16(cmd);
      BuildFrameBytes(c, cmd, seqNo, len, TxPayload(src, len, tx[..]), head);
      WriteFrame(c, tx, hc, src, len);
      sent := tx[..total];
    }

    /**
      send_packet's writes into the transmit buffer: header and command,
      the payload (unless there is none), then the CRC16 over the bytes
      before it.
    */
    static method WriteFrame(c: Checksums, tx: array<byte>, hc: seq<byte>, src: Option<seq<byte>>, len: u16)
      requires tx.Length == FRAME_MAX_SIZE && |hc| == HEADER_CMDID_LEN && SendFits(len)
      requires src.Some? ==> |src.value| >= len
      modifies tx
      ensures var body := hc + TxPayload(src, len, old(tx[..]));
              var total := HEADER_CRC_CMDID_LEN + len;
              tx[..total] == body + Crc16Bytes(c, body) && tx[total..] == old(tx[total..])
    {
      var total := HEADER_CMDID_LEN + len + CRC16_SIZE;
      ghost var stale := tx[..];
      Copy(tx, 0, hc);
      if len > 0 && src.Some? {
        ghost var t1 := tx[..];
        Copy(tx, HEADER_CMDID_LEN, src.value[..len]);
        HeaderThenPayload(stale, hc, src.value[..len], total);
      } else {
        HeaderOverStale(stale, hc, total);
      }
      ghost var t2 := tx[..];
      Copy(tx, total - CRC16_SIZE, Crc16Bytes(c, tx[..total - CRC16_SIZE]));
      ChecksumLast(c, stale, t2, hc + TxPayload(src, len, stale), total);
    }

    /**
      _send_interaction_packet_base: a payload of more than 113 bytes is
      refused; otherwise the interaction header (sub-command, own id,
      receiver) and the payload go out as a STUDENT_INTERACTIVE frame.
    */
    method SendInteraction(sub: bv16, receiver: bv16, src: Option<seq<byte>>, len: u16, stack: seq<byte>, uartOk: bool)
      returns (ok: bool, sent: seq<byte>)
      requires Valid() && |stack| == 128 && (src.Some? ==> |src.value| >= len)
      modifies this, tx
      ensures Valid() && RxModel() == old(RxModel()) && fifo == old(fifo) && robotId == old(robotId)
      ensures sent != [] <==> INTERACTION_HEADER_SIZE + len <= 119 && hasUart
      ensures ok <==> sent != [] && uartOk
      ensures sent != [] ==>
                sent == BuildFrame(crc, StudentInteractive.Value(), old(sendSeq), INTERACTION_HEADER_SIZE + len,
                                   InteractionPayload(InteractionHeader(sub, robotId, receiver), src, len, stack))
      ensures sent == [] ==> sendSeq == old(sendSeq) && tx[..] == old(tx[..])
    {
      if INTERACTION_HEADER_SIZE + len > 119 {
        return false, [];
      }
      var buffer := InteractionPayload(InteractionHeader(sub, robotId, receiver), src, len, stack);
      ok, sent := SendPacket(StudentInteractive, Some(buffer), INTERACTION_HEADER_SIZE + len, uartOk);
      assert buffer[..INTERACTION_HEADER_SIZE + len] == buffer;
    }

    /**
      send_robot_interaction: refused until the robot id is set, and across
      teams (ids below 100 are red); otherwise the interaction send.
    */
    method SendRobotInteraction(receiver: bv16, sub: bv16, src: Option<seq<byte>>, len: u16, stack: seq<byte>,
                                uartOk: bool)
      returns (ok: bool, sent: seq<byte>)
      requires Valid() && |stack| == 128 && (src.Some? ==> |src.value| >= len)
      modifies this, tx
      ensures Valid() && RxModel() == old(RxModel()) && fifo == old(fifo) && robotId == old(robotId)
      ensures sent != [] <==>
                robotId != 0 && (robotId < 100 <==> receiver < 100) && INTERACTION_HEADER_SIZE + len <= 119 && hasUart
      ensures ok <==> sent != [] && uartOk
      ensures sent != [] ==>
                sent == BuildFrame(crc, StudentInteractive.Value(), old(sendSeq), INTERACTION_HEADER_SIZE + len,
                                   InteractionPayload(InteractionHeader(sub, robotId, receiver), src, len, stack))
      ensures sent == [] ==> sendSeq == old(sendSeq) && tx[..] == old(tx[..])
    {
      if robotId == 0 {
        return false, [];
      }
      var myTeamRed := robotId < 100;
      var targetRed := receiver < 100;
      if myTeamRed != targetRed {
        return false, [];
      }
      ok, sent := SendInteraction(sub, receiver, src, len, stack, uartOk);
    }

    /** send_ui_interaction: the sub-command's fixed length, addressed to this robot's client. */
    method SendUiInteraction(sub: bv16, src: Option<seq<byte>>, stack: seq<byte>, uartOk: bool)
      returns (ok: bool, sent: seq<byte>)
      requires Valid() && |stack| == 128 && (src.Some? ==> |src.value| >= UiLength(sub))
      modifies this, tx
      ensures Valid() && RxModel() == old(RxModel()) && fifo == old(fifo) && robotId == old(robotId)
      ensures sent != [] <==> hasUart
      ensures ok <==> sent != [] && uartOk
      ensures sent != [] ==>
                sent == BuildFrame(crc, StudentInteractive.Value(), old(sendSeq), INTERACTION_HEADER_SIZE + UiLength(sub),
                                   InteractionPayload(InteractionHeader(sub, robotId, old(ClientId())), src,
                                                      UiLength(sub), stack))
      ensures sent == [] ==> sendSeq == old(sendSeq) && tx[..] == old(tx[..])
    {
      var len := UiLength(sub);
      ok, sent := SendInteraction(sub, ClientId(), src, len, stack, uartOk);
    }

    /**
      send_custom_info: refused until the robot id is set; otherwise a
      MAP_RECEIVE_ROBOT frame carrying this robot's id, its client's id and
      the first 30 characters of the message, zero padded. `message` is the
      string's characters before its terminating NUL.
    */
    method SendCustomInfo(message: seq<byte>, uartOk: bool) returns (ok: bool, sent: seq<byte>)
      requires Valid()
      modifies this, tx
      ensures Valid() && RxModel() == old(RxModel()) && fifo == old(fifo) && robotId == old(robotId)
      ensures sent != [] <==> robotId != 0 && hasUart
      ensures ok <==> sent != [] && uartOk
      ensures sent != [] ==>
                sent == BuildFrame(crc, MapReceiveRobot.Value(), old(sendSeq), CUSTOM_INFO_SIZE,
                                   CustomInfoBytes(CustomInfo(robotId, old(ClientId()), CustomUserData(message))))
      ensures sent == [] ==> sendSeq == old(sendSeq) && tx[..] == old(tx[..])
    {
      if robotId == 0 {
        return false, [];
      }
      var payload := CustomInfoBytes(CustomInfo(robotId, ClientId(), CustomUserData(message)));
      ok, sent := SendPacket(MapReceiveRobot, Some(payload), CUSTOM_INFO_SIZE, uartOk);
      assert payload[..CUSTOM_INFO_SIZE] == payload;
    }

    /** rx_callback: the received bytes are appended to the FIFO. */
    method RxCallback(bytes: seq<byte>) returns (r: bool)
      modifies this
      ensures r && fifo == old(fifo) + bytes
      ensures step == old(step) && index == old(index) && dataLen == old(dataLen)
      ensures online == old(online) && lastUpdate == old(lastUpdate)
      ensures robotId == old(robotId) && sendSeq == old(sendSeq)
    {
      fifo := fifo + bytes;
      r := true;
    }

    /** One byte of unpack_fifo_data's switch, on the context in place; `frame` says solve_data is due. */
    method SyncByte(b: byte) returns (frame: bool)
      requires Valid()
      modifies this, packet
      ensures Valid()
      ensures Context() == Feed(crc, old(Context()), b).0 && frame == Feed(crc, old(Context()), b).1.Some?
      ensures Others() == old(Others())
    {
      frame := false;
      match step
      case HeaderSof => SofByte(b);
      case LengthLow => LengthLowByte(b);
      case LengthHigh => LengthHighByte(b);
      case FrameSeq => SeqByte(b);
      case HeaderCrc8 => Crc8Byte(b);
      case DataCrc16 => frame := BodyByte(b);
    }

    /** HEADER_SOF. */
    method SofByte(b: byte)
      requires Valid() && step == HeaderSof
      modifies this, packet
      ensures Valid() && Context() == FeedSof(crc, old(Context()), b)
      ensures Others() == old(Others())
    {
      if b == HEADER_SOF {
        step := LengthLow;
        index := 0;
        packet[index] := b;
        index := index + 1;
      } else {
        index := 0;
      }
    }

    /** LENGTH_LOW. */
    method LengthLowByte(b: byte)
      requires Valid() && step == LengthLow
      modifies this, packet
      ensures Valid() && Context() == FeedLengthLow(crc, old(Context()), b)
      ensures Others() == old(Others())
    {
      dataLen := b as nat;
      packet[index] := b;
      index := index + 1;
      step := LengthHigh;
    }

    /** LENGTH_HIGH. */
    method LengthHighByte(b: byte)
      requires Valid() && step == LengthHigh
      modifies this, packet
      ensures Valid() && Context() == FeedLengthHigh(crc, old(Context()), b)
      ensures Others() == old(Others())
    {
      ghost var p := Context();
      LengthHighShape(crc, p, b);
      var len := dataLen + 0x100 * b as nat;
      packet[index] := b;
      assert packet[..] == p.packet[2 := b];
      step, index, dataLen := if len < 247 then FrameSeq else HeaderSof, if len < 247 then 3 else 0, len;
    }

    /** FRAME_SEQ. */
    method SeqByte(b: byte)
      requires Valid() && step == FrameSeq
      modifies this, packet
      ensures Valid() && Context() == FeedSeq(crc, old(Context()), b)
      ensures Others() == old(Others())
    {
      packet[index] := b;
      index := index + 1;
      step := HeaderCrc8;
    }

    /** HEADER_CRC8: the fifth byte completes the header, whose CRC8 decides. */
    method Crc8Byte(b: byte)
      requires Valid() && step == HeaderCrc8
      modifies this, packet
      ensures Valid() && Context() == FeedCrc8(crc, old(Context()), b)
      ensures Others() == old(Others())
    {
      packet[index] := b;
      index := index + 1;
      if index == HEADER_SIZE {
        if Verify8(crc, packet[..HEADER_SIZE]) {
          step := DataCrc16;
        } else {
          step := HeaderSof;
          index := 0;
        }
      }
    }

    /** DATA_CRC16: store the byte; the last one resets and checks the CRC16. */
    method BodyByte(b: byte) returns (frame: bool)
      requires Valid() && step == DataCrc16
      modifies this, packet
      ensures Valid()
      ensures Context() == FeedBody(crc, old(Context()), b).0 && frame == FeedBody(crc, old(Context()), b).1.Some?
      ensures Others() == old(Others())
    {
      frame := false;
      var total := HEADER_CRC_CMDID_LEN + dataLen;
      if index < total {
        packet[index] := b;
        index := index + 1;
      }
      if index >= total {
        step := HeaderSof;
        index := 0;
        frame := Verify16(crc, packet[..total]);
      }
    }

    /**
      solve_data on the frame in the packet buffer: the link is marked live
      at `now`, then the payload goes to the record of an enabled command.
    */
    method SolveData(now: nat)
      requires Valid() && U16(packet[1], packet[2]) < 247
      modifies this, data
      ensures Valid() && online && lastUpdate == now
      ensures data[..] == Dispatch(old(data[..]), enabled[..], PacketFrame(packet[..]))
      ensures Context() == old(Context()) && fifo == old(fifo)
      ensures robotId == old(robotId) && sendSeq == old(sendSeq)
    {
      online := true;
      lastUpdate := now;
      StoreFrame(data, enabled, packet);
    }

    /** solve_data's white-list check and switch: safe_copy of the payload into the command's record. */
    static method StoreFrame(data: array<byte>, enabled: array<bool>, packet: array<byte>)
      requires data.Length == DATA_SIZE && enabled.Length == MAX_CMD_ID_COUNT && packet.Length == FRAME_MAX_SIZE
      requires data != packet && U16(packet[1], packet[2]) < 247
      modifies data
      ensures data[..] == Dispatch(old(data[..]), enabled[..], PacketFrame(packet[..]))
    {
      ghost var d0, pk := data[..], packet[..];
      var dataLength := U16(packet[1], packet[2]);
      var cmd := U16(packet[5], packet[6]);
      if cmd >= MAX_CMD_ID_COUNT || !enabled[cmd] {
        DispatchSkips(d0, enabled[..], pk);
        return;
      }
      var record := RecordFor(cmd);
      if record.None? {
        DispatchSkips(d0, enabled[..], pk);
        return;
      }
      var r := record.value;
      DispatchCopies(d0, enabled[..], pk, r);
      var n := Min(dataLength, r.Size());
      Copy(data, Offset(r), packet[HEADER_CMDID_LEN..HEADER_CMDID_LEN + n]);
    }

    /** One FIFO byte: the synchroniser step, then solve_data if it completed a verified frame. */
    method FeedByte(b: byte, now: nat)
      requires Valid()
      modifies this, packet, data
      ensures Valid() && RxModel() == AbsorbByte(crc, enabled[..], old(RxModel()), b, now)
      ensures fifo == old(fifo) && robotId == old(robotId) && sendSeq == old(sendSeq)
    {
      FeedHandsOverPacket(crc, Context(), b);
      var frame := SyncByte(b);
      if frame {
        SolveData(now);
      }
    }

    /** unpack_fifo_data: every byte the FIFO holds, in order, until it is empty. */
    method UnpackFifoData(now: nat)
      requires Valid()
      modifies this, packet, data
      ensures Valid() && fifo == []
      ensures RxModel() == Absorb(crc, enabled[..], old(RxModel()), old(fifo), now)
      ensures robotId == old(robotId) && sendSeq == old(sendSeq)
    {
      while fifo != []
        invariant Valid()
        invariant Absorb(crc, enabled[..], RxModel(), fifo, now) == Absorb(crc, enabled[..], old(RxModel()), old(fifo), now)
        invariant robotId == old(robotId) && sendSeq == old(sendSeq)
        decreases |fifo|
      {
        var b := fifo[0];
        fifo := fifo[1..];
        FeedByte(b, now);
      }
    }

    /** One iteration of the referee task: drain the FIFO, then the 2 s timeout check. */
    method TaskIteration(now: nat)
      requires Valid()
      modifies this, packet, data
      ensures Valid() && fifo == []
      ensures RxModel() == TaskStep(crc, enabled[..], old(RxModel()), old(fifo), now)
      ensures robotId == old(robotId) && sendSeq == old(sendSeq)
    {
      UnpackFifoData(now);
      if now - lastUpdate > OFFLINE_TIMEOUT_MS {
        online := false;
      }
    }
  }
}

/**
  The supercapacitor controller link (pyro_supercap_drv). The driver sends
  a 13-byte command frame and receives 13-byte feedback frames, each sent
  by the controller with a trailing newline (14 bytes on the wire):

    byte 0      start of frame, 0x55
    byte 1      CRC8 of byte 0
    bytes 2..   the packed payload (8 command bytes or 9 feedback bytes)
    then        CRC16 of everything before it, low byte first
    tx only     a closing '\n'

  On receive the interrupt routine admits a frame by its size and its first
  and last byte only; the worker checks the CRC16 alone (the header CRC8
  check is switched off in the source) and copies the feedback verbatim.
*/
module Supercap {
  import opened Wire
  import opened Crc
  import opened Link

  const FRAME_SOF: byte := 0x55
  const END_BYTE: byte := 0x0A
  /** sizeof(chassis_cmd_t) */
  const CMD_LEN: nat := 8
  /** sizeof(cap_feedback_t) */
  const FEEDBACK_LEN: nat := 9
  /** sizeof(rx_packet_t), which is also sizeof(tx_packet_t) */
  const PACKET_LEN: nat := 13
  /** An rx packet and its newline, as the interrupt routine sees it. */
  const WIRE_LEN: nat := 14

  /** chassis_cmd_t, packed: the referee power figures and the user flags. */
  datatype ChassisCmd = ChassisCmd(powerReferee: bv16, powerLimitReferee: byte, powerBufferReferee: byte,
                                   powerBufferLimitReferee: byte, useCap: byte, killChassisUser: byte,
                                   speedUpUserNow: byte)

  /** The 8 bytes of a packed chassis_cmd_t, multi-byte fields little-endian. */
  function CmdBytes(cmd: ChassisCmd): (r: seq<byte>)
    ensures |r| == CMD_LEN
  {
    ToLe16(cmd.powerReferee)
    + [cmd.powerLimitReferee, cmd.powerBufferReferee, cmd.powerBufferLimitReferee,
       cmd.useCap, cmd.killChassisUser, cmd.speedUpUserNow]
  }

  /** The chassis_cmd_t stored in 8 bytes. */
  function ParseCmd(b: seq<byte>): ChassisCmd
    requires |b| == CMD_LEN
  {
    ChassisCmd(Le16(b[0], b[1]), b[2], b[3], b[4], b[5], b[6], b[7])
  }

  /** The command layout loses nothing: reading back a packed command gives the command. */
  lemma CmdRoundTrip(cmd: ChassisCmd)
    ensures ParseCmd(CmdBytes(cmd)) == cmd
  {
  }

  /** Every 8 bytes are the packing of exactly one command. */
  lemma CmdBytesRoundTrip(b: seq<byte>)
    requires |b| == CMD_LEN
    ensures CmdBytes(ParseCmd(b)) == b
  {
    Le16RoundTrip(b[0], b[1]);
  }

  /** cap_feedback_t, packed: three 16-bit readings and three flags. */
  datatype Feedback = Feedback(capPowerCap: bv16, chassisPowerCap: bv16, votCap: bv16,
                               errorFlag: byte, capLowFlag: byte, overNormalCL: byte)

  /** The cap_feedback_t stored in 9 bytes. */
  function ParseFeedback(b: seq<byte>): Feedback
    requires |b| == FEEDBACK_LEN
  {
    Feedback(Le16(b[0], b[1]), Le16(b[2], b[3]), Le16(b[4], b[5]), b[6], b[7], b[8])
  }

  /** The 9 bytes of a packed cap_feedback_t. */
  function FeedbackBytes(f: Feedback): (r: seq<byte>)
    ensures |r| == FEEDBACK_LEN
  {
    ToLe16(f.capPowerCap) + ToLe16(f.chassisPowerCap) + ToLe16(f.votCap)
    + [f.errorFlag, f.capLowFlag, f.overNormalCL]
  }

  /** The feedback layout loses nothing. */
  lemma FeedbackRoundTrip(f: Feedback)
    ensures ParseFeedback(FeedbackBytes(f)) == f
  {
  }

  /** Every 9 bytes are the packing of exactly one feedback record, so `unpack`'s memcpy is a decode. */
  lemma FeedbackBytesRoundTrip(b: seq<byte>)
    requires |b| == FEEDBACK_LEN
    ensures FeedbackBytes(ParseFeedback(b)) == b
  {
    var f := ParseFeedback(b);
    Le16RoundTrip(b[0], b[1]);
    Le16RoundTrip(b[2], b[3]);
    Le16RoundTrip(b[4], b[5]);
    assert b == b[0..2] + b[2..4] + b[4..6] + b[6..9];
  }

  /** The `_latest_feedback{}` the constructor zeroes. */
  function ZeroFeedback(): (f: Feedback)
    ensures FeedbackBytes(f) == Zeros(FEEDBACK_LEN)
  {
    FeedbackBytesRoundTrip(Zeros(FEEDBACK_LEN));
    ParseFeedback(Zeros(FEEDBACK_LEN))
  }

  /**
    rx_callback: a receive is forwarded iff it is 14 bytes long, starts
    with 0x55 and ends with '\n'; only its first 13 bytes are forwarded.
  */
  function RxCallback(p: seq<byte>): (r: Option<seq<byte>>)
    ensures r.Some? <==> |p| == WIRE_LEN && p[0] == FRAME_SOF && p[PACKET_LEN] == END_BYTE
    ensures r.Some? ==> |r.value| == PACKET_LEN && r.value + [END_BYTE] == p
  {
    if |p| == WIRE_LEN && p[0] == FRAME_SOF && p[PACKET_LEN] == END_BYTE then Some(p[..PACKET_LEN]) else None
  }

  /** error_check: only the CRC16 over the whole 13-byte packet is checked. */
  predicate ErrorCheck(c: Checksums, pkt: seq<byte>)
    requires |pkt| == PACKET_LEN
  {
    Verify16(c, pkt)
  }

  /** One decode by the worker: a packet that passes error_check replaces the feedback, any other leaves it. */
  function Unpacked(c: Checksums, fb: Feedback, pkt: seq<byte>): (r: Feedback)
    ensures |pkt| == PACKET_LEN && ErrorCheck(c, pkt) ==> FeedbackBytes(r) == pkt[2..2 + FEEDBACK_LEN]
    ensures !(|pkt| == PACKET_LEN && ErrorCheck(c, pkt)) ==> r == fb
  {
    if |pkt| == PACKET_LEN && ErrorCheck(c, pkt) then
      FeedbackBytesRoundTrip(pkt[2..2 + FEEDBACK_LEN]);
      ParseFeedback(pkt[2..2 + FEEDBACK_LEN])
    else fb
  }

  /** The decoder handed to the shared worker loop. */
  function Decoder(c: Checksums): (Feedback, seq<byte>, nat) -> Feedback
  {
    (fb: Feedback, pkt: seq<byte>, at: nat) => Unpacked(c, fb, pkt)
  }

  /** run_loop_impl over a sequence of receives. */
  function Run(c: Checksums, live: bool, fb: Feedback, q: seq<Event>): (bool, Feedback)
  {
    Serve(PACKET_LEN, Decoder(c), live, fb, q)
  }

  /**
    A receive while live: a full packet is decoded (or dropped when its CRC
    fails), a timeout takes the link offline and keeps the feedback, and a
    short receive changes nothing.
  */
  lemma LiveStep(c: Checksums, fb: Feedback, e: Event)
    ensures var r := Step(PACKET_LEN, Decoder(c), true, fb, e);
      && (e.Frame? && |e.bytes| == PACKET_LEN ==> r == (true, Unpacked(c, fb, e.bytes)))
      && (Received(e) == 0 ==> r == (false, fb))
      && (Received(e) != 0 && Received(e) != PACKET_LEN ==> r == (true, fb))
  {
  }

  /** The frame the controller puts on the wire for a feedback record, with any byte in the CRC8 slot. */
  function RxWire(c: Checksums, h: byte, f: Feedback): (p: seq<byte>)
    ensures |p| == WIRE_LEN
  {
    var head := [FRAME_SOF, h] + FeedbackBytes(f);
    head + Crc16Bytes(c, head) + [END_BYTE]
  }

  /**
    A controller frame is admitted, passes error_check and decodes to the
    feedback it carries, whatever its header CRC8 byte holds.
  */
  lemma {:induction false} RxWireDecodes(c: Checksums, h: byte, f: Feedback, fb: Feedback)
    ensures var p := RxWire(c, h, f);
      && RxCallback(p) == Some(p[..PACKET_LEN])
      && ErrorCheck(c, p[..PACKET_LEN])
      && Unpacked(c, fb, p[..PACKET_LEN]) == f
  {
    var head := [FRAME_SOF, h] + FeedbackBytes(f);
    var p := RxWire(c, h, f);
    var pkt := p[..PACKET_LEN];
    assert pkt == head + Crc16Bytes(c, head);
    assert pkt[..PACKET_LEN - 2] == head;
    assert pkt[2..2 + FEEDBACK_LEN] == FeedbackBytes(f);
    FeedbackRoundTrip(f);
  }

  /** Conversely, every frame that is admitted and passes error_check is a controller frame. */
  lemma {:induction false} AdmittedIsRxWire(c: Checksums, p: seq<byte>)
    requires RxCallback(p).Some? && ErrorCheck(c, RxCallback(p).value)
    ensures p == RxWire(c, p[1], ParseFeedback(p[2..2 + FEEDBACK_LEN]))
  {
    var pkt := p[..PACKET_LEN];
    FeedbackBytesRoundTrip(p[2..2 + FEEDBACK_LEN]);
    var head := [FRAME_SOF, p[1]] + p[2..2 + FEEDBACK_LEN];
    assert pkt[..PACKET_LEN - 2] == head;
    assert p == pkt[..PACKET_LEN - 2] + pkt[PACKET_LEN - 2..] + [END_BYTE];
  }

  /** The 13 bytes send_cmd writes for a command. */
  function TxFrame(c: Checksums, cmd: ChassisCmd): (r: seq<byte>)
    ensures |r| == PACKET_LEN && r[0] == FRAME_SOF && Verify8(c, r[..2])
    ensures r[2..2 + CMD_LEN] == CmdBytes(cmd) && Verify16(c, r[..PACKET_LEN - 1]) && r[PACKET_LEN - 1] == END_BYTE
  {
    var head := [FRAME_SOF, c.crc8([FRAME_SOF])] + CmdBytes(cmd);
    var r := head + Crc16Bytes(c, head) + [END_BYTE];
    assert r[..2][..1] == [FRAME_SOF];
    assert r[..PACKET_LEN - 1][..PACKET_LEN - 3] == head;
    r
  }

  /**
    The layout fixes the frame: any 13 bytes with the start byte, a valid
    header CRC8, the command, a valid CRC16 and the newline are TxFrame.
  */
  lemma {:induction false} TxFrameUnique(c: Checksums, cmd: ChassisCmd, r: seq<byte>)
    requires |r| == PACKET_LEN && r[0] == FRAME_SOF && Verify8(c, r[..2])
    requires r[2..2 + CMD_LEN] == CmdBytes(cmd) && Verify16(c, r[..PACKET_LEN - 1]) && r[PACKET_LEN - 1] == END_BYTE
    ensures r == TxFrame(c, cmd)
  {
    var t := TxFrame(c, cmd);
    assert r[..2][..1] == [FRAME_SOF];
    assert r[..PACKET_LEN - 3] == t[..PACKET_LEN - 3];
    assert r[..PACKET_LEN - 1][..PACKET_LEN - 3] == t[..PACKET_LEN - 1][..PACKET_LEN - 3];
    assert r == r[..PACKET_LEN - 3] + r[PACKET_LEN - 3..PACKET_LEN - 1] + [r[PACKET_LEN - 1]];
    assert t == t[..PACKET_LEN - 3] + t[PACKET_LEN - 3..PACKET_LEN - 1] + [t[PACKET_LEN - 1]];
  }

  /** The receiving side reads the command back from bytes 2..10 of the frame. */
  lemma TxFrameCarriesCmd(c: Checksums, cmd: ChassisCmd)
    ensures ParseCmd(TxFrame(c, cmd)[2..2 + CMD_LEN]) == cmd
  {
    CmdRoundTrip(cmd);
  }

  /** The driver object. */
  class Driver {
    /** The CRC routines of pyro_crc.h. */
    const crc: Checksums
    /** `_uart_drv != nullptr` */
    const uart: bool
    /** `_tx_buffer`, null when the DMA allocation failed. */
    const tx: array?<byte>
    /** `_latest_feedback` */
    var feedback: Feedback
    /** `_is_online` */
    var online: bool

    ghost predicate Valid()
      reads this
    {
      tx != null ==> tx.Length == PACKET_LEN
    }

    /**
      supercap_drv_t(uart): zero feedback, offline, and a zeroed 13-byte TX
      buffer when the allocation succeeds.
    */
    constructor (c: Checksums, uartPresent: bool, dmaOk: bool)
      ensures Valid() && crc == c && uart == uartPresent
      ensures tx != null <==> dmaOk
      ensures tx != null ==> fresh(tx) && tx[..] == Zeros(PACKET_LEN)
      ensures FeedbackBytes(feedback) == Zeros(FEEDBACK_LEN) && !online
    {
      crc := c;
      uart := uartPresent;
      if dmaOk {
        tx := new byte[PACKET_LEN](_ => 0);
      } else {
        tx := null;
      }
      feedback := ZeroFeedback();
      online := false;
    }

    /** unpack: copy the 9 feedback bytes of the packet. */
    method Unpack(pkt: seq<byte>)
      requires |pkt| == PACKET_LEN
      modifies this
      ensures FeedbackBytes(feedback) == pkt[2..2 + FEEDBACK_LEN] && online == old(online)
    {
      FeedbackBytesRoundTrip(pkt[2..2 + FEEDBACK_LEN]);
      feedback := ParseFeedback(pkt[2..2 + FEEDBACK_LEN]);
    }

    /** One receive of the live phase: decode a packet that passes error_check, or go offline on a timeout. */
    method Handle(e: Event)
      requires online
      modifies this
      ensures (online, feedback) == Step(PACKET_LEN, Decoder(crc), true, old(feedback), e)
    {
      if Received(e) == PACKET_LEN {
        if ErrorCheck(crc, e.bytes) {
          Unpack(e.bytes);
          FeedbackRoundTrip(feedback);
        }
      } else if Received(e) == 0 {
        online := false;
      }
    }

    /**
      One pass of run_loop_impl's outer loop: wait without a time limit for
      a receive and go live only if it is a whole packet, without decoding
      it; then decode until a receive times out. Returns the receives it
      did not consume.
    */
    method Thread(q: seq<Event>) returns (rest: seq<Event>)
      requires !online
      modifies this
      ensures |rest| <= |q| && rest == q[|q| - |rest|..]
      ensures q != [] ==> |rest| < |q|
      ensures rest != [] ==> !online
      ensures Run(crc, false, old(feedback), q) == Run(crc, online, feedback, rest)
    {
      rest := q;
      while rest != [] && Received(rest[0]) == 0
        invariant |rest| <= |q| && rest == q[|q| - |rest|..]
        invariant feedback == old(feedback) && !online
        invariant Run(crc, false, old(feedback), q) == Run(crc, false, feedback, rest)
      {
        rest := rest[1..];
      }
      if rest != [] {
        var e := rest[0];
        rest := rest[1..];
        if Received(e) == PACKET_LEN {
          online := true;
        }
        rest := Decoding(rest);
      }
    }

    /** The inner loop of run_loop_impl: while live, handle every receive. */
    method Decoding(q: seq<Event>) returns (rest: seq<Event>)
      modifies this
      ensures |rest| <= |q| && rest == q[|q| - |rest|..]
      ensures rest != [] ==> !online
      ensures Run(crc, old(online), old(feedback), q) == Run(crc, online, feedback, rest)
    {
      rest := q;
      while online && rest != []
        invariant |rest| <= |q| && rest == q[|q| - |rest|..]
        invariant Run(crc, old(online), old(feedback), q) == Run(crc, online, feedback, rest)
        decreases |rest|
      {
        Handle(rest[0]);
        rest := rest[1..];
      }
    }

    /** The driver task: run_loop_impl for as long as there are receives. */
    method Task(q: seq<Event>)
      requires !online
      modifies this
      ensures (online, feedback) == Run(crc, false, old(feedback), q)
    {
      var rest := q;
      while rest != []
        invariant rest != [] ==> !online
        invariant Run(crc, false, old(feedback), q) == Run(crc, online, feedback, rest)
        decreases |rest|
      {
        rest := Thread(rest);
      }
    }

    /**
      send_cmd: with no TX buffer or no UART, an error and nothing written;
      otherwise the buffer is filled in place with the frame for `cmd` and
      all 13 bytes are written. `written` is the UART write's own status.
    */
    method SendCmd(cmd: ChassisCmd, written: bool) returns (ok: bool, sent: seq<byte>)
      requires Valid()
      modifies tx
      ensures tx == null || !uart ==> !ok && sent == []
      ensures tx != null && !uart ==> tx[..] == old(tx[..])
      ensures tx != null && uart ==> tx[..] == TxFrame(crc, cmd) && sent == tx[..] && ok == written
    {
      if tx == null || !uart {
        return false, [];
      }
      tx[0] := FRAME_SOF;
      assert tx[..1] == [FRAME_SOF];
      tx[1] := crc.crc8(tx[..1]);
      var payload := CmdBytes(cmd);
      for i := 0 to CMD_LEN
        invariant tx[0] == FRAME_SOF && tx[1] == crc.crc8([FRAME_SOF])
        invariant forall j :: 0 <= j < i ==> tx[2 + j] == payload[j]
      {
        tx[2 + i] := payload[i];
      }
      var sum := Crc16Bytes(crc, tx[..2 + CMD_LEN]);
      tx[2 + CMD_LEN] := sum[0];
      tx[3 + CMD_LEN] := sum[1];
      tx[PACKET_LEN - 1] := END_BYTE;
      assert tx[..2 + CMD_LEN] == [FRAME_SOF, crc.crc8([FRAME_SOF])] + payload;
      assert tx[..] == tx[..2 + CMD_LEN] + sum + [END_BYTE];
      return written, tx[..];
    }
  }
}

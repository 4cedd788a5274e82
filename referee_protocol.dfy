/**
  The RoboMaster referee-system serial protocol as protocol.h lays it out:
  frame constants, command ids, the packed header and interaction
  structures, and the packed `RefereeData` holder in which every received
  command has its own byte range.
*/
module RefereeProtocol {
  import opened Wire

  const HEADER_SOF: byte := 0xA5
  const FRAME_MAX_SIZE: nat := 256
  const HEADER_SIZE: nat := 5
  const CMD_SIZE: nat := 2
  const CRC16_SIZE: nat := 2
  const HEADER_CRC_LEN: nat := HEADER_SIZE + CRC16_SIZE
  const HEADER_CRC_CMDID_LEN: nat := HEADER_SIZE + CRC16_SIZE + CMD_SIZE
  const HEADER_CMDID_LEN: nat := HEADER_SIZE + CMD_SIZE
  /** The longest payload the receiver accepts: 256 - 9, exclusive. */
  const MAX_RX_DATA_LEN: nat := FRAME_MAX_SIZE - HEADER_CRC_CMDID_LEN
  /** std::bitset size of the allow-list. */
  const MAX_CMD_ID_COUNT: nat := 1024

  /** CmdId and its values. */
  datatype CmdId =
    | GameState | GameResult | GameRobotHp | FieldEvents | RefereeWarning | DartInfo
    | SentryCmd | RadarCmd
    | RobotState | PowerHeatData | RobotPos | BuffMusk | AerialEnergy | RobotHurt | ShootData
    | BulletRemaining | RobotRfid | DartClientCmd | GroundRobotPos | RadarMark | SentryInfo | RadarInfo
    | StudentInteractive | CustomController | TinyMapInteract | MapReceiveRadar | CustomClientData
    | MapReceivePath | MapReceiveRobot
  {
    function Value(): u16
    {
      match this
      case GameState => 0x0001
      case GameResult => 0x0002
      case GameRobotHp => 0x0003
      case FieldEvents => 0x0101
      case RefereeWarning => 0x0104
      case DartInfo => 0x0105
      case SentryCmd => 0x0120
      case RadarCmd => 0x0121
      case RobotState => 0x0201
      case PowerHeatData => 0x0202
      case RobotPos => 0x0203
      case BuffMusk => 0x0204
      case AerialEnergy => 0x0205
      case RobotHurt => 0x0206
      case ShootData => 0x0207
      case BulletRemaining => 0x0208
      case RobotRfid => 0x0209
      case DartClientCmd => 0x020A
      case GroundRobotPos => 0x020B
      case RadarMark => 0x020C
      case SentryInfo => 0x020D
      case RadarInfo => 0x020E
      case StudentInteractive => 0x0301
      case CustomController => 0x0302
      case TinyMapInteract => 0x0303
      case MapReceiveRadar => 0x0305
      case CustomClientData => 0x0306
      case MapReceivePath => 0x0307
      case MapReceiveRobot => 0x0308
    }
  }

  /** Every command id fits the 1024-entry allow-list, and distinct ids have distinct values. */
  lemma CmdIdsFitAllowList(a: CmdId, b: CmdId)
    ensures a.Value() < MAX_CMD_ID_COUNT
    ensures a.Value() == b.Value() ==> a == b
  {
  }

  /** The records of `RefereeData`, in declaration order. */
  datatype Record =
    | GameStatusRec | GameResultRec | GameRobotHpRec | EventDataRec | RefereeWarningRec | DartInfoRec
    | RobotStatusRec | PowerHeatRec | RobotPosRec | BuffRec | HurtRec | ShootRec | AllowanceRec
    | RfidRec | DartClientCmdRec | GroundRobotPosRec | RadarMarkRec | SentryInfoRec | RadarInfoRec
    | MapCommandRec | RobotInteractionRec
  {
    /** The packed size of the record's struct. */
    function Size(): nat
    {
      match this
      case GameStatusRec => 11      // 4+4 bits, u16, u64
      case GameResultRec => 1
      case GameRobotHpRec => 16     // eight u16
      case EventDataRec => 4
      case RefereeWarningRec => 3
      case DartInfoRec => 3
      case RobotStatusRec => 13     // u8, u8, five u16, three 1-bit flags
      case PowerHeatRec => 14
      case RobotPosRec => 16
      case BuffRec => 8
      case HurtRec => 1
      case ShootRec => 7
      case AllowanceRec => 8
      case RfidRec => 5
      case DartClientCmdRec => 6
      case GroundRobotPosRec => 40  // ten floats
      case RadarMarkRec => 2
      case SentryInfoRec => 6
      case RadarInfoRec => 1
      case MapCommandRec => 12
      case RobotInteractionRec => 118
    }

    /** The command whose payload fills the record. */
    function Cmd(): CmdId
    {
      match this
      case GameStatusRec => GameState
      case GameResultRec => GameResult
      case GameRobotHpRec => GameRobotHp
      case EventDataRec => FieldEvents
      case RefereeWarningRec => RefereeWarning
      case DartInfoRec => DartInfo
      case RobotStatusRec => RobotState
      case PowerHeatRec => PowerHeatData
      case RobotPosRec => RobotPos
      case BuffRec => BuffMusk
      case HurtRec => RobotHurt
      case ShootRec => ShootData
      case AllowanceRec => BulletRemaining
      case RfidRec => RobotRfid
      case DartClientCmdRec => DartClientCmd
      case GroundRobotPosRec => GroundRobotPos
      case RadarMarkRec => RadarMark
      case SentryInfoRec => SentryInfo
      case RadarInfoRec => RadarInfo
      case MapCommandRec => TinyMapInteract
      case RobotInteractionRec => StudentInteractive
    }

    /** Position in `RefereeData`. */
    function Index(): nat
    {
      match this
      case GameStatusRec => 0
      case GameResultRec => 1
      case GameRobotHpRec => 2
      case EventDataRec => 3
      case RefereeWarningRec => 4
      case DartInfoRec => 5
      case RobotStatusRec => 6
      case PowerHeatRec => 7
      case RobotPosRec => 8
      case BuffRec => 9
      case HurtRec => 10
      case ShootRec => 11
      case AllowanceRec => 12
      case RfidRec => 13
      case DartClientCmdRec => 14
      case GroundRobotPosRec => 15
      case RadarMarkRec => 16
      case SentryInfoRec => 17
      case RadarInfoRec => 18
      case MapCommandRec => 19
      case RobotInteractionRec => 20
    }
  }

  const RECORD_COUNT: nat := 21

  /** The record in slot i of `RefereeData`, in declaration order. */
  function RecordAt(i: nat): Record
    requires i < RECORD_COUNT
  {
    if i == 0 then GameStatusRec else if i == 1 then GameResultRec else if i == 2 then GameRobotHpRec
    else if i == 3 then EventDataRec else if i == 4 then RefereeWarningRec else if i == 5 then DartInfoRec
    else if i == 6 then RobotStatusRec else if i == 7 then PowerHeatRec else if i == 8 then RobotPosRec
    else if i == 9 then BuffRec else if i == 10 then HurtRec else if i == 11 then ShootRec
    else if i == 12 then AllowanceRec else if i == 13 then RfidRec else if i == 14 then DartClientCmdRec
    else if i == 15 then GroundRobotPosRec else if i == 16 then RadarMarkRec
    else if i == 17 then SentryInfoRec else if i == 18 then RadarInfoRec else if i == 19 then MapCommandRec
    else RobotInteractionRec
  }

  /** sizeof(RefereeData). */
  const DATA_SIZE: nat := 295

  /** The byte at which slot i starts within the packed `RefereeData` (slot 21 is its end). */
  function Start(i: nat): nat
    requires i <= RECORD_COUNT
  {
    if i == 0 then 0 else if i == 1 then 11 else if i == 2 then 12 else if i == 3 then 28
    else if i == 4 then 32 else if i == 5 then 35 else if i == 6 then 38 else if i == 7 then 51
    else if i == 8 then 65 else if i == 9 then 81 else if i == 10 then 89 else if i == 11 then 90
    else if i == 12 then 97 else if i == 13 then 105 else if i == 14 then 110 else if i == 15 then 116
    else if i == 16 then 156 else if i == 17 then 158 else if i == 18 then 164 else if i == 19 then 165
    else if i == 20 then 177 else 295
  }

  /** The record's first byte within `RefereeData`. */
  function Offset(r: Record): nat
  {
    Start(r.Index())
  }

  /** The records sit one after another: their index is their place in the layout. */
  lemma LayoutIndexes(r: Record)
    ensures r.Index() < RECORD_COUNT && RecordAt(r.Index()) == r
  {
  }

  /**
    The layout is packed: slot 0 starts at byte 0, each slot starts where the
    one before it ends, and the last ends at sizeof(RefereeData).
  */
  lemma Packed(i: nat)
    requires i < RECORD_COUNT
    ensures Start(0) == 0 && Start(RECORD_COUNT) == DATA_SIZE
    ensures Start(i + 1) == Start(i) + RecordAt(i).Size()
  {
  }

  lemma {:induction false} StartMono(i: nat, j: nat)
    requires i <= j <= RECORD_COUNT
    ensures Start(i) <= Start(j)
    decreases j - i
  {
    if i < j {
      Packed(j - 1);
      StartMono(i, j - 1);
    }
  }

  /**
    The records tile `RefereeData` without overlap: each ends inside the
    295 bytes and before the next one starts.
  */
  lemma {:induction false} RecordsDisjoint(a: Record, b: Record)
    ensures Offset(a) + a.Size() <= DATA_SIZE
    ensures a.Index() < b.Index() ==> Offset(a) + a.Size() <= Offset(b)
  {
    LayoutIndexes(a);
    LayoutIndexes(b);
    SlotsDisjoint(a.Index(), b.Index());
  }

  /** The same, slot by slot of the layout. */
  lemma {:induction false} SlotsDisjoint(i: nat, j: nat)
    requires i < RECORD_COUNT && j < RECORD_COUNT
    ensures Start(i) + RecordAt(i).Size() <= DATA_SIZE
    ensures i < j ==> Start(i) + RecordAt(i).Size() <= Start(j)
  {
    Packed(i);
    StartMono(i + 1, RECORD_COUNT);
    if i < j {
      StartMono(i + 1, j);
    }
  }

  /** The record solve_data's switch copies a command value into, if any. */
  function RecordFor(cmd: nat): (r: Option<Record>)
    ensures r.Some? ==> r.value.Cmd().Value() == cmd
  {
    if cmd == 0x0001 then Some(GameStatusRec)
    else if cmd == 0x0002 then Some(GameResultRec)
    else if cmd == 0x0003 then Some(GameRobotHpRec)
    else if cmd == 0x0101 then Some(EventDataRec)
    else if cmd == 0x0104 then Some(RefereeWarningRec)
    else if cmd == 0x0105 then Some(DartInfoRec)
    else if cmd == 0x0201 then Some(RobotStatusRec)
    else if cmd == 0x0202 then Some(PowerHeatRec)
    else if cmd == 0x0203 then Some(RobotPosRec)
    else if cmd == 0x0204 then Some(BuffRec)
    else if cmd == 0x0206 then Some(HurtRec)
    else if cmd == 0x0207 then Some(ShootRec)
    else if cmd == 0x0208 then Some(AllowanceRec)
    else if cmd == 0x0209 then Some(RfidRec)
    else if cmd == 0x020A then Some(DartClientCmdRec)
    else if cmd == 0x020B then Some(GroundRobotPosRec)
    else if cmd == 0x020C then Some(RadarMarkRec)
    else if cmd == 0x020D then Some(SentryInfoRec)
    else if cmd == 0x020E then Some(RadarInfoRec)
    else if cmd == 0x0303 then Some(MapCommandRec)
    else if cmd == 0x0301 then Some(RobotInteractionRec)
    else None
  }

  /**
    The switch has one case per record: each record's command reaches it.
  */
  lemma RecordForComplete(r: Record)
    ensures RecordFor(r.Cmd().Value()) == Some(r)
  {
  }

  /**
    The commands without a record (the decision commands, aerial energy, the
    custom-controller and map-receive commands) reach no case of the switch.
  */
  lemma RecordlessCommands(c: CmdId)
    ensures RecordFor(c.Value()).None? <==>
              c in {SentryCmd, RadarCmd, AerialEnergy, CustomController, MapReceiveRadar,
                    CustomClientData, MapReceivePath, MapReceiveRobot}
  {
  }

  /** FrameHeader, packed. */
  datatype FrameHeader = FrameHeader(sof: byte, dataLength: bv16, seqNo: byte, crc8: byte)

  function HeaderBytes(h: FrameHeader): (b: seq<byte>)
    ensures |b| == HEADER_SIZE
  {
    [h.sof] + ToLe16(h.dataLength) + [h.seqNo, h.crc8]
  }

  function ParseHeader(b: seq<byte>): FrameHeader
    requires |b| >= HEADER_SIZE
  {
    FrameHeader(b[0], Le16(b[1], b[2]), b[3], b[4])
  }

  /** The packed header is 1 + 2 + 1 + 1 bytes and reads back field by field. */
  lemma HeaderRoundTrip(h: FrameHeader, b: seq<byte>)
    ensures ParseHeader(HeaderBytes(h)) == h
    ensures |b| == HEADER_SIZE ==> HeaderBytes(ParseHeader(b)) == b
  {
    if |b| == HEADER_SIZE {
      Le16RoundTrip(b[1], b[2]);
      assert HeaderBytes(ParseHeader(b)) == [b[0]] + [b[1], b[2]] + [b[3], b[4]];
    }
  }

  /** InteractionHeader, packed: three little-endian u16. */
  datatype InteractionHeader = InteractionHeader(dataCmdId: bv16, senderId: bv16, receiverId: bv16)

  const INTERACTION_HEADER_SIZE: nat := 6
  const INTERACTION_USER_DATA_SIZE: nat := 112

  function InteractionHeaderBytes(h: InteractionHeader): (b: seq<byte>)
    ensures |b| == INTERACTION_HEADER_SIZE
  {
    ToLe16(h.dataCmdId) + ToLe16(h.senderId) + ToLe16(h.receiverId)
  }

  function ParseInteractionHeader(b: seq<byte>): InteractionHeader
    requires |b| >= INTERACTION_HEADER_SIZE
  {
    InteractionHeader(Le16(b[0], b[1]), Le16(b[2], b[3]), Le16(b[4], b[5]))
  }

  lemma InteractionHeaderRoundTrip(h: InteractionHeader)
    ensures ParseInteractionHeader(InteractionHeaderBytes(h)) == h
  {
  }

  /** RobotInteractionData: the header and 112 user bytes, the size of its record. */
  lemma RobotInteractionSize()
    ensures INTERACTION_HEADER_SIZE + INTERACTION_USER_DATA_SIZE == RobotInteractionRec.Size()
  {
  }

  /** CustomInfo, packed: sender, receiver, 30 user bytes. */
  datatype CustomInfo = CustomInfo(senderId: bv16, receiverId: bv16, userData: seq<byte>)

  const CUSTOM_USER_DATA_SIZE: nat := 30
  const CUSTOM_INFO_SIZE: nat := 34

  function CustomInfoBytes(m: CustomInfo): (b: seq<byte>)
    requires |m.userData| == CUSTOM_USER_DATA_SIZE
    ensures |b| == CUSTOM_INFO_SIZE && b[4..] == m.userData
  {
    ToLe16(m.senderId) + ToLe16(m.receiverId) + m.userData
  }
}

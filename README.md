# PYRo firmware core, modelled in Dafny

PYRo is the C++ firmware of a RoboMaster robot controller (STM32H7, FreeRTOS).
This project models the parts of it that turn bytes into state and state into bytes,
and proves properties of that model. It does not model the scheduling around them.

- **Wire, Bits, Crc** (`wire.dfy`, `bits.dfy`, `crc.dfy`): packed little-endian fields,
  the 64-bit word with the bitwise operators the CAN packer uses, and the CRC8/CRC16 contract.
  The contract is the append-then-verify pair of `pyro_crc.h`. The CRC algorithms are
  parameters, so every result holds for any checksum function.
- **Link** (`link.dfy`): the worker loop shared by the DR16, VT03 and supercap drivers.
  The loop blocks until a whole message arrives and goes live without decoding that message.
  It then decodes every whole message until a receive times out.
  `Serve` is that loop as a fold over a sequence of receive events.
- **RcBase** (`rc_base.dfy`): the 8-bit priority mask shared by the remote-control drivers.
  Bit 7 is a sentinel. An interrupt of priority p is admitted iff ctz(mask) >= p.
- **Dr16, Vt03** (`dr16.dfy`, `vt03.dfy`): the two RC receivers.
  The model covers bit-exact frame decoding with a pack/parse round trip both ways,
  the range and CRC checks, switch and gear transitions, the key state machines,
  and the drivers' interrupt and task loops proved against `Serve`.
- **Fsm** (`fsm.dfy`): the hierarchical state machine.
  It covers request buffers, `change_state`, enter/exit ordering, and a tick that either
  switches state or runs logic. The effects of a child state's code are parameters.
  The machine records the lifecycle calls it makes as a trace.
- **CanTx** (`can_tx.dfy`): the CAN transmit packer.
  There is one 8-byte frame per identifier, filled bit field by bit field at a watermark.
  This file also packs the chassis command.
- **Supercap** (`supercap.dfy`): the 13-byte command and feedback frames of the
  supercapacitor controller, its interrupt filter and its worker loop.
- **RefereeProtocol, Referee, RefereeDriver** (`referee_protocol.dfy`, `referee.dfy`,
  `referee_driver.dfy`): the referee-system serial link.
  - `Referee` holds the pure model: the byte-at-a-time frame synchroniser (`Feed`, `Scan`),
    the dispatcher into the packed `RefereeData` (`Dispatch`), the allow-list, the send-side
    frame (`BuildFrame`) and the task's 2 s watchdog.
  - `RefereeDriver.Driver` is the driver object with its arrays; each of its methods is
    proved against those functions.
  - Received frames are shown to be exactly the well-formed ones.
  - A frame built by `send_packet` and fed to the receiver is shown to land in its record.
- **Jcom** (`jcom.dfy`): the J-COM debug packer. It covers the registration list,
  the packing of every registered float after a head word, and the byte count sent.

These are modelled as parameters:
- time, as a `nat` count of milliseconds;
- the UART and CAN write status, as a `bool`;
- the interrupt-to-task hand-off, as a sequence of events;
- the memory behind J-COM's registered pointers, as a function.

## Model

| member | source | states |
|---|---|---|
| Wire.U16IsLe16 | PYRo/Component/Referee/protocol.h:76-82 | a packed little-endian uint16 field read as an integer and read as a 16-bit pattern are the same number |
| Wire.ToLe16 | PYRo/Component/Referee/protocol.h:76-82 | the two bytes written for a 16-bit field, low first, load back as the value |
| Wire.Bytes16 | PYRo/Component/Referee/pyro_referee.cpp:133-137 | the two length bytes written into a frame read back little-endian as the count |
| Wire.Le16RoundTrip | PYRo/Component/Referee/protocol.h:76-82 | loading two bytes as a little-endian uint16 and storing it back gives the same two bytes |
| Wire.Int16 | PYRo/Component/RC/pyro_dr16_rc_drv.h:46-63 | the int16 mouse fields: a 16-bit pattern read in two's complement lies in [-32768, 32767] and is negative exactly when the top bit is set |
| Wire.Store64 | PYRo/Component/RC/pyro_vt03_rc_drv.h:39-65 | the eight bytes of the 64-bit packed bit-field load back as the same word |
| Wire.Load64RoundTrip | PYRo/Component/RC/pyro_vt03_rc_drv.h:39-65 | reading the eight bytes of the packed field as one little-endian word and writing it back gives the bytes again |
| Wire.Load48 | PYRo/Component/RC/pyro_dr16_rc_drv.h:46-63 | the 48 bits of the six packed channel/switch bytes as one word, below 2^48 |
| Wire.Store48 | PYRo/Component/RC/pyro_dr16_rc_drv.h:46-63 | the six bytes of a 48-bit word load back as the word |
| Wire.Load48RoundTrip | PYRo/Component/RC/pyro_dr16_rc_drv.h:46-63 | reading the six packed bytes as a word and writing it back gives the bytes again |
| Wire.Min | PYRo/Component/Referee/pyro_referee.h:115-123 | min(len, sizeof record) is at most both and equal to one of them |
| Bits.OfBv | PYRo/Comunication/pyro_com_cantx.cpp:65-92 | a machine uint64_t seen as its 64 bits, least significant first: bit i is `(x >> i) & 1` |
| Bits.ZeroIsBv | PYRo/Comunication/pyro_com_cantx.cpp:65 | the all-clear word is the bits of the machine `uint64_t data_val = 0` |
| Bits.ByteBitsRoundTrip | PYRo/Comunication/pyro_com_cantx.cpp:72-73 | a byte's eight bits, least significant first, give the byte back |
| Bits.BitsByteRoundTrip | PYRo/Comunication/pyro_com_cantx.cpp:72-73 | eight bits made into a byte give the bits back |
| Bits.Store | PYRo/Comunication/pyro_com_cantx.cpp:92 | `memcpy(buffer, &word, 8)` on a little-endian machine: byte k holds bits 8k..8k+7 |
| Bits.LoadStore | PYRo/Comunication/pyro_com_cantx.cpp:88-92 | storing a word into eight bytes and loading them gives the word back |
| Bits.StoreLoad | PYRo/Comunication/pyro_com_cantx.cpp:88-92 | loading eight bytes into a word and storing it gives the bytes back |
| Bits.LoadByte | PYRo/Comunication/pyro_com_cantx.cpp:73 | bits 8k..8k+7 of the loaded word are the bits of byte k |
| Bits.LowMaskIsBv | PYRo/Comunication/pyro_com_cantx.cpp:78 | the word with exactly the bits below n set is the bits of the machine `(1ULL << n) - 1`, for every n below 64 |
| Bits.AndIsBv | PYRo/Comunication/pyro_com_cantx.cpp:78 | the bitwise AND of the bits of two uint64_t values is the bits of their machine `&` |
| Bits.OrIsBv | PYRo/Comunication/pyro_com_cantx.cpp:90 | the bitwise OR of the bits of two uint64_t values is the bits of their machine `\|` |
| Bits.ShlIsBv | PYRo/Comunication/pyro_com_cantx.cpp:83 | moving the bits of a uint64_t up k places, dropping those past bit 63, gives the bits of the machine `x << k` (x times 2 to the k modulo 2 to the 64) |
| Crc.Append8 | PYRo/Component/CRC/pyro_crc.h:28-32 | append_crc8 keeps every byte but the last, and the result then verifies |
| Crc.Crc16Bytes | PYRo/Component/CRC/pyro_crc.h:16-20 | the CRC16 trailer is two bytes |
| Crc.Append16 | PYRo/Component/CRC/pyro_crc.h:16-20 | append_crc16 keeps every byte but the last two, and the result then verifies |
| Crc.Append16OfVerified | PYRo/Component/CRC/pyro_crc.h:10-20 | appending to a message that already verifies changes nothing |
| Crc.Verify16Unique | PYRo/Component/CRC/pyro_crc.h:10-14 | a verifying message's two trailing bytes are the CRC16 of the bytes before them |
| Link.ServeConcat | PYRo/Component/RC/pyro_dr16_rc_drv.cpp:267-296 | the worker loop over two batches of receives is the loop over their concatenation |
| Link.ServeSnoc | PYRo/Component/RC/pyro_dr16_rc_drv.cpp:281-295 | one more receive is one more step of the loop |
| Link.FirstFrameNotDecoded | PYRo/Component/RC/pyro_dr16_rc_drv.cpp:272-278 | the first full-sized message after the blocking wait brings the link up and is not decoded |
| Link.TimeoutDropsLink | PYRo/Component/RC/pyro_dr16_rc_drv.cpp:290-294 | a 0-byte receive while live takes the link offline and decodes nothing |
| Link.WaitingIgnoresTimeouts | PYRo/Component/RC/pyro_dr16_rc_drv.cpp:272-274 | any number of timeouts while waiting leaves the link down and the state unchanged |
| Link.ServeKeepsFixedState | PYRo/Component/RC/pyro_dr16_rc_drv.cpp:286-289 | the decoded state changes only through the decoder: if no message changes it, the loop does not |
| Link.NothingDecodedBeforeFirstFrame | PYRo/Component/RC/pyro_dr16_rc_drv.cpp:272-278 | messages that are not full-sized received while waiting are all lost and the link stays down |
| RcBase.KeyBit | PYRo/Component/RC/pyro_dr16_rc_drv.cpp:226-230 | `(key_code >> i) & 1` is 0 or 1 |
| RcBase.OtherBitsKept | PYRo/Component/RC/pyro_dr16_rc_drv.cpp:277-293 | setting or clearing one bit of the mask leaves every other bit as it was |
| RcBase.LowestFrom | PYRo/Component/RC/pyro_dr16_rc_drv.cpp:249 | the lowest set bit at or above k: no bit between k and it is set |
| RcBase.NoBitIsZero | PYRo/Component/RC/pyro_dr16_rc_drv.cpp:249 | a mask with no set bit is zero, so ctz of a non-zero mask is defined |
| RcBase.Ctz | PYRo/Component/RC/pyro_dr16_rc_drv.cpp:249 | `__builtin_ctz`: the result is a set bit and no lower bit is set |
| RcBase.SetBit | PYRo/Component/RC/pyro_dr16_rc_drv.cpp:277 | `sequence \|= 1 << p` sets bit p and keeps every other bit |
| RcBase.ClearBit | PYRo/Component/RC/pyro_dr16_rc_drv.cpp:293 | `sequence &= ~(1 << p)` clears bit p and keeps every other bit |
| RcBase.AdmitsIffNoHigherLive | PYRo/Component/RC/pyro_dr16_rc_drv.cpp:249 | `ctz(sequence) >= p` holds exactly when no driver of a smaller priority index is live |
| RcBase.SentinelPreserved | PYRo/Component/RC/pyro_rc_base_drv.h:51-58 | no driver touches bit 7, so the mask never becomes zero |
| RcBase.ResetAdmitsAll | PYRo/Component/RC/pyro_rc_base_drv.cpp:28-32 | after `sequence = 0x80` every driver is admitted and none is live |
| RcBase.Vt03Preempts | PYRo/Component/RC/pyro_vt03_rc_drv.cpp:284-299 | VT03 (priority 0) frames are always admitted; DR16 (priority 1) frames exactly while VT03 is not live |
| RcBase.LiveLocksOutLower | PYRo/Component/RC/pyro_dr16_rc_drv.cpp:249-277 | once a driver's bit is set, every driver of a lower priority is refused |
| RcBase.Arbiter.constructor | PYRo/Component/RC/pyro_rc_base_drv.h:58 | the shared mask starts at 0x80 |
| RcBase.Arbiter.Reset | PYRo/Component/RC/pyro_rc_base_drv.cpp:28-32 | each driver constructor stores 0x80 into the mask |
| RcBase.Arbiter.CheckOnline | PYRo/Component/RC/pyro_rc_base_drv.cpp:43-46 | check_online is bit p of the mask |
| RcBase.Arbiter.TryAdmit | PYRo/Component/RC/pyro_dr16_rc_drv.cpp:249 | the admission test is true iff no bit below p is set |
| RcBase.Arbiter.Raise | PYRo/Component/RC/pyro_dr16_rc_drv.cpp:277 | the driver's bit is set and the mask stays well formed |
| RcBase.Arbiter.Drop | PYRo/Component/RC/pyro_dr16_rc_drv.cpp:90-93 | disable or timeout clears the driver's bit and the mask stays well formed |
| CanTx.Fresh | PYRo/Comunication/pyro_com_cantx.cpp:35-39 | a new node has the id, watermark 0 and eight zero bytes |
| CanTx.CopySize | PYRo/Comunication/pyro_com_cantx.cpp:69-70 | `(bit_len + 7) / 8` capped at 8 is at most 8 bytes and covers the field's bits |
| CanTx.Masked | PYRo/Comunication/pyro_com_cantx.cpp:76-79 | after masking only the bits below bit_len survive; no mask is applied at 64 bits |
| CanTx.Added | PYRo/Comunication/pyro_com_cantx.cpp:57-95 | an empty field or one past 64 bits changes nothing; otherwise the watermark grows by bit_len and the new buffer is the old one with the field's low bits placed at the old watermark and nothing above |
| CanTx.Placed | PYRo/Comunication/pyro_com_cantx.cpp:83-90 | shifting the masked field to the watermark and ORing it into the buffer places the field there, given the buffer is clean above the watermark |
| CanTx.Slot | PYRo/Comunication/pyro_com_cantx.cpp:27-33 | get_frame's search: the first node with the id, or the end of the list |
| CanTx.Ensure | PYRo/Comunication/pyro_com_cantx.cpp:25-42 | after get_frame the list has a node for the id: unchanged if one existed, else one fresh node appended |
| CanTx.EnsureSlot | PYRo/Comunication/pyro_com_cantx.cpp:25-42 | get_frame finds the same node on the longer list |
| CanTx.Rewrite | PYRo/Comunication/pyro_com_cantx.cpp:46-50 | updating the node found for an id keeps it the node found, and a second get_frame adds nothing |
| CanTx.EnsureKeepsNodes | PYRo/Comunication/pyro_com_cantx.cpp:25-42 | get_frame keeps every node clean above its watermark and every id on at most one node |
| CanTx.ReplaceKeepsNodes | PYRo/Comunication/pyro_com_cantx.cpp:85-95 | writing back a well-formed node with the same id keeps the list well formed |
| CanTx.ChassisCommand | PYRo/Application/Mission/Hero/pyro_gimbal_app.cpp:47-72 | clear(0x101) then 8 bits each of vx, vy, wz and 1 bit of active gives watermark 25 and the bytes vx, vy, wz, active & 1, 0, 0, 0, 0 |
| CanTx.Packer.constructor | PYRo/Comunication/pyro_com_cantx.cpp:10-15 | the constructor leaves the node list empty |
| CanTx.Packer.GetFrame | PYRo/Comunication/pyro_com_cantx.cpp:25-42 | returns the slot of the first node with the id, appending a fresh node when there is none |
| CanTx.Packer.Clear | PYRo/Comunication/pyro_com_cantx.cpp:44-52 | the id's node, created if absent, is reset to watermark 0 and zero bytes; the rest of the list is unchanged |
| CanTx.Packer.AddDataRaw | PYRo/Comunication/pyro_com_cantx.cpp:55-96 | a null source or empty field changes nothing; otherwise the node is created if absent and becomes `Added` of it |
| CanTx.Packer.Append | PYRo/Comunication/pyro_com_cantx.cpp:65-95 | the load, mask, shift, OR and store sequence computes `Added` |
| CanTx.Packer.AddData | PYRo/Comunication/pyro_com_cantx.h:18-22 | add_data<T> is add_data_raw on the value's little-endian bytes |
| CanTx.Packer.Outgoing | PYRo/Comunication/pyro_com_cantx.cpp:98-113 | send hands over the id and bytes of the first node with the id, and nothing when there is no driver or no node |
| CanTx.Packer.PackChassisCommand | PYRo/Application/Mission/Hero/pyro_gimbal_app.cpp:47-72 | after the gimbal's command sequence the 0x101 node holds vx, vy, wz, active & 1 and four zero bytes |
| Fsm.Request | PYRo/Core/FSM/pyro_core_fsm.h:98-101 | request_switch sets only the calling state's buffer (a null request clears it); every other buffer and both machine pointers are unchanged |
| Fsm.Discard | PYRo/Core/FSM/pyro_core_fsm.h:125-128 | discard_request clears the state's buffer and no other |
| Fsm.Fetch | PYRo/Core/FSM/pyro_core_fsm.h:112-117 | fetch_request returns the pending request and leaves the buffer null |
| Fsm.ChangeTarget | PYRo/Core/FSM/pyro_core_fsm.h:242-245 | change_state writes only the transition buffer |
| Fsm.LastChangeWins | PYRo/Core/FSM/pyro_core_fsm.h:242-245 | of two change_state calls the second decides the target |
| Fsm.ChildCall | PYRo/Core/FSM/pyro_core_fsm.h:174-177 | a lifecycle call on the child is made only when there is an active child |
| Fsm.EnterFsm | PYRo/Core/FSM/pyro_core_fsm.h:171-178 | enter calls on_enter and then the active child's enter, in that order; only on_enter can change the target |
| Fsm.ExitFsm | PYRo/Core/FSM/pyro_core_fsm.h:231-240 | exit calls the child's exit and then on_exit; the child's request is discarded, so with only the child holding one no request remains |
| Fsm.SwitchStep | PYRo/Core/FSM/pyro_core_fsm.h:285-319 | a switch happens iff the target is set and differs from the active state; then the old child exits and loses its request, the target becomes active and enters, and the buffer is cleared; otherwise no call is made and the buffer is cleared |
| Fsm.LogicStep | PYRo/Core/FSM/pyro_core_fsm.h:205-221 | the logic half of a tick starts with on_execute and keeps the active state |
| Fsm.Tick | PYRo/Core/FSM/pyro_core_fsm.h:193-222 | a tick is either a transition (lifecycle calls only) or logic (no lifecycle call), never both; the child runs only when on_execute set no target, and its request is consumed into the target; a state that is left carries no request |
| Fsm.RunKeepsSolo | PYRo/Core/FSM/pyro_core_fsm.h:231-240 | over any run of ticks only the active child holds a request: no stale request survives an exit |
| Fsm.TransitionIgnoresHooks | PYRo/Core/FSM/pyro_core_fsm.h:195-198 | a tick with a pending switch runs no hook or child logic, so it does not depend on them |
| Fsm.StateMachine.constructor | PYRo/Core/FSM/pyro_core_fsm.h:151-158 | both pointers start null and no request is held |
| Fsm.StateMachine.RequestSwitch | PYRo/Core/FSM/pyro_core_fsm.h:98-101 | the fields become Request of the old ones; no call is recorded |
| Fsm.StateMachine.FetchRequest | PYRo/Core/FSM/pyro_core_fsm.h:112-117 | returns and consumes the request, as Fetch |
| Fsm.StateMachine.DiscardRequest | PYRo/Core/FSM/pyro_core_fsm.h:125-128 | the fields become Discard of the old ones |
| Fsm.StateMachine.ChangeState | PYRo/Core/FSM/pyro_core_fsm.h:242-245 | the fields become ChangeTarget of the old ones |
| Fsm.StateMachine.Enter | PYRo/Core/FSM/pyro_core_fsm.h:171-178 | the new fields and the calls appended to the trace are those of EnterFsm |
| Fsm.StateMachine.Exit | PYRo/Core/FSM/pyro_core_fsm.h:231-240 | the new fields and the calls appended are those of ExitFsm |
| Fsm.StateMachine.ProcessSwitch | PYRo/Core/FSM/pyro_core_fsm.h:285-319 | returns whether a switch happened; the fields and trace follow SwitchStep |
| Fsm.StateMachine.Execute | PYRo/Core/FSM/pyro_core_fsm.h:193-222 | one tick: the fields and trace follow Tick |
| Fsm.StateMachine.Logic | PYRo/Core/FSM/pyro_core_fsm.h:205-221 | the logic half: the fields and trace follow LogicStep |
| Dr16.Parse | PYRo/Component/RC/pyro_dr16_rc_drv.h:46-63 | reading the 18-byte packed frame: four 11-bit channels and two 2-bit switches LSB first in the first six bytes, then the little-endian words and button bytes; every bit-field fits its width |
| Dr16.Pack | PYRo/Component/RC/pyro_dr16_rc_drv.h:46-63 | the bytes of a frame with the given fields are 18 bytes |
| Dr16.PackTail | PYRo/Component/RC/pyro_dr16_rc_drv.h:55-61 | the mouse axes, buttons, key bitmap and wheel take the last twelve bytes |
| Dr16.HeadBitsBound | PYRo/Component/RC/pyro_dr16_rc_drv.h:48-53 | the six bit-fields fit in 48 bits and each reads back from its bit offset (0, 11, 22, 33, 44, 46) |
| Dr16.HeadBitsOfFields | PYRo/Component/RC/pyro_dr16_rc_drv.h:48-53 | re-packing the six fields read from 48 bits gives the bits back |
| Dr16.ParsePack | PYRo/Component/RC/pyro_dr16_rc_drv.h:46-63 | decoding a packed frame gives back every field |
| Dr16.HeadPackParse | PYRo/Component/RC/pyro_dr16_rc_drv.h:48-53 | the six head bytes are the packing of the bit-fields they decode to |
| Dr16.TailPackParse | PYRo/Component/RC/pyro_dr16_rc_drv.h:55-61 | the twelve tail bytes are the packing of the words and bytes they decode to |
| Dr16.PackParse | PYRo/Component/RC/pyro_dr16_rc_drv.h:46-63 | every 18-byte frame is the packing of its decoded fields, so the layout loses nothing |
| Dr16.CheckSwitch | PYRo/Component/RC/pyro_dr16_rc_drv.cpp:127-154 | check_ctrl on a switch always stores the raw position |
| Dr16.SwitchReportsNeighbourMoves | PYRo/Component/RC/pyro_dr16_rc_drv.cpp:127-154 | a transition is reported iff the switch moved between neighbouring named positions (UP-MID, MID-DOWN, either way); the direct UP-DOWN jump, no move and raw 0 give NO_CHANGE; the to-middle codes are reported exactly for moves ending at MID |
| Dr16.KeyStaysReachable | PYRo/Component/RC/pyro_dr16_rc_drv.cpp:161-191 | from a reachable key state every frame leads to one, each step adding exactly 14 ticks or restarting, so the uint32 counter cannot wrap |
| Dr16.KeyTransitions | PYRo/Component/RC/pyro_dr16_rc_drv.cpp:161-191 | PRESSED is reported iff a raw press follows RELEASED with more than 40 ticks; HOLD iff a raw press follows PRESSED past 160 ticks; raw 0, any other raw value, or a press while in HOLD give {RELEASED, 0} |
| Dr16.HeldKeyCycle | PYRo/Component/RC/pyro_dr16_rc_drv.cpp:170-190 | a key held down from rest reports PRESSED on frames 3, 5, 7, 9 and 11, RELEASED on frames 1, 2, 4, 6, 8 and 10, HOLD on frame 12, and is back at {RELEASED, 0} on frame 13 |
| Dr16.Initial | PYRo/Component/RC/pyro_dr16_rc_drv.h:164 | the value-initialised `_dr16_ctrl{}`: the five channels are 0 (centred), both switches are {0, NO_CHANGE}, the mouse axes are 0, and both buttons and all sixteen keys are {RELEASED, 0} |
| Dr16.NextKeys | PYRo/Component/RC/pyro_dr16_rc_drv.cpp:226-230 | key i runs check_ctrl on bit i of key_code; the key count is kept |
| Dr16.RejectedFrameChangesNothing | PYRo/Component/RC/pyro_dr16_rc_drv.cpp:201-204 | a frame failing error_check (a channel or the wheel outside [364, 1684]) leaves the whole decoded state unchanged |
| Dr16.AcceptedFrameMapping | PYRo/Component/RC/pyro_dr16_rc_drv.cpp:201-232 | for an accepted frame the channels are raw minus 1024 and lie in [-660, 660]; s1 drives s_r and s2 drives s_l; the mouse buttons and keys run the key machine on their own byte or bit |
| Dr16.Driver.constructor | PYRo/Component/RC/pyro_dr16_rc_drv.cpp:35-39 | the constructor resets the shared mask to 0x80 (the driver is offline) and starts from Initial, the value-initialised `_dr16_ctrl{}` of `pyro_dr16_rc_drv.h` line 164 |
| Dr16.Driver.Disable | PYRo/Component/RC/pyro_dr16_rc_drv.cpp:90-93 | disable clears bit 1 of the shared mask |
| Dr16.Driver.Callback | PYRo/Component/RC/pyro_dr16_rc_drv.cpp:242-257 | the ISR accepts a frame iff it is 18 bytes long and VT03 (bit 0) is not live |
| Dr16.Driver.Unpack | PYRo/Component/RC/pyro_dr16_rc_drv.cpp:201-232 | unpack updates the state in place to Decode of the old one |
| Dr16.Driver.Thread | PYRo/Component/RC/pyro_dr16_rc_drv.cpp:267-296 | one thread call consumes a prefix of the receives (at least one), changes only bit 1 of the mask, leaves the link offline unless the receives ran out, and agrees with the worker loop Serve |
| Dr16.Driver.Decoding | PYRo/Component/RC/pyro_dr16_rc_drv.cpp:280-295 | the live loop decodes until a timeout clears bit 1, agreeing with Serve |
| Dr16.Driver.Handle | PYRo/Component/RC/pyro_dr16_rc_drv.cpp:284-294 | one live receive: a full frame is decoded, a 0-byte receive drops the link, anything else is ignored — exactly one Step of the loop |
| Dr16.Driver.Task | PYRo/Component/RC/pyro_dr16_rc_drv.cpp:313-323 | repeating thread over all receives gives the link state and decoded state of Serve from an offline start |
| Vt03.WordOf | PYRo/Component/RC/pyro_vt03_rc_drv.h:39-65 | the 64-bit field read LSB first into ch0..ch3 (11 bits), gear (2), pause, fn_l, fn_r (1 each), wheel (11) and trigger (1); each fits its width |
| Vt03.PressOf | PYRo/Component/RC/pyro_vt03_rc_drv.h:39-65 | the mouse-button byte read as three 2-bit fields |
| Vt03.WordOfBits | PYRo/Component/RC/pyro_vt03_rc_drv.h:39-65 | packing the word's fields and reading them back gives the fields |
| Vt03.BitsOfWord | PYRo/Component/RC/pyro_vt03_rc_drv.h:39-65 | reading a 64-bit word into fields and packing them gives the word |
| Vt03.PressRoundTrip | PYRo/Component/RC/pyro_vt03_rc_drv.h:39-65 | the button byte and its three fields convert both ways without loss |
| Vt03.Parse | PYRo/Component/RC/pyro_vt03_rc_drv.h:39-65 | reading the 21-byte frame: two start bytes, the 64-bit field, three int16 axes, the button byte, key_code and crc; every field fits |
| Vt03.Pack | PYRo/Component/RC/pyro_vt03_rc_drv.h:39-65 | a frame with the given fields is 21 bytes |
| Vt03.PackHead | PYRo/Component/RC/pyro_vt03_rc_drv.h:39-52 | the start bytes and the bit-field word take ten bytes |
| Vt03.PackTail | PYRo/Component/RC/pyro_vt03_rc_drv.h:53-65 | the axes, buttons, key bitmap and CRC take eleven bytes |
| Vt03.ParsePack | PYRo/Component/RC/pyro_vt03_rc_drv.h:39-65 | decoding a packed frame gives back every field |
| Vt03.TailFields | PYRo/Component/RC/pyro_vt03_rc_drv.h:53-65 | each tail field reads back from its bytes |
| Vt03.HeadPackParse | PYRo/Component/RC/pyro_vt03_rc_drv.h:39-52 | the ten head bytes are the packing of what they decode to |
| Vt03.TailPackParse | PYRo/Component/RC/pyro_vt03_rc_drv.h:53-65 | the eleven tail bytes are the packing of what they decode to |
| Vt03.PackParse | PYRo/Component/RC/pyro_vt03_rc_drv.h:39-65 | every 21-byte frame is the packing of its decoded fields |
| Vt03.SealedFramePasses | PYRo/Component/RC/pyro_vt03_rc_drv.cpp:81-102 | a frame whose CRC16 the sender appended passes error_check iff ch0..ch3 and the wheel lie in [364, 1684] |
| Vt03.GearChangeTimeLost | PYRo/Component/RC/pyro_vt03_rc_drv.cpp:108-135 | in the code as written the gear's change_time is always 0, even right after a move at a later time |
| Vt03.CheckGear | PYRo/Component/RC/pyro_vt03_rc_drv.cpp:108-135 | the stored position is always the raw one, and the change time is the current time exactly when the position changed (corrected behaviour) |
| Vt03.GearReportsNeighbourMoves | PYRo/Component/RC/pyro_vt03_rc_drv.cpp:108-135 | a transition is reported iff the gear moved between LEFT-MID or MID-RIGHT, either way; raw 3, no move and LEFT-RIGHT give 0; the corrected and as-written versions differ only in change_time |
| Vt03.DebounceFiltersGlitches | PYRo/Component/RC/pyro_vt03_rc_drv.cpp:154-175 | the stable level changes iff the input has disagreed with it since an earlier sample more than 10 ms ago, and then takes the input's value |
| Vt03.GlitchForgotten | PYRo/Component/RC/pyro_vt03_rc_drv.cpp:154-175 | a disagreement gone by the next sample never changes the level and resets last_time to 0 |
| Vt03.HoldNeverClicks | PYRo/Component/RC/pyro_vt03_rc_drv.cpp:194-219 | while HOLD is reported no click is pending, and from HOLD the next report is never PRESSED |
| Vt03.HoldEnteredOnce | PYRo/Component/RC/pyro_vt03_rc_drv.cpp:204-219 | HOLD is entered only with the key down more than 200 ms, stamping change_time and zeroing hold_time and pending; while held, hold_time is duration minus 200 and change_time is kept |
| Vt03.ClickConfirmed | PYRo/Component/RC/pyro_vt03_rc_drv.cpp:222-230 | PRESSED newly reported stamps change_time and clears pending; a pending release older than 220 ms with the key up is reported as PRESSED |
| Vt03.DoubleClick | PYRo/Component/RC/pyro_vt03_rc_drv.cpp:178-230 | two quick presses within the 220 ms window give repeat_times 2 and, once the window closes, PRESSED at that time |
| Vt03.DebouncePhase | PYRo/Component/RC/pyro_vt03_rc_drv.cpp:154-175 | phase 1 computes Debounce: the new key and which edge, if any |
| Vt03.KeyRises | PYRo/Component/RC/pyro_vt03_rc_drv.cpp:154-201 | a press confirmed by the debounce makes the level 1, counts repeat_times one up when a click was pending and 1 otherwise, stamps press_time, reports the idle 0 and clears pending |
| Vt03.KeyFalls | PYRo/Component/RC/pyro_vt03_rc_drv.cpp:154-201 | a release confirmed by the debounce makes the level 0; outside HOLD it keeps the report, stamps release_time and sets pending; from a clean HOLD only the level moves |
| Vt03.EdgePhase | PYRo/Component/RC/pyro_vt03_rc_drv.cpp:177-201 | phases 2 and 3 compute OnEdge, whose effect on a sample KeyRises and KeyFalls state |
| Vt03.HoldPhase | PYRo/Component/RC/pyro_vt03_rc_drv.cpp:203-219 | phase 4 computes HoldCheck |
| Vt03.ConfirmPhase | PYRo/Component/RC/pyro_vt03_rc_drv.cpp:221-230 | phase 5 computes Confirm |
| Vt03.CheckKey | PYRo/Component/RC/pyro_vt03_rc_drv.cpp:143-231 | the five phases in source order compute KeyStep |
| Vt03.Initial | PYRo/Component/RC/pyro_vt03_rc_drv.h:164 | the value-initialised `_vt03_ctrl{}`: the channels are 0, the gear is {0, 0, 0}, and the four switch keys, three mouse buttons and sixteen keys are all the zero key |
| Vt03.NextKeys | PYRo/Component/RC/pyro_vt03_rc_drv.cpp:271-275 | key i samples bit i of key_code at the frame's time; the key count is kept |
| Vt03.RejectedFrameChangesNothing | PYRo/Component/RC/pyro_vt03_rc_drv.cpp:238-240 | a frame failing the range or CRC16 check leaves the decoded state unchanged |
| Vt03.AcceptedFrameMapping | PYRo/Component/RC/pyro_vt03_rc_drv.cpp:238-277 | for an accepted frame each of ch0..ch3 and the wheel is raw minus 1024 within [-660, 660]; the gear runs the classifier; fn_l, fn_r, pause and trigger, the three mouse buttons and keyboard key i run the key machine on their own field or bit; the mouse axes are the raw int16 values |
| Vt03.Driver.constructor | PYRo/Component/RC/pyro_vt03_rc_drv.cpp:35-39 | the constructor resets the shared mask to 0x80 and starts from the value-initialised state |
| Vt03.Driver.Disable | PYRo/Component/RC/pyro_vt03_rc_drv.cpp:69-72 | disable clears bit 0 of the shared mask |
| Vt03.Driver.Callback | PYRo/Component/RC/pyro_vt03_rc_drv.cpp:284-302 | the ISR accepts a frame iff it is 21 bytes starting A9 53; priority 0 always passes the mask test |
| Vt03.Driver.StepKeys | PYRo/Component/RC/pyro_vt03_rc_drv.cpp:271-275 | the in-place loop over the sixteen keys computes NextKeys |
| Vt03.Driver.Unpack | PYRo/Component/RC/pyro_vt03_rc_drv.cpp:238-277 | unpack updates the state in place to Decode of the old one |
| Vt03.Driver.Apply | PYRo/Component/RC/pyro_vt03_rc_drv.cpp:245-275 | the accepted-frame body updates the state to Update of the old one |
| Vt03.Driver.StepRc | PYRo/Component/RC/pyro_vt03_rc_drv.cpp:245-261 | channels, gear and the four switch keys become NextRc; the mouse is untouched |
| Vt03.Driver.StepMouse | PYRo/Component/RC/pyro_vt03_rc_drv.cpp:263-269 | the axes and three buttons become NextMouse; the rest is untouched |
| Vt03.Driver.Thread | PYRo/Component/RC/pyro_vt03_rc_drv.cpp:309-337 | one thread call consumes receives, changes only bit 0 of the mask and agrees with the worker loop Serve |
| Vt03.Driver.Decoding | PYRo/Component/RC/pyro_vt03_rc_drv.cpp:322-336 | the live loop decodes until a timeout clears bit 0, agreeing with Serve |
| Vt03.Driver.Handle | PYRo/Component/RC/pyro_vt03_rc_drv.cpp:325-335 | one live receive is exactly one Step of the loop |
| Vt03.Driver.Task | PYRo/Component/RC/pyro_vt03_rc_drv.cpp:340-351 | repeating thread over all receives gives the link and decoded state of Serve from an offline start |
| RefereeProtocol.CmdIdsFitAllowList | PYRo/Component/Referee/protocol.h:24-61 | every command id is below the 1024-entry allow-list size, and distinct commands have distinct ids |
| RefereeProtocol.LayoutIndexes | PYRo/Component/Referee/protocol.h:294-319 | each record's index is its position among the RefereeData members |
| RefereeProtocol.Packed | PYRo/Component/Referee/protocol.h:294-319 | the packed RefereeData starts at byte 0, each member starts where the previous one ends, and the whole is 295 bytes |
| RefereeProtocol.RecordsDisjoint | PYRo/Component/Referee/protocol.h:294-319 | every record lies inside RefereeData and ends before any later record starts |
| RefereeProtocol.SlotsDisjoint | PYRo/Component/Referee/protocol.h:294-319 | the same non-overlap, stated slot by slot |
| RefereeProtocol.StartMono | PYRo/Component/Referee/protocol.h:294-319 | member starts grow with their position |
| RefereeProtocol.RecordFor | PYRo/Component/Referee/pyro_referee.cpp:376-444 | the record solve_data's switch picks for a command value carries that command |
| RefereeProtocol.RecordForComplete | PYRo/Component/Referee/pyro_referee.cpp:376-444 | every record has a case: its own command reaches it |
| RefereeProtocol.RecordlessCommands | PYRo/Component/Referee/pyro_referee.cpp:376-444 | a command reaches no case exactly when it is one of the eight commands without a record |
| RefereeProtocol.HeaderBytes | PYRo/Component/Referee/protocol.h:76-82 | the packed frame header is 5 bytes |
| RefereeProtocol.HeaderRoundTrip | PYRo/Component/Referee/protocol.h:76-82 | parsing the packed header gives the header back, and packing any 5 parsed bytes gives the bytes back |
| RefereeProtocol.InteractionHeaderBytes | PYRo/Component/Referee/protocol.h:271-276 | the packed interaction header is 6 bytes |
| RefereeProtocol.InteractionHeaderRoundTrip | PYRo/Component/Referee/protocol.h:271-276 | parsing a packed interaction header gives back its three ids |
| RefereeProtocol.RobotInteractionSize | PYRo/Component/Referee/protocol.h:279-283 | header plus 112 user bytes is exactly the robot-interaction record's size |
| RefereeProtocol.CustomInfoBytes | PYRo/Component/Referee/protocol.h:286-291 | custom info packs to 34 bytes, with the user data from byte 4 |
| Referee.BuildFrame | PYRo/Component/Referee/pyro_referee.cpp:120-154 | a frame for a len-byte payload is 9 + len bytes |
| Referee.BuiltFrameFields | PYRo/Component/Referee/pyro_referee.cpp:133-152 | a built frame holds SOF, the length, the sequence number, the command and the payload where the receiver reads them, and both its CRC8 and CRC16 verify |
| Referee.BuiltFrameWellFormed | PYRo/Component/Referee/pyro_referee.cpp:120-154 | a built frame with a payload below 247 bytes is one the receiver accepts |
| Referee.InitialParserValid | PYRo/Component/Referee/pyro_referee.h:84-90 | the value-initialised unpack context satisfies the context invariant |
| Referee.FeedSof | PYRo/Component/Referee/pyro_referee.cpp:279-290 | the HEADER_SOF step keeps the context invariant |
| Referee.FeedLengthLow | PYRo/Component/Referee/pyro_referee.cpp:292-296 | the LENGTH_LOW step keeps the context invariant |
| Referee.FeedLengthHigh | PYRo/Component/Referee/pyro_referee.cpp:298-309 | the LENGTH_HIGH step keeps the context invariant |
| Referee.LengthHighShape | PYRo/Component/Referee/pyro_referee.cpp:298-309 | the assembled length fits 16 bits; below 247 the step goes on to FRAME_SEQ at index 3, otherwise it resets to SOF search at index 0 |
| Referee.FeedSeq | PYRo/Component/Referee/pyro_referee.cpp:311-314 | the FRAME_SEQ step keeps the context invariant |
| Referee.FeedCrc8 | PYRo/Component/Referee/pyro_referee.cpp:316-329 | the HEADER_CRC8 step keeps the context invariant |
| Referee.FeedBody | PYRo/Component/Referee/pyro_referee.cpp:331-348 | the DATA_CRC16 step keeps the context invariant, so every store stays inside the 256-byte packet |
| Referee.Feed | PYRo/Component/Referee/pyro_referee.cpp:277-349 | one byte of the switch keeps the context invariant |
| Referee.FeedHandsOverWellFormed | PYRo/Component/Referee/pyro_referee.cpp:331-348 | a frame handed to solve_data is well formed (SOF, length below 247, size 9 + length, both CRCs verify), and the parser is back at SOF search |
| Referee.FeedHandsOverPacket | PYRo/Component/Referee/pyro_referee.cpp:342-357 | the frame handed over is the first 9 + length bytes of the packet buffer, for the length in its header |
| Referee.FeedResyncs | PYRo/Component/Referee/pyro_referee.cpp:277-349 | the parser falls back to SOF search exactly on a non-SOF byte, a length of 247 or more, a bad CRC8 or the last body byte, always at index 0; it hands over a frame exactly when the last body byte completes a frame whose CRC16 verifies |
| Referee.Scan | PYRo/Component/Referee/pyro_referee.cpp:263-351 | running the parser over a byte string keeps the context invariant |
| Referee.Handed | PYRo/Component/Referee/pyro_referee.cpp:342-346 | one byte hands over no frame, or exactly the one it completes |
| Referee.ScannedFramesWellFormed | PYRo/Component/Referee/pyro_referee.cpp:263-351 | every frame the parser hands over is well formed |
| Referee.ScanConcat | PYRo/Component/Referee/pyro_referee.cpp:263-351 | parsing two chunks one after the other is parsing their concatenation: the result does not depend on how the UART splits the stream |
| Referee.GarbageSkipped | PYRo/Component/Referee/pyro_referee.cpp:279-290 | during SOF search, bytes other than 0xA5 change nothing and hand over nothing |
| Referee.BodyCompletes | PYRo/Component/Referee/pyro_referee.cpp:331-348 | from any index inside the body of a frame whose CRC16 verifies, the rest of the frame hands over exactly that frame |
| Referee.LengthRead | PYRo/Component/Referee/pyro_referee.cpp:279-309 | SOF and two length bytes giving a length below 247 bring the parser to FRAME_SEQ with those three bytes stored |
| Referee.HeaderChecked | PYRo/Component/Referee/pyro_referee.cpp:311-329 | the sequence byte and a CRC8 that verifies bring the parser to the body with the five header bytes stored |
| Referee.FrameRecognised | PYRo/Component/Referee/pyro_referee.cpp:263-351 | from SOF search, a well-formed frame is handed over whole, exactly once, and the parser ends at SOF search |
| Referee.CopyInto | PYRo/Component/Referee/pyro_referee.h:122 | memcpy into the record holder keeps its size |
| Referee.SafeCopy | PYRo/Component/Referee/pyro_referee.h:115-123 | safe_copy keeps RefereeData 295 bytes long |
| Referee.SafeCopyBounded | PYRo/Component/Referee/pyro_referee.h:115-123 | safe_copy writes exactly min(len, sizeof record) bytes, from the record's start and from the source's start; every other byte, in that record or any other, keeps its value |
| Referee.CopyIntoAt | PYRo/Component/Referee/pyro_referee.h:122 | a copy changes exactly the bytes of its destination range, each to the corresponding source byte |
| Referee.Dispatch | PYRo/Component/Referee/pyro_referee.cpp:353-445 | solve_data keeps RefereeData 295 bytes long |
| Referee.DispatchTouchesOneRecord | PYRo/Component/Referee/pyro_referee.cpp:369-444 | a frame changes a byte only if its command is below 1024, enabled and has a record; the byte then lies in that record's first min(length, size) bytes and takes the payload byte at the same place |
| Referee.GameResultOverwritesWinner | PYRo/Component/Referee/pyro_referee.cpp:381-383 | an enabled one-byte GAME_RESULT frame sets the winner byte to its payload and leaves every other byte alone |
| Referee.AbsorbByte | PYRo/Component/Referee/pyro_referee.cpp:273-348 | one FIFO byte keeps the receive-state invariant |
| Referee.Absorb | PYRo/Component/Referee/pyro_referee.cpp:263-351 | draining the FIFO keeps the receive-state invariant |
| Referee.DispatchAll | PYRo/Component/Referee/pyro_referee.cpp:353-445 | solve_data over a list of frames keeps RefereeData 295 bytes long |
| Referee.WellFormedShape | PYRo/Component/Referee/pyro_referee.cpp:353-357 | a well-formed frame has the shape solve_data relies on: its length field gives its size |
| Referee.AbsorbIsScanThenDispatch | PYRo/Component/Referee/pyro_referee.cpp:263-371 | unpack_fifo_data is the parser followed by solve_data: the records change by the frames handed over, in order; the link is marked live at `now` exactly when a frame was handed over, and otherwise keeps its flag and timestamp |
| Referee.ScannedFramesShaped | PYRo/Component/Referee/pyro_referee.cpp:263-357 | every frame handed over has the shape solve_data relies on |
| Referee.DispatchFields | PYRo/Component/Referee/pyro_referee.cpp:376-444 | a frame naming an enabled record's command with a len-byte payload is safe_copied into that record |
| Referee.DispatchTo | PYRo/Component/Referee/pyro_referee.cpp:369-444 | a frame naming an enabled command that has a record is safe_copied into that record with its header length |
| Referee.DispatchBuilt | PYRo/Component/Referee/pyro_referee.cpp:353-445 | solve_data on a frame built by send_packet for a record's command copies that payload into the record |
| Referee.SentFrameDelivered | PYRo/Component/Referee/pyro_referee.cpp:263-445 | end to end: a frame built by send_packet with a payload below 247 bytes, fed from SOF search, lands in its command's record and marks the link live at `now` |
| Referee.AllowList | PYRo/Component/Referee/pyro_referee.cpp:69-82 | the allow-list bitset has 1024 entries |
| Referee.AllowListMembers | PYRo/Component/Referee/pyro_referee.cpp:74-82 | after init(listening_ids) an id below 1024 is enabled exactly when it was listed |
| Referee.GuardAsWrittenAdmitsHugeLengths | PYRo/Component/Referee/pyro_referee.cpp:126-128 | the guard as written passes exactly the lengths up to 247 and from 65527; at 65527 the wrapped total is 0 while the frame needs well over 256 bytes |
| Referee.SendFitsExactly | PYRo/Component/Referee/pyro_referee.cpp:126-128 | the corrected guard passes exactly the lengths up to 247, and on those the written guard agrees and computes the true total |
| Referee.LongestSendNotReceived | PYRo/Component/Referee/pyro_referee.cpp:302-308 | a 247-byte payload passes the send guard, yet a frame whose length field is 247 sends the receiver back to SOF search |
| Referee.TxPayload | PYRo/Component/Referee/pyro_referee.cpp:147-150 | the payload in the frame is len bytes: the caller's first len bytes when there is a data pointer |
| Referee.InteractionPayload | PYRo/Component/Referee/pyro_referee.cpp:163-179 | the interaction payload is 6 + len bytes, parses back to the given header, and carries the caller's bytes after it when there is a data pointer, otherwise the stack buffer's bytes |
| Referee.UiLength | PYRo/Component/Referee/pyro_referee.cpp:198-225 | the UI payload length is at most 105, and non-zero exactly for the six known UI sub-commands |
| Referee.CustomUserData | PYRo/Component/Referee/pyro_referee.cpp:239-245 | the user data is 30 bytes: the message's first min(length, 30) bytes, the rest zero |
| Referee.Watchdog | PYRo/Component/Referee/pyro_referee.cpp:33-38 | the link stays live only if it was live and the last frame is at most 2000 ms old; otherwise only the flag changes, to offline |
| Referee.TaskStep | PYRo/Component/Referee/pyro_referee.cpp:25-42 | a task iteration keeps the receive-state invariant |
| Referee.TaskStepLiveness | PYRo/Component/Referee/pyro_referee.cpp:25-42 | after a task iteration an arriving frame leaves the link live at `now`; a live link's last frame is at most 2000 ms old; with no frame the link is live exactly when it was live and within 2000 ms |
| RefereeDriver.BuildFrameBytes | PYRo/Component/Referee/pyro_referee.cpp:133-152 | the built frame is the header with its CRC8, the command, the payload, then the CRC16 over all of them |
| RefereeDriver.PacketFrame | PYRo/Component/Referee/pyro_referee.cpp:342-357 | the frame solve_data reads is the packet buffer's first 9 + length bytes, with the header's length and command bytes |
| RefereeDriver.DispatchSkips | PYRo/Component/Referee/pyro_referee.cpp:369-371 | a frame whose command is 1024 or more, not enabled or without a record leaves the records alone |
| RefereeDriver.DispatchCopies | PYRo/Component/Referee/pyro_referee.cpp:376-440 | a frame for an enabled command with a record copies min(length, size) payload bytes to that record's offset, inside RefereeData |
| RefereeDriver.HeaderThenPayload | PYRo/Component/Referee/pyro_referee.cpp:143-150 | after the header and the payload memcpy the buffer starts with them and the bytes past the frame are untouched |
| RefereeDriver.HeaderOverStale | PYRo/Component/Referee/pyro_referee.cpp:147-150 | when the memcpy is skipped, the payload bytes are the buffer's previous ones |
| RefereeDriver.ChecksumLast | PYRo/Component/Referee/pyro_referee.cpp:152 | the CRC16 appended covers, and follows, the frame's first total - 2 bytes |
| RefereeDriver.Driver.constructor | PYRo/Component/Referee/pyro_referee.cpp:55-63 | a new driver is offline, with zeroed context, records and transmit buffer, sequence and robot id 0, an empty FIFO and an empty allow-list |
| RefereeDriver.Driver.Listen | PYRo/Component/Referee/pyro_referee.cpp:69-92 | with a UART the allow-list becomes exactly the listed ids below 1024; without one it is unchanged |
| RefereeDriver.Driver.ListenAll | PYRo/Component/Referee/pyro_referee.cpp:94-109 | with a UART every id is enabled; without one the allow-list is unchanged |
| RefereeDriver.Driver.SetRobotId | PYRo/Component/Referee/pyro_referee.h:40-43 | the robot id is set and every other field is unchanged |
| RefereeDriver.Driver.Copy | PYRo/Component/Referee/pyro_referee.cpp:149 | memcpy on an array: the array afterwards is the copy of its old contents |
| RefereeDriver.Driver.SendPacket | PYRo/Component/Referee/pyro_referee.cpp:120-154 | with the guard corrected: an oversize frame or no UART sends nothing and changes nothing; otherwise the frame for the next sequence number is written (the sequence wraps at 256), the buffer past the frame is untouched, and the UART's status is returned; the receive side is unchanged |
| RefereeDriver.Driver.EncodeFrame | PYRo/Component/Referee/pyro_referee.cpp:133-152 | the transmit buffer's first 9 + len bytes become the built frame, and the rest is untouched |
| RefereeDriver.Driver.WriteFrame | PYRo/Component/Referee/pyro_referee.cpp:143-152 | the buffer holds header, command and payload followed by their CRC16, and nothing past the frame changes |
| RefereeDriver.Driver.SendInteraction | PYRo/Component/Referee/pyro_referee.cpp:156-180 | a frame goes out exactly when 6 + len is at most 119 and there is a UART; it is the STUDENT_INTERACTIVE frame of the interaction header (sub-command, own id, receiver) and the payload; a refused send changes nothing |
| RefereeDriver.Driver.SendRobotInteraction | PYRo/Component/Referee/pyro_referee.cpp:182-196 | a frame goes out exactly when the robot id is set, sender and receiver are on the same team (ids below 100 are red), the payload fits and there is a UART |
| RefereeDriver.Driver.SendUiInteraction | PYRo/Component/Referee/pyro_referee.cpp:198-228 | the frame carries the sub-command's fixed length and is addressed to this robot's client id; it goes out whenever there is a UART |
| RefereeDriver.Driver.SendCustomInfo | PYRo/Component/Referee/pyro_referee.cpp:230-249 | a frame goes out exactly when the robot id is set and there is a UART; it is the MAP_RECEIVE_ROBOT frame of own id, client id and the message's first 30 bytes, zero padded |
| RefereeDriver.Driver.RxCallback | PYRo/Component/Referee/pyro_referee.cpp:255-261 | the received bytes are appended to the FIFO, nothing else changes, and the callback returns true |
| RefereeDriver.Driver.SyncByte | PYRo/Component/Referee/pyro_referee.cpp:277-349 | the context in place becomes Feed's next context, and a frame is reported exactly when Feed hands one over |
| RefereeDriver.Driver.SofByte | PYRo/Component/Referee/pyro_referee.cpp:279-290 | the context becomes FeedSof's |
| RefereeDriver.Driver.LengthLowByte | PYRo/Component/Referee/pyro_referee.cpp:292-296 | the context becomes FeedLengthLow's |
| RefereeDriver.Driver.LengthHighByte | PYRo/Component/Referee/pyro_referee.cpp:298-309 | the context becomes FeedLengthHigh's |
| RefereeDriver.Driver.SeqByte | PYRo/Component/Referee/pyro_referee.cpp:311-314 | the context becomes FeedSeq's |
| RefereeDriver.Driver.Crc8Byte | PYRo/Component/Referee/pyro_referee.cpp:316-329 | the context becomes FeedCrc8's |
| RefereeDriver.Driver.BodyByte | PYRo/Component/Referee/pyro_referee.cpp:331-348 | the context becomes FeedBody's, and a frame is reported exactly when FeedBody hands one over |
| RefereeDriver.Driver.SolveData | PYRo/Component/Referee/pyro_referee.cpp:353-444 | the link is live at `now`, and the records become Dispatch of the frame in the packet buffer |
| RefereeDriver.Driver.StoreFrame | PYRo/Component/Referee/pyro_referee.cpp:369-444 | the records become Dispatch of the frame in the packet buffer |
| RefereeDriver.Driver.FeedByte | PYRo/Component/Referee/pyro_referee.cpp:273-348 | the receive state becomes AbsorbByte of the old one |
| RefereeDriver.Driver.UnpackFifoData | PYRo/Component/Referee/pyro_referee.cpp:263-351 | the FIFO is emptied and the receive state becomes Absorb of the old state over the old FIFO |
| RefereeDriver.Driver.TaskIteration | PYRo/Component/Referee/pyro_referee.cpp:25-42 | the FIFO is emptied and the receive state becomes TaskStep of the old one |
| Supercap.CmdBytes | PYRo/Component/Supercap/pyro_supercap_drv.h:35-44 | a packed chassis_cmd_t is 8 bytes |
| Supercap.CmdRoundTrip | PYRo/Component/Supercap/pyro_supercap_drv.h:35-44 | reading back a packed command gives the command |
| Supercap.CmdBytesRoundTrip | PYRo/Component/Supercap/pyro_supercap_drv.h:35-44 | every 8 bytes are the packing of exactly one command |
| Supercap.FeedbackBytes | PYRo/Component/Supercap/pyro_supercap_drv.h:49-57 | a packed cap_feedback_t is 9 bytes |
| Supercap.FeedbackRoundTrip | PYRo/Component/Supercap/pyro_supercap_drv.h:49-57 | reading back packed feedback gives the feedback |
| Supercap.FeedbackBytesRoundTrip | PYRo/Component/Supercap/pyro_supercap_drv.cpp:209-212 | every 9 bytes are the packing of exactly one feedback record, so unpack's memcpy is a decode |
| Supercap.ZeroFeedback | PYRo/Component/Supercap/pyro_supercap_drv.cpp:54 | the zeroed feedback packs to nine zero bytes |
| Supercap.RxCallback | PYRo/Component/Supercap/pyro_supercap_drv.cpp:172-185 | a receive is forwarded exactly when it is 14 bytes, starts with 0x55 and ends with a newline; what is forwarded is its first 13 bytes |
| Supercap.Unpacked | PYRo/Component/Supercap/pyro_supercap_drv.cpp:155-161 | a 13-byte packet whose CRC16 verifies replaces the feedback with its bytes 2..10; any other packet leaves the feedback unchanged |
| Supercap.LiveStep | PYRo/Component/Supercap/pyro_supercap_drv.cpp:149-167 | while online: a whole packet is decoded (or dropped on a bad CRC16), a timeout takes the link offline and keeps the feedback, and a receive of another size changes nothing |
| Supercap.RxWire | PYRo/Component/Supercap/pyro_supercap_drv.h:138-143 | a controller frame is 14 bytes on the wire |
| Supercap.RxWireDecodes | PYRo/Component/Supercap/pyro_supercap_drv.cpp:172-212 | a controller frame is admitted, passes error_check and decodes to the feedback it carries, whatever its header CRC8 byte holds |
| Supercap.AdmittedIsRxWire | PYRo/Component/Supercap/pyro_supercap_drv.cpp:172-207 | every receive that is admitted and passes error_check is a controller frame |
| Supercap.TxFrame | PYRo/Component/Supercap/pyro_supercap_drv.cpp:215-237 | the command frame is 13 bytes: 0x55, a CRC8 that verifies, the packed command, a CRC16 that verifies over the first 12 bytes, and a newline |
| Supercap.TxFrameUnique | PYRo/Component/Supercap/pyro_supercap_drv.h:130-136 | any 13 bytes with that layout are the command's frame |
| Supercap.TxFrameCarriesCmd | PYRo/Component/Supercap/pyro_supercap_drv.cpp:226 | bytes 2..10 of the frame read back as the command |
| Supercap.Driver.constructor | PYRo/Component/Supercap/pyro_supercap_drv.cpp:50-67 | zero feedback, offline, and a zeroed 13-byte TX buffer exactly when the DMA allocation succeeds |
| Supercap.Driver.Unpack | PYRo/Component/Supercap/pyro_supercap_drv.cpp:209-212 | the feedback becomes the packet's bytes 2..10, and the online flag is unchanged |
| Supercap.Driver.Handle | PYRo/Component/Supercap/pyro_supercap_drv.cpp:152-166 | one receive while online ends in the state of the reference step |
| Supercap.Driver.Thread | PYRo/Component/Supercap/pyro_supercap_drv.cpp:138-167 | one pass of the outer loop consumes at least one receive, leaves the driver offline unless the receives ran out, and what remains continues the reference run |
| Supercap.Driver.Decoding | PYRo/Component/Supercap/pyro_supercap_drv.cpp:149-167 | the inner loop leaves the driver offline unless the receives ran out, and what remains continues the reference run |
| Supercap.Driver.Task | PYRo/Component/Supercap/pyro_supercap_drv.cpp:136-169 | the task over a sequence of receives ends in the state of the reference run |
| Supercap.Driver.SendCmd | PYRo/Component/Supercap/pyro_supercap_drv.cpp:215-237 | with no TX buffer or no UART: an error and nothing written; otherwise the buffer holds the command's frame, all 13 bytes are written, and the UART's status is returned |
| Jcom.Values | PYRo/Debug/JCOM/pyro_jcom.cpp:83-86 | a node contributes size values, the i-th being data[i] |
| Jcom.Packed | PYRo/Debug/JCOM/pyro_jcom.cpp:81-87 | all nodes together contribute as many values as the nodes register |
| Jcom.TotalConcat | PYRo/Debug/JCOM/pyro_jcom.cpp:45-46 | the float count of two node lists adds up |
| Jcom.PackedConcat | PYRo/Debug/JCOM/pyro_jcom.cpp:81-87 | packing two node lists is packing one then the other |
| Jcom.First | PYRo/Debug/JCOM/pyro_jcom.cpp:64-72 | the index found is the first node registering the pointer, or the list's length when none does |
| Jcom.RemovedTotal | PYRo/Debug/JCOM/pyro_jcom.cpp:62-73 | removal drops exactly one node and its floats from the count when one registers the pointer, and leaves the list alone otherwise |
| Jcom.AddThenRemove | PYRo/Debug/JCOM/pyro_jcom.cpp:50-73 | registering a new pointer and removing it again gives back the old list |
| Jcom.WordBytes | PYRo/Debug/JCOM/pyro_jcom.cpp:92-93 | a float goes out as four bytes |
| Jcom.WordRoundTrip | PYRo/Debug/JCOM/pyro_jcom.cpp:92-93 | those four little-endian bytes read back as the same float bits |
| Jcom.HeadBytes | PYRo/Debug/JCOM/pyro_jcom.cpp:77-79 | the head word goes out as 00 00 80 7F |
| Jcom.Bytes | PYRo/Debug/JCOM/pyro_jcom.cpp:92-93 | an array of n floats goes out as 4n bytes |
| Jcom.BytesAt | PYRo/Debug/JCOM/pyro_jcom.cpp:92-93 | bytes 4i..4i+4 of the output are float i of the array |
| Jcom.PackedSnoc | PYRo/Debug/JCOM/pyro_jcom.cpp:81-87 | one node more packs its values after those of the nodes before it |
| Jcom.Grow | PYRo/Debug/JCOM/pyro_jcom.cpp:81-87 | the floats of a prefix of the nodes plus the next node's fit within the total |
| Jcom.Driver.constructor | PYRo/Debug/JCOM/pyro_jcom.cpp:11-16 | a new packer has a max_length-float array, no nodes and a count of 0 |
| Jcom.Driver.AddData | PYRo/Debug/JCOM/pyro_jcom.cpp:38-48 | a null pointer changes nothing; otherwise a one-float node is appended and the count grows by 1 |
| Jcom.Driver.AddDataLen | PYRo/Debug/JCOM/pyro_jcom.cpp:50-60 | a null pointer changes nothing; otherwise a len-float node is appended and the count grows by len |
| Jcom.Driver.RemoveData | PYRo/Debug/JCOM/pyro_jcom.cpp:62-73 | the first node registering the pointer is erased and the count stays the number of registered floats |
| Jcom.Driver.UpdateData | PYRo/Debug/JCOM/pyro_jcom.cpp:75-88 | the array starts with the head word, then every node's values in registration order; the slots after them keep their values |
| Jcom.Driver.CopyNode | PYRo/Debug/JCOM/pyro_jcom.cpp:83-86 | the node's values land in the slots from offset on, and nothing else changes |
| Jcom.Driver.Send | PYRo/Debug/JCOM/pyro_jcom.cpp:90-94 | (count + 1) * 4 bytes go out: the head word and every packed float, four bytes each |

## Left out

- Concurrency is modelled sequentially. That covers FreeRTOS tasks, `vTaskDelay`, the ISR-to-task message buffers and FIFO, and the RC base's `read()`/`get_lock()` accessors with the `rw_lock` they hand out (`pyro_rc_base_drv.h` lines 67-68). Each drain or receive is one step over a sequence of bytes or events.
- The CRC8 and CRC16 algorithms are not modelled, because they are table-driven arithmetic with no bearing on the framing. Every result holds for any pair of checksum functions that satisfies the append-then-verify contract of `pyro_crc.h`.
- The clock is a `nat` of milliseconds passed in by the caller, because the DWT timer is hardware. Wrap-around of the `uint32_t` timestamps and of VT03's float millisecond times is not modelled. Time differences are taken on a monotonic clock.
- Floats are not modelled, because Dafny has no IEEE arithmetic.
  - The RC channel scaling (/660) and mouse scaling (/32768) are dropped. The model keeps the centred integer and the raw signed value.
  - J-COM carries each float as its 32-bit pattern, because it only copies them.
- UART and CAN writes, DMA enable, and callback registration with their hub instances are not modelled, because they are I/O. A write's status is a `bool` parameter, and the bytes written are a result.
- Singletons (`get_instance`) and destructors are not modelled, because they are outside the core. This covers the supercap destructor, `start_rx` and `init_impl`.
- The getters that only return a field are not modelled. This covers supercap's `get_feedback`/`is_online` and referee's `get_data`/`is_online`/`get_robot_id`.
- RefereeDriver.Driver.ClientId: the function states no contract of its own. It is `robot_id + 0x100` in 16 bits, and the send methods' contracts use it directly.
- Referee: `pyro_referee.h` declares the class as `referee_system`, with `CmdId` and a `send_ui_interaction(sub, data, len)`. The `.cpp` defines `referee_drv_t` with `cmd_id`, and its `send_ui_interaction` takes no length. The model follows the `.cpp`.
- Referee.UiLength: the six UI sub-command values (0x0100 delete; 0x0101, 0x0102, 0x0103, 0x0104 draw 1/2/5/7; 0x0110 character) are the RoboMaster referee protocol's. The `interaction_sub_cmd` enum that the `.cpp` names is not part of this model; `protocol.h` gives only the 0x0100..0x01FF range.
- Referee: the `!_uart` check in `init` and `send_packet` is the driver's `hasUart` flag. The `data != nullptr` checks are an `Option` payload.
- CanTx: `pyro_com_cantx.h` declares `send(id, driver)` and removes `_can_driver`, but the `.cpp` defines `send(id)` using the instance's driver. The model follows the `.cpp`, with the driver's presence as a `bool` parameter. Handing the frame to the CAN driver is I/O, so `Outgoing` returns it instead.
- CanTx.Packer.AddDataRaw: requires the source to hold at least `(bit_len + 7) / 8` bytes (at most 8) when the field fits, because only then does the C++ read it, and reading past the source object is undefined behaviour.
- CanTx.Packer.Clear: the `if (frame)` test is always true, because `get_frame` never returns null. It is not a separate branch.
- Jcom: `pyro_jcom.h` is not part of this model, so `_length` is an unbounded count rather than a fixed-width integer.
- Jcom.Driver.UpdateData: requires `1 + _length <= max_length`, because the source writes past the DMA array otherwise. Under that bound the `uint8_t` offset cannot wrap.
- Jcom.Driver.Send: requires the same bound, because reading past the array is undefined behaviour.
- Jcom: a failed DMA allocation in the constructor (a null `_data_pack`) is not modelled.
- Jcom: `thread()` is not modelled, because it registers two fixed chassis fields and loops `update_data`/`send` forever. The `_jcom_uart` pointer is assumed non-null, as the source does.
- Supercap: the header CRC8 check in `error_check` is commented out in the source, so it is absent from the model. The model proves instead that any CRC8 byte is accepted (`Supercap.RxWireDecodes`).
- Fsm: the code of child states and hooks (`on_enter`, `on_execute`, `on_exit`, a child's own logic) is not modelled. Their effects on the request and transition buffers are parameters of each tick. The other effects are opaque to the machine.
- Fsm: a child's own `enter` runs inside the machine's `enter` (and inside a switch), and its `on_enter` may call `request_switch`, filling that child's request buffer. That request is not a tick parameter. The model records the child's `enter` as a call and assumes it leaves the machine's buffers unchanged.
- Vt03.NextRc: uses the corrected gear `check_ctrl`, so `change_time` becomes the frame's time on a move. The code as written leaves it 0; see Findings.
- Vt03.AcceptedFrameMapping: states the gear through the corrected `CheckGear`, not the as-written `change_time` of 0.
- Vt03.Driver.Unpack: follows the corrected gear `change_time`, through Decode and NextRc.
- Vt03.Driver.Apply: follows the corrected gear `change_time`, through Update and NextRc.
- Vt03.Driver.StepRc: follows the corrected gear `change_time` of NextRc.

## Findings

| source | as written | input that shows it | evidently intended | confidence | as-written member | corrected member |
|---|---|---|---|---|---|---|
| PYRo/Component/Referee/pyro_referee.cpp:126-128 | `frame_total_len` is a `uint16_t`, so `9 + len` wraps and the `> 256` guard passes lengths 65527..65535 | `len = 65527`: the total wraps to 0, the guard passes, and `memcpy` writes 65527 bytes into the 256-byte transmit buffer | refuse every frame longer than 256 bytes, i.e. every `len > 247` | not executed | Referee.GuardAsWrittenAdmitsHugeLengths | RefereeDriver.Driver.SendPacket |
| PYRo/Component/RC/pyro_vt03_rc_drv.cpp:108-135 | the gear's `check_ctrl` builds a fresh local state, so `change_time` is 0 after every frame | gear LEFT, then a frame with gear MID at 500 ms: the stored `change_time` is 0, not 500 | record the time of the last gear change | not executed | Vt03.GearChangeTimeLost | Vt03.CheckGear |

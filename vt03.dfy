/**
  The VT03 receiver driver (pyro_vt03_rc_drv.h / .cpp), priority 0.

  A 21-byte frame: the two start bytes A9 53, a 64-bit little-endian word of
  bitfields (four 11-bit channels, the 2-bit gear, pause, fn_l, fn_r, the
  11-bit wheel and trigger, LSB first), three int16 mouse axes, a byte of
  three 2-bit mouse buttons, the 16-bit key bitmap and a CRC16 over the
  whole frame. Frames with a channel or wheel out of [364, 1684] or a bad
  CRC are ignored. Buttons run a debounce / click / hold / repeat machine on
  the millisecond clock; the time a frame is handled is the `at` of its
  event. Float scaling is dropped and the float millisecond timestamps are
  integers.
*/
module Vt03 {
  import opened Wire
  import opened Crc
  import opened RcBase
  import opened Link

  const FRAME_LEN: nat := 21
  const SOF1: byte := 0xA9
  const SOF2: byte := 0x53
  const CH_MIN: bv16 := 364
  const CH_MAX: bv16 := 1684
  const CH_OFFSET: int := 1024
  const KEY_COUNT: nat := 16
  const DEBOUNCE_MS: int := 10
  const HOLD_TRIGGER_MS: int := 200
  const REPEAT_WINDOW_MS: int := 220

  /** The bitfields of the 64-bit word at bytes 2-9, LSB first; `spare` holds bits 61-63. */
  datatype Word = Word(ch0: bv16, ch1: bv16, ch2: bv16, ch3: bv16, gear: bv8, pause: bv8, fnL: bv8, fnR: bv8,
                       wheel: bv16, trigger: bv8, spare: bv8)

  /** The three 2-bit mouse buttons of byte 16; `spare` holds bits 6-7. */
  datatype Press = Press(l: bv8, r: bv8, m: bv8, spare: bv8)

  /** vt03_buf_t, field by field. */
  datatype Buf = Buf(sof1: byte, sof2: byte, word: Word, mouseX: bv16, mouseY: bv16, mouseZ: bv16,
                     press: Press, keyCode: bv16, crc: bv16)

  /** Every bitfield of the word holds no more bits than its declared width. */
  predicate WordFits(w: Word)
  {
    && w.ch0 < 0x800 && w.ch1 < 0x800 && w.ch2 < 0x800 && w.ch3 < 0x800 && w.gear < 4
    && w.pause < 2 && w.fnL < 2 && w.fnR < 2 && w.wheel < 0x800 && w.trigger < 2 && w.spare < 8
  }

  predicate PressFits(p: Press)
  {
    p.l < 4 && p.r < 4 && p.m < 4 && p.spare < 4
  }

  predicate FitsLayout(f: Buf)
  {
    WordFits(f.word) && PressFits(f.press)
  }

  function WordBits(w: Word): bv64
  {
    (w.ch0 as bv64) | ((w.ch1 as bv64) << 11) | ((w.ch2 as bv64) << 22) | ((w.ch3 as bv64) << 33)
    | ((w.gear as bv64) << 44) | ((w.pause as bv64) << 46) | ((w.fnL as bv64) << 47) | ((w.fnR as bv64) << 48)
    | ((w.wheel as bv64) << 49) | ((w.trigger as bv64) << 60) | ((w.spare as bv64) << 61)
  }

  function WordOf(v: bv64): (w: Word)
    ensures WordFits(w)
  {
    Word((v & 0x7FF) as bv16, ((v >> 11) & 0x7FF) as bv16, ((v >> 22) & 0x7FF) as bv16, ((v >> 33) & 0x7FF) as bv16,
         ((v >> 44) & 3) as bv8, ((v >> 46) & 1) as bv8, ((v >> 47) & 1) as bv8, ((v >> 48) & 1) as bv8,
         ((v >> 49) & 0x7FF) as bv16, ((v >> 60) & 1) as bv8, ((v >> 61) & 7) as bv8)
  }

  function PressBits(p: Press): byte
  {
    p.l | (p.r << 2) | (p.m << 4) | (p.spare << 6)
  }

  function PressOf(b: byte): (p: Press)
    ensures PressFits(p)
  {
    Press(b & 3, (b >> 2) & 3, (b >> 4) & 3, (b >> 6) & 3)
  }

  lemma WordOfBits(w: Word)
    requires WordFits(w)
    ensures WordOf(WordBits(w)) == w
  {
  }

  lemma BitsOfWord(v: bv64)
    ensures WordBits(WordOf(v)) == v
  {
  }

  lemma PressRoundTrip(p: Press, b: byte)
    ensures PressFits(p) ==> PressOf(PressBits(p)) == p
    ensures PressBits(PressOf(b)) == b
  {
  }

  /** Reading the packed frame. */
  function Parse(b: seq<byte>): (f: Buf)
    requires |b| == FRAME_LEN
    ensures FitsLayout(f)
  {
    Buf(b[0], b[1], WordOf(Load64(b[2..10])), Le16(b[10], b[11]), Le16(b[12], b[13]), Le16(b[14], b[15]),
        PressOf(b[16]), Le16(b[17], b[18]), Le16(b[19], b[20]))
  }

  /** The bytes a transmitter sends for the given field values. */
  function Pack(f: Buf): (b: seq<byte>)
    ensures |b| == FRAME_LEN
  {
    PackHead(f) + PackTail(f)
  }

  /** The ten head bytes: the start bytes and the 64-bit bitfield word. */
  function PackHead(f: Buf): (b: seq<byte>)
    ensures |b| == 10
  {
    [f.sof1, f.sof2] + Store64(WordBits(f.word))
  }

  /** The eleven bytes after the head: mouse axes, buttons, key bitmap and CRC. */
  function PackTail(f: Buf): (b: seq<byte>)
    ensures |b| == FRAME_LEN - 10
  {
    ToLe16(f.mouseX) + ToLe16(f.mouseY) + ToLe16(f.mouseZ) + [PressBits(f.press)] + ToLe16(f.keyCode) + ToLe16(f.crc)
  }

  /** Decoding what was packed gives the fields back. */
  lemma {:induction false} ParsePack(f: Buf)
    requires FitsLayout(f)
    ensures Parse(Pack(f)) == f
  {
    var b := Pack(f);
    var h, t := PackHead(f), PackTail(f);
    assert b[2..10] == h[2..] == Store64(WordBits(f.word));
    assert Load64(b[2..10]) == WordBits(f.word);
    WordOfBits(f.word);
    assert b[..2] == [f.sof1, f.sof2];
    assert b[10..] == t;
    TailFields(f, b[10..]);
  }

  /** The tail bytes read back as the tail fields. */
  lemma {:induction false} TailFields(f: Buf, t: seq<byte>)
    requires PressFits(f.press) && t == PackTail(f)
    ensures Le16(t[0], t[1]) == f.mouseX && Le16(t[2], t[3]) == f.mouseY && Le16(t[4], t[5]) == f.mouseZ
    ensures PressOf(t[6]) == f.press && Le16(t[7], t[8]) == f.keyCode && Le16(t[9], t[10]) == f.crc
  {
    PressRoundTrip(f.press, 0);
  }

  /** The ten head bytes of a frame are the packing of the start bytes and the word they decode to. */
  lemma {:induction false} HeadPackParse(b: seq<byte>)
    requires |b| == FRAME_LEN
    ensures PackHead(Parse(b)) == b[..10]
  {
    BitsOfWord(Load64(b[2..10]));
    Load64RoundTrip(b[2..10]);
    assert b[..10] == [b[0], b[1]] + b[2..10];
  }

  /** The eleven bytes after the head are the packing of the fields they decode to. */
  lemma {:induction false} TailPackParse(b: seq<byte>)
    requires |b| == FRAME_LEN
    ensures PackTail(Parse(b)) == b[10..]
  {
    PressRoundTrip(Press(0, 0, 0, 0), b[16]);
    Le16RoundTrip(b[10], b[11]);
    Le16RoundTrip(b[12], b[13]);
    Le16RoundTrip(b[14], b[15]);
    Le16RoundTrip(b[17], b[18]);
    Le16RoundTrip(b[19], b[20]);
  }

  /** Every 21-byte frame is the packing of the fields it decodes to. */
  lemma {:induction false} PackParse(b: seq<byte>)
    requires |b| == FRAME_LEN
    ensures Pack(Parse(b)) == b
  {
    HeadPackParse(b);
    TailPackParse(b);
    assert b == b[..10] + b[10..];
  }

  predicate InRange(v: bv16)
  {
    CH_MIN <= v <= CH_MAX
  }

  /** error_check: channels and wheel in range, and the CRC16 over all 21 bytes verifies. */
  predicate ErrorCheck(c: Checksums, b: seq<byte>)
    requires |b| == FRAME_LEN
  {
    var f := Parse(b);
    InRange(f.word.ch0) && InRange(f.word.ch1) && InRange(f.word.ch2) && InRange(f.word.ch3) && InRange(f.word.wheel)
    && Verify16(c, b)
  }

  /** A frame whose CRC was appended by the sender passes iff its channels are in range. */
  lemma {:induction false} SealedFramePasses(c: Checksums, f: Buf)
    requires FitsLayout(f)
    ensures var b := Append16(c, Pack(f));
            ErrorCheck(c, b) <==>
              InRange(f.word.ch0) && InRange(f.word.ch1) && InRange(f.word.ch2) && InRange(f.word.ch3) && InRange(f.word.wheel)
  {
    var p := Pack(f);
    var b := Append16(c, p);
    assert b[..19] == p[..19];
    ParsePack(f);
    var g := Parse(b);
    assert b[..2] == p[..2] && b[2..10] == p[2..10] && b[10..19] == p[10..19];
    assert g.word.ch0 == f.word.ch0 && g.word.ch1 == f.word.ch1 && g.word.ch2 == f.word.ch2 && g.word.ch3 == f.word.ch3 && g.word.wheel == f.word.wheel;
  }

  /** rc_callback's frame filter: the size and the two start bytes. */
  predicate HeaderOk(buf: seq<byte>)
  {
    |buf| == FRAME_LEN && buf[0] == SOF1 && buf[1] == SOF2
  }

  // ----- the gear switch -----

  const GEAR_LEFT: bv8 := 0
  const GEAR_MID: bv8 := 1
  const GEAR_RIGHT: bv8 := 2

  /** gear_ctrl_t; `GearNone` is the value-initialised 0, which has no enumerator. */
  datatype GearCtrl = GearNone | LeftToMid | MidToRight | RightToMid | MidToLeft
  {
    function Code(): nat
    {
      match this
      case GearNone => 0
      case LeftToMid => 1
      case MidToRight => 2
      case RightToMid => 3
      case MidToLeft => 4
    }
  }

  /** vt03_gear_t: raw position, last transition and the time of the last change. */
  datatype Gear = Gear(state: bv8, ctrl: GearCtrl, changeTime: int)

  function GearMove(from: bv8, to: bv8): GearCtrl
  {
    if from == GEAR_LEFT && to == GEAR_MID then LeftToMid
    else if from == GEAR_MID && to == GEAR_LEFT then MidToLeft
    else if from == GEAR_MID && to == GEAR_RIGHT then MidToRight
    else if from == GEAR_RIGHT && to == GEAR_MID then RightToMid
    else GearNone
  }

  /**
    check_ctrl(vt03_gear_t&) as the source has it: the change time is written
    into the old struct, which is then overwritten by the fresh local, so the
    time is lost.
  */
  function CheckGearAsWritten(g: Gear, raw: bv8, now: int): (r: Gear)
  {
    Gear(raw, if g.state != raw then GearMove(g.state, raw) else GearNone, 0)
  }

  /** Whatever happens, the as-written change time is 0. */
  lemma GearChangeTimeLost(g: Gear, now: int)
    requires now > 0
    ensures CheckGearAsWritten(g, GEAR_MID, now).changeTime == 0
    ensures g.state == GEAR_LEFT ==> CheckGearAsWritten(g, GEAR_MID, now).changeTime != now
  {
  }

  /** check_ctrl(vt03_gear_t&) as intended: a change of position stamps the time. */
  function CheckGear(g: Gear, raw: bv8, now: int): (r: Gear)
    ensures r.state == raw
    ensures r.changeTime == if g.state != raw then now else g.changeTime
  {
    Gear(raw, if g.state != raw then GearMove(g.state, raw) else GearNone,
         if g.state != raw then now else g.changeTime)
  }

  /**
    A transition is reported exactly for a move between neighbouring named
    positions (left-mid or mid-right), and its change time is the time of the
    move; the two versions agree on everything but the change time.
  */
  lemma {:induction false} GearReportsNeighbourMoves(g: Gear, raw: bv8, now: int)
    ensures var r := CheckGear(g, raw, now);
            r.ctrl != GearNone <==>
              g.state <= 2 && raw <= 2 && (g.state == GEAR_MID) != (raw == GEAR_MID)
    ensures var r := CheckGear(g, raw, now);
            r.ctrl != GearNone ==> r.changeTime == now
    ensures CheckGear(g, raw, now).(changeTime := 0) == CheckGearAsWritten(g, raw, now)
  {
  }

  // ----- the key machine -----

  /** key_ctrl_t; `Idle` is the unnamed 0 the machine writes on a rising edge. */
  datatype KeyCtrl = Idle | Pressed | Hold
  {
    function Code(): nat
    {
      match this
      case Idle => 0
      case Pressed => 1
      case Hold => 2
    }
  }

  /** key_t, public and private fields. */
  datatype Key = Key(ctrl: KeyCtrl, holdTime: int, changeTime: int, repeatTimes: bv32, state: bv8,
                     lastTime: int, pressTime: int, releaseTime: int, pending: bool)

  /** The value-initialised key. */
  const KEY_INIT := Key(Idle, 0, 0, 0, 0, 0, 0, 0, false)

  datatype Edge = NoEdge | Rising | Falling

  /** Phase 1: the input must disagree with the stable level for more than 10 ms. */
  function Debounce(k: Key, raw: bv8, now: int): (Key, Edge)
  {
    if raw != k.state then
      if k.lastTime == 0 then (k.(lastTime := now), NoEdge)
      else if now - k.lastTime > DEBOUNCE_MS then
        (k.(state := raw, lastTime := 0), if raw == 1 then Rising else Falling)
      else (k, NoEdge)
    else (k.(lastTime := 0), NoEdge)
  }

  /** Phases 2 and 3: a rising edge starts a press, a falling edge arms a click unless held. */
  function OnEdge(k: Key, e: Edge, now: int): Key
  {
    match e
    case Rising =>
      k.(repeatTimes := if k.pending then k.repeatTimes + 1 else 1, pending := false, pressTime := now, ctrl := Idle)
    case Falling =>
      if k.ctrl != Hold then k.(releaseTime := now, pending := true) else k
    case NoEdge => k
  }

  /** Phase 4: after 200 ms down the key enters HOLD once; then the hold time runs. */
  function HoldCheck(k: Key, now: int): Key
  {
    if k.state == 1 then
      var duration := now - k.pressTime;
      if k.ctrl == Hold then k.(holdTime := duration - HOLD_TRIGGER_MS)
      else if duration > HOLD_TRIGGER_MS then k.(ctrl := Hold, changeTime := now, holdTime := 0, pending := false)
      else k
    else k
  }

  /** Phase 5: an armed click that sees no new press within 220 ms is reported as PRESSED. */
  function Confirm(k: Key, now: int): Key
  {
    if k.pending && now - k.releaseTime > REPEAT_WINDOW_MS then k.(ctrl := Pressed, changeTime := now, pending := false)
    else k
  }

  /**
    A confirmed rising edge (the input has read 1 against a stable 0 since a
    sample more than 10 ms ago) starts a press: the stable level becomes 1,
    the repeat count is one more than before when a click was armed and 1
    otherwise, the press time is now, the report is the idle 0 and no click
    is armed.
  */
  lemma KeyRises(k: Key, now: int)
    requires k.state == 0 && k.lastTime != 0 && now - k.lastTime > DEBOUNCE_MS
    ensures var r := KeyStep(k, 1, now);
            && r.state == 1 && r.lastTime == 0
            && r.repeatTimes == (if k.pending then k.repeatTimes + 1 else 1)
            && r.pressTime == now && r.ctrl == Idle && !r.pending
  {
  }

  /**
    A confirmed falling edge arms a click stamped now and keeps the report,
    unless the key was in HOLD (with no click armed, as HoldNeverClicks
    keeps it), in which case only the stable level moves.
  */
  lemma KeyFalls(k: Key, now: int)
    requires k.state == 1 && k.lastTime != 0 && now - k.lastTime > DEBOUNCE_MS
    ensures var r := KeyStep(k, 0, now);
            && r.state == 0 && r.lastTime == 0
            && (k.ctrl != Hold ==> r.ctrl == k.ctrl && r.pending && r.releaseTime == now)
            && (HoldClean(k) && k.ctrl == Hold ==> r == k.(state := 0, lastTime := 0))
  {
  }

  /** One sample of check_ctrl(key_t&), the phases in source order. */
  function KeyStep(k: Key, raw: bv8, now: int): Key
  {
    var d := Debounce(k, raw, now);
    Confirm(HoldCheck(OnEdge(d.0, d.1, now), now), now)
  }

  /**
    The stable level changes exactly when the input has disagreed with it
    since an earlier sample (a non-zero `lastTime`) more than 10 ms ago, and
    then it takes the input's value.
  */
  lemma DebounceFiltersGlitches(k: Key, raw: bv8, now: int)
    ensures KeyStep(k, raw, now).state != k.state <==>
              raw != k.state && k.lastTime != 0 && now - k.lastTime > DEBOUNCE_MS
    ensures KeyStep(k, raw, now).state == k.state || KeyStep(k, raw, now).state == raw
  {
  }

  /** A disagreement that has gone by the next sample is forgotten. */
  lemma GlitchForgotten(k: Key, glitch: bv8, t1: int, t2: int)
    requires k.lastTime == 0 && glitch != k.state
    ensures var k1 := KeyStep(k, glitch, t1);
            var k2 := KeyStep(k1, k.state, t2);
            k1.state == k.state && k2.state == k.state && k2.lastTime == 0
  {
  }

  /** While HOLD is reported, no click is armed. */
  predicate HoldClean(k: Key)
  {
    k.ctrl == Hold ==> !k.pending
  }

  /**
    HoldClean is kept by every sample, and a released hold never turns into
    a click: from HOLD the next report is HOLD or the idle 0, never PRESSED.
  */
  lemma HoldNeverClicks(k: Key, raw: bv8, now: int)
    requires HoldClean(k)
    ensures HoldClean(KeyStep(k, raw, now))
    ensures k.ctrl == Hold ==> KeyStep(k, raw, now).ctrl != Pressed
  {
  }

  /**
    HOLD is entered once, at a sample where the key has been down for more
    than 200 ms, stamping the change time and zeroing the hold time; while
    the key stays down the machine stays in HOLD and the hold time is the
    excess over 200 ms.
  */
  lemma HoldEnteredOnce(k: Key, raw: bv8, now: int)
    ensures var r := KeyStep(k, raw, now);
            r.ctrl == Hold && k.ctrl != Hold ==>
              r.state == 1 && now - r.pressTime > HOLD_TRIGGER_MS && r.changeTime == now && r.holdTime == 0 && !r.pending
    ensures k.ctrl == Hold && !k.pending && k.state == 1 && raw == 1 ==>
              var r := KeyStep(k, raw, now);
              r.ctrl == Hold && r.holdTime == now - k.pressTime - HOLD_TRIGGER_MS && r.changeTime == k.changeTime
  {
  }

  /** PRESSED is reported only when an armed click has waited more than 220 ms. */
  lemma ClickConfirmed(k: Key, raw: bv8, now: int)
    ensures var r := KeyStep(k, raw, now);
            r.ctrl == Pressed && k.ctrl != Pressed ==> r.changeTime == now && !r.pending
    ensures k.pending && k.state == 0 && raw == 0 && now - k.releaseTime > REPEAT_WINDOW_MS ==>
              var r := KeyStep(k, raw, now);
              r.ctrl == Pressed && r.changeTime == now && !r.pending
  {
  }

  /**
    A double click: down at 100-112 ms, up at 150-162, down again at 200-212
    (inside the 220 ms window), up at 250-262; at 500 ms the machine reports
    PRESSED with repeat count 2.
  */
  lemma {:induction false} DoubleClick()
    ensures var k1 := KeyStep(KEY_INIT, 1, 100);
            var k2 := KeyStep(k1, 1, 112);
            var k3 := KeyStep(k2, 0, 150);
            var k4 := KeyStep(k3, 0, 162);
            var k5 := KeyStep(k4, 1, 200);
            var k6 := KeyStep(k5, 1, 212);
            var k7 := KeyStep(k6, 0, 250);
            var k8 := KeyStep(k7, 0, 262);
            var k9 := KeyStep(k8, 0, 500);
            && k2.state == 1 && k2.repeatTimes == 1
            && k4.pending && k6.repeatTimes == 2 && !k6.pending
            && k8.pending && k8.ctrl == Idle
            && k9.ctrl == Pressed && k9.repeatTimes == 2 && k9.changeTime == 500
  {
    var k1 := KeyStep(KEY_INIT, 1, 100);
    assert k1 == KEY_INIT.(lastTime := 100);
    var k2 := KeyStep(k1, 1, 112);
    assert k2 == KEY_INIT.(state := 1, repeatTimes := 1, pressTime := 112);
    var k3 := KeyStep(k2, 0, 150);
    assert k3 == k2.(lastTime := 150);
    var k4 := KeyStep(k3, 0, 162);
    assert k4 == k2.(state := 0, releaseTime := 162, pending := true);
    var k5 := KeyStep(k4, 1, 200);
    assert k5 == k4.(lastTime := 200);
    var k6 := KeyStep(k5, 1, 212);
    assert k6 == k4.(state := 1, repeatTimes := 2, pending := false, pressTime := 212);
    var k7 := KeyStep(k6, 0, 250);
    assert k7 == k6.(lastTime := 250);
    var k8 := KeyStep(k7, 0, 262);
    assert k8 == k6.(state := 0, releaseTime := 262, pending := true);
  }

  /** Phase 1 of check_ctrl(key_t&), in place on a copy. */
  method DebouncePhase(key: Key, raw: bv8, now: int) returns (k: Key, edge: Edge)
    ensures (k, edge) == Debounce(key, raw, now)
  {
    k := key;
    edge := NoEdge;
    if raw != k.state {
      if k.lastTime == 0 {
        k := k.(lastTime := now);
      } else if now - k.lastTime > DEBOUNCE_MS {
        k := k.(state := raw, lastTime := 0);
        edge := if k.state == 1 then Rising else Falling;
      }
    } else {
      k := k.(lastTime := 0);
    }
  }

  /** Phases 2 and 3. */
  method EdgePhase(key: Key, edge: Edge, now: int) returns (k: Key)
    ensures k == OnEdge(key, edge, now)
  {
    k := key;
    if edge == Rising {
      if k.pending {
        k := k.(repeatTimes := k.repeatTimes + 1, pending := false);
      } else {
        k := k.(repeatTimes := 1);
      }
      k := k.(pressTime := now, ctrl := Idle);
    } else if edge == Falling {
      if k.ctrl != Hold {
        k := k.(releaseTime := now, pending := true);
      }
    }
  }

  /** Phase 4. */
  method HoldPhase(key: Key, now: int) returns (k: Key)
    ensures k == HoldCheck(key, now)
  {
    k := key;
    if k.state == 1 {
      var duration := now - k.pressTime;
      if k.ctrl == Hold {
        k := k.(holdTime := duration - HOLD_TRIGGER_MS);
      } else if duration > HOLD_TRIGGER_MS {
        k := k.(ctrl := Hold, changeTime := now, holdTime := 0, pending := false);
      }
    }
  }

  /** Phase 5. */
  method ConfirmPhase(key: Key, now: int) returns (k: Key)
    ensures k == Confirm(key, now)
  {
    k := key;
    if k.pending {
      if now - k.releaseTime > REPEAT_WINDOW_MS {
        k := k.(ctrl := Pressed, changeTime := now, pending := false);
      }
    }
  }

  /** check_ctrl(key_t&): the five phases in order on one sample. */
  method CheckKey(key: Key, raw: bv8, now: int) returns (k: Key)
    ensures k == KeyStep(key, raw, now)
  {
    var edge;
    k, edge := DebouncePhase(key, raw, now);
    k := EdgePhase(k, edge, now);
    k := HoldPhase(k, now);
    k := ConfirmPhase(k, now);
  }

  // ----- decoded state -----

  datatype Rc = Rc(chRx: int, chRy: int, chLx: int, chLy: int, wheel: int,
                   gear: Gear, fnL: Key, fnR: Key, pause: Key, trigger: Key)
  datatype Mouse = Mouse(x: int, y: int, z: int, pressL: Key, pressR: Key, pressM: Key)
  /** vt03_ctrl_t; `keys` in the order w, s, a, d, shift, ctrl, q, e, r, f, g, z, x, c, v, b. */
  datatype Ctrl = Ctrl(rc: Rc, mouse: Mouse, keys: seq<Key>)

  /** The value-initialised `_vt03_ctrl{}`: zero channels, the zero gear, every key KEY_INIT. */
  function Initial(): (c: Ctrl)
    ensures c.rc.chRx == 0 && c.rc.chRy == 0 && c.rc.chLx == 0 && c.rc.chLy == 0 && c.rc.wheel == 0
    ensures c.rc.gear == Gear(0, GearNone, 0)
    ensures c.rc.fnL == KEY_INIT && c.rc.fnR == KEY_INIT && c.rc.pause == KEY_INIT && c.rc.trigger == KEY_INIT
    ensures c.mouse.x == 0 && c.mouse.y == 0 && c.mouse.z == 0
    ensures c.mouse.pressL == KEY_INIT && c.mouse.pressR == KEY_INIT && c.mouse.pressM == KEY_INIT
    ensures |c.keys| == KEY_COUNT && forall i :: 0 <= i < |c.keys| ==> c.keys[i] == KEY_INIT
  {
    Ctrl(Rc(0, 0, 0, 0, 0, Gear(0, GearNone, 0), KEY_INIT, KEY_INIT, KEY_INIT, KEY_INIT),
         Mouse(0, 0, 0, KEY_INIT, KEY_INIT, KEY_INIT), seq(KEY_COUNT, _ => KEY_INIT))
  }


  function NextKeys(keys: seq<Key>, code: bv16, now: int): (r: seq<Key>)
    ensures |r| == |keys|
  {
    seq(|keys|, i requires 0 <= i < |keys| => KeyStep(keys[i], KeyBit(code, i), now))
  }

  function NextRc(rc: Rc, f: Buf, now: int): Rc
  {
    Rc(f.word.ch0 as int - CH_OFFSET, f.word.ch1 as int - CH_OFFSET, f.word.ch2 as int - CH_OFFSET,
       f.word.ch3 as int - CH_OFFSET, f.word.wheel as int - CH_OFFSET,
       CheckGear(rc.gear, f.word.gear, now), KeyStep(rc.fnL, f.word.fnL, now), KeyStep(rc.fnR, f.word.fnR, now),
       KeyStep(rc.pause, f.word.pause, now), KeyStep(rc.trigger, f.word.trigger, now))
  }

  function NextMouse(m: Mouse, f: Buf, now: int): Mouse
  {
    Mouse(Int16(f.mouseX), Int16(f.mouseY), Int16(f.mouseZ),
          KeyStep(m.pressL, f.press.l, now), KeyStep(m.pressR, f.press.r, now), KeyStep(m.pressM, f.press.m, now))
  }

  /** unpack: the decoded state after one 21-byte frame handled at time `now`. */
  function Decode(c: Checksums, s: Ctrl, b: seq<byte>, now: nat): Ctrl
  {
    if |b| != FRAME_LEN || !ErrorCheck(c, b) then s
    else
      Update(s, Parse(b), now)
  }

  /** The decoded state after the fields of one accepted frame. */
  function Update(s: Ctrl, f: Buf, now: nat): Ctrl
  {
    Ctrl(NextRc(s.rc, f, now), NextMouse(s.mouse, f, now), NextKeys(s.keys, f.keyCode, now))
  }

  /** The decoder with its checksum bound, as the worker loop takes it. */
  function Decoder(c: Checksums): (Ctrl, seq<byte>, nat) -> Ctrl
  {
    (s: Ctrl, b: seq<byte>, now: nat) => Decode(c, s, b, now)
  }

  /** A frame with a bad CRC or a channel out of range changes nothing. */
  lemma RejectedFrameChangesNothing(c: Checksums, s: Ctrl, b: seq<byte>, now: nat)
    requires |b| == FRAME_LEN && !ErrorCheck(c, b)
    ensures Decode(c, s, b, now) == s
  {
  }

  /**
    For an accepted frame: the channels are centred and within [-660, 660];
    the gear runs the switch classifier; fn_l, fn_r, pause, trigger, the
    three mouse buttons and keyboard key i (from bit i of key_code) each
    run the key machine at the frame's time.
  */
  lemma {:induction false} AcceptedFrameMapping(c: Checksums, s: Ctrl, b: seq<byte>, now: nat)
    requires |b| == FRAME_LEN && ErrorCheck(c, b)
    ensures var r := Decode(c, s, b, now);
            var f := Parse(b);
            && r.rc.chRx == f.word.ch0 as int - 1024 && -660 <= r.rc.chRx <= 660
            && r.rc.chRy == f.word.ch1 as int - 1024 && -660 <= r.rc.chRy <= 660
            && r.rc.chLx == f.word.ch2 as int - 1024 && -660 <= r.rc.chLx <= 660
            && r.rc.chLy == f.word.ch3 as int - 1024 && -660 <= r.rc.chLy <= 660
            && r.rc.wheel == f.word.wheel as int - 1024 && -660 <= r.rc.wheel <= 660
            && r.rc.gear == CheckGear(s.rc.gear, f.word.gear, now)
    ensures var r := Decode(c, s, b, now);
            var f := Parse(b);
            && r.rc.fnL == KeyStep(s.rc.fnL, f.word.fnL, now)
            && r.rc.fnR == KeyStep(s.rc.fnR, f.word.fnR, now)
            && r.rc.pause == KeyStep(s.rc.pause, f.word.pause, now)
            && r.rc.trigger == KeyStep(s.rc.trigger, f.word.trigger, now)
    ensures var r := Decode(c, s, b, now);
            var f := Parse(b);
            && r.mouse.x == Int16(f.mouseX) && r.mouse.y == Int16(f.mouseY) && r.mouse.z == Int16(f.mouseZ)
            && r.mouse.pressL == KeyStep(s.mouse.pressL, f.press.l, now)
            && r.mouse.pressR == KeyStep(s.mouse.pressR, f.press.r, now)
            && r.mouse.pressM == KeyStep(s.mouse.pressM, f.press.m, now)
    ensures var r := Decode(c, s, b, now);
            var f := Parse(b);
            && |r.keys| == |s.keys|
            && forall i :: 0 <= i < |s.keys| && i < 16 ==> r.keys[i] == KeyStep(s.keys[i], KeyBit(f.keyCode, i), now)
  {
  }

  function Run(c: Checksums, live: bool, s: Ctrl, q: seq<Event>): (bool, Ctrl)
  {
    Serve(FRAME_LEN, Decoder(c), live, s, q)
  }

  /** The driver object. */
  class Driver {
    const arb: Arbiter
    const crc: Checksums
    var rc: Rc
    var mouse: Mouse
    const keys: array<Key>

    ghost predicate Valid()
      reads this, arb
    {
      keys.Length == KEY_COUNT && arb.Valid()
    }

    function Model(): Ctrl
      reads this, keys
    {
      Ctrl(rc, mouse, keys[..])
    }

    function Online(): bool
      reads this, arb
    {
      Bit(arb.sequence, VT03_PRIORITY)
    }

    /** vt03_drv_t(uart): reset the shared mask and start from `_vt03_ctrl{}`. */
    constructor (shared: Arbiter, c: Checksums)
      modifies shared
      ensures Valid() && arb == shared && crc == c && fresh(keys)
      ensures shared.sequence == SEQUENCE_RESET && !Online()
      ensures Model() == Initial()
    {
      arb := shared;
      crc := c;
      var init := Initial();
      rc := init.rc;
      mouse := init.mouse;
      keys := new Key[KEY_COUNT](_ => KEY_INIT);
      new;
      shared.Reset();
      assert keys[..] == init.keys;
    }

    method Disable()
      requires Valid()
      modifies arb
      ensures Valid() && arb.sequence == ClearBit(old(arb.sequence), VT03_PRIORITY)
    {
      arb.Drop(VT03_PRIORITY);
    }

    /** rc_callback: a well-headed 21-byte frame is always admitted (ctz >= 0). */
    method Callback(buf: seq<byte>) returns (accepted: bool)
      requires Valid()
      ensures accepted <==> HeaderOk(buf)
    {
      accepted := false;
      if |buf| == FRAME_LEN && buf[0] == SOF1 && buf[1] == SOF2 {
        accepted := arb.TryAdmit(VT03_PRIORITY);
      }
    }

    /** The keyboard part of unpack: key i runs one sample of bit i of key_code. */
    method StepKeys(code: bv16, now: nat)
      requires keys.Length == KEY_COUNT
      modifies keys
      ensures keys[..] == NextKeys(old(keys[..]), code, now)
    {
      ghost var before := keys[..];
      for i := 0 to 16
        invariant forall j :: i <= j < KEY_COUNT ==> keys[j] == before[j]
        invariant forall j :: 0 <= j < i ==> keys[j] == KeyStep(before[j], KeyBit(code, j), now)
      {
        var k := CheckKey(keys[i], KeyBit(code, i), now);
        keys[i] := k;
      }
    }

    /** unpack: decode one 21-byte frame in place at time `now`. */
    method Unpack(b: seq<byte>, now: nat)
      requires Valid() && |b| == FRAME_LEN
      modifies this, keys
      ensures Valid() && Model() == Decode(crc, old(Model()), b, now)
    {
      if ErrorCheck(crc, b) {
        var f := Parse(b);
        Apply(f, now);
      }
    }

    /** The body of unpack once the frame is accepted: every channel, key and button updated. */
    method Apply(f: Buf, now: nat)
      requires Valid()
      modifies this, keys
      ensures Valid() && Model() == Update(old(Model()), f, now)
    {
      StepKeys(f.keyCode, now);
      StepRc(f, now);
      StepMouse(f, now);
    }

    /** The remote-control part of unpack: channels, gear switch and the four keys. */
    method StepRc(f: Buf, now: nat)
      modifies this
      ensures rc == NextRc(old(rc), f, now) && mouse == old(mouse)
    {
      var fnL := CheckKey(rc.fnL, f.word.fnL, now);
      var fnR := CheckKey(rc.fnR, f.word.fnR, now);
      var pause := CheckKey(rc.pause, f.word.pause, now);
      var trigger := CheckKey(rc.trigger, f.word.trigger, now);
      rc := Rc(f.word.ch0 as int - CH_OFFSET, f.word.ch1 as int - CH_OFFSET, f.word.ch2 as int - CH_OFFSET,
               f.word.ch3 as int - CH_OFFSET, f.word.wheel as int - CH_OFFSET,
               CheckGear(rc.gear, f.word.gear, now), fnL, fnR, pause, trigger);
    }

    /** The mouse part of unpack: the three axes and the three buttons. */
    method StepMouse(f: Buf, now: nat)
      modifies this
      ensures mouse == NextMouse(old(mouse), f, now) && rc == old(rc)
    {
      var pl := CheckKey(mouse.pressL, f.press.l, now);
      var pr := CheckKey(mouse.pressR, f.press.r, now);
      var pm := CheckKey(mouse.pressM, f.press.m, now);
      mouse := Mouse(Int16(f.mouseX), Int16(f.mouseY), Int16(f.mouseZ), pl, pr, pm);
    }

    /** thread: as for DR16, with 21-byte frames and bit 0. */
    method Thread(q: seq<Event>) returns (rest: seq<Event>)
      requires Valid() && !Online()
      modifies this, keys, arb
      ensures Valid()
      ensures forall j :: 0 <= j < 8 && j != VT03_PRIORITY ==> (Bit(arb.sequence, j) <==> Bit(old(arb.sequence), j))
      ensures |rest| <= |q| && rest == q[|q| - |rest|..]
      ensures q != [] ==> |rest| < |q|
      ensures rest != [] ==> !Online()
      ensures Run(crc, false, old(Model()), q) == Run(crc, Online(), Model(), rest)
    {
      rest := q;
      while rest != [] && Received(rest[0]) == 0
        invariant |rest| <= |q| && rest == q[|q| - |rest|..]
        invariant Model() == old(Model()) && arb.sequence == old(arb.sequence)
        invariant Run(crc, false, old(Model()), q) == Run(crc, false, Model(), rest)
      {
        rest := rest[1..];
      }
      if rest != [] {
        var e := rest[0];
        rest := rest[1..];
        if Received(e) == FRAME_LEN {
          arb.Raise(VT03_PRIORITY);
        }
        rest := Decoding(rest);
      }
    }

    /**
      The second phase of thread: while the link is live, decode every
      full-sized frame; a receive that times out clears the bit and ends it.
    */
    method Decoding(q: seq<Event>) returns (rest: seq<Event>)
      requires Valid()
      modifies this, keys, arb
      ensures Valid()
      ensures forall j :: 0 <= j < 8 && j != VT03_PRIORITY ==> (Bit(arb.sequence, j) <==> Bit(old(arb.sequence), j))
      ensures |rest| <= |q| && rest == q[|q| - |rest|..]
      ensures rest != [] ==> !Online()
      ensures Run(crc, old(Online()), old(Model()), q) == Run(crc, Online(), Model(), rest)
    {
      rest := q;
      while Online() && rest != []
        invariant Valid()
        invariant forall j :: 0 <= j < 8 && j != VT03_PRIORITY ==> (Bit(arb.sequence, j) <==> Bit(old(arb.sequence), j))
        invariant |rest| <= |q| && rest == q[|q| - |rest|..]
        invariant Run(crc, old(Online()), old(Model()), q) == Run(crc, Online(), Model(), rest)
        decreases |rest|
      {
        Handle(rest[0]);
        rest := rest[1..];
      }
    }

    /** One receive of the live phase: decode a full-sized frame, or go offline on a timeout. */
    method Handle(e: Event)
      requires Valid() && Online()
      modifies this, keys, arb
      ensures Valid()
      ensures forall j :: 0 <= j < 8 && j != VT03_PRIORITY ==> (Bit(arb.sequence, j) <==> Bit(old(arb.sequence), j))
      ensures (Online(), Model()) == Step(FRAME_LEN, Decoder(crc), true, old(Model()), e)
    {
      if e.Frame? && |e.bytes| == FRAME_LEN {
        Unpack(e.bytes, e.at);
      } else if Received(e) == 0 {
        arb.Drop(VT03_PRIORITY);
      }
    }

    /** vt03_task: call thread for as long as there are events. */
    method Task(q: seq<Event>)
      requires Valid() && !Online()
      modifies this, keys, arb
      ensures Valid()
      ensures (Online(), Model()) == Run(crc, false, old(Model()), q)
    {
      var rest := q;
      while rest != []
        invariant Valid()
        invariant rest != [] ==> !Online()
        invariant Run(crc, false, old(Model()), q) == Run(crc, Online(), Model(), rest)
        decreases |rest|
      {
        rest := Thread(rest);
      }
    }
  }
}

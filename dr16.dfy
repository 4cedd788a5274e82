/**
  The DJI DR16 receiver driver (pyro_dr16_rc_drv.h / .cpp), priority 1.

  An 18-byte frame carries four 11-bit stick channels and two 2-bit
  switches packed least-significant-bit first into its first six bytes,
  then three int16 mouse axes, two mouse-button bytes, a 16-bit key bitmap
  and the 11-bit wheel. A frame whose channels or wheel are out of range is
  ignored; otherwise the channels are centred, switches are classified by
  transition and every button runs the tick-counting key machine.
  The float scaling of channels (/660) and mouse axes (/32768) is dropped:
  the model keeps the centred integer and the signed raw value.
*/
module Dr16 {
  import opened Wire
  import opened RcBase
  import opened Link

  const FRAME_LEN: nat := 18
  const CH_MIN: bv16 := 364
  const CH_MAX: bv16 := 1684
  const CH_OFFSET: int := 1024
  const KEY_COUNT: nat := 16

  /** dr16_buf_t, field by field, as the raw unsigned patterns. */
  datatype Buf = Buf(ch0: bv16, ch1: bv16, ch2: bv16, ch3: bv16, s1: bv8, s2: bv8,
                     mouseX: bv16, mouseY: bv16, mouseZ: bv16,
                     pressL: byte, pressR: byte, keyCode: bv16, wheel: bv16)

  /** Every bitfield holds no more bits than its declared width. */
  predicate FitsLayout(f: Buf)
  {
    f.ch0 < 0x800 && f.ch1 < 0x800 && f.ch2 < 0x800 && f.ch3 < 0x800 && f.s1 < 4 && f.s2 < 4
  }

  /** The 48 bits holding ch0..ch3, s1, s2 (bits 0-10, 11-21, 22-32, 33-43, 44-45, 46-47). */
  function HeadBits(f: Buf): bv64
  {
    (f.ch0 as bv64) | ((f.ch1 as bv64) << 11) | ((f.ch2 as bv64) << 22) | ((f.ch3 as bv64) << 33)
    | ((f.s1 as bv64) << 44) | ((f.s2 as bv64) << 46)
  }

  /** Reading the packed frame: bitfields LSB first, then little-endian words. */
  function Parse(b: seq<byte>): (f: Buf)
    requires |b| == FRAME_LEN
    ensures FitsLayout(f)
  {
    var v := Load48(b[..6]);
    Buf(((v >> 0) & 0x7FF) as bv16, ((v >> 11) & 0x7FF) as bv16, ((v >> 22) & 0x7FF) as bv16,
        ((v >> 33) & 0x7FF) as bv16, ((v >> 44) & 3) as bv8, ((v >> 46) & 3) as bv8,
        Le16(b[6], b[7]), Le16(b[8], b[9]), Le16(b[10], b[11]),
        b[12], b[13], Le16(b[14], b[15]), Le16(b[16], b[17]))
  }

  /** The bytes a transmitter sends for the given field values. */
  function Pack(f: Buf): (b: seq<byte>)
    requires FitsLayout(f)
    ensures |b| == FRAME_LEN
  {
    HeadBitsBound(f);
    Store48(HeadBits(f)) + PackTail(f)
  }

  /** The twelve bytes after the packed head: the mouse axes, the buttons, the key bitmap and the wheel. */
  function PackTail(f: Buf): (b: seq<byte>)
    ensures |b| == FRAME_LEN - 6
  {
    ToLe16(f.mouseX) + ToLe16(f.mouseY) + ToLe16(f.mouseZ) + [f.pressL, f.pressR] + ToLe16(f.keyCode) + ToLe16(f.wheel)
  }

  /** The packed head fits in 48 bits and each field reads back from its offset. */
  lemma HeadBitsBound(f: Buf)
    requires FitsLayout(f)
    ensures HeadBits(f) < 0x1_0000_0000_0000
    ensures ((HeadBits(f) >> 0) & 0x7FF) as bv16 == f.ch0
    ensures ((HeadBits(f) >> 11) & 0x7FF) as bv16 == f.ch1
    ensures ((HeadBits(f) >> 22) & 0x7FF) as bv16 == f.ch2
    ensures ((HeadBits(f) >> 33) & 0x7FF) as bv16 == f.ch3
    ensures ((HeadBits(f) >> 44) & 3) as bv8 == f.s1
    ensures ((HeadBits(f) >> 46) & 3) as bv8 == f.s2
  {
  }

  /** Re-packing the fields read from 48 bits gives the bits back. */
  lemma HeadBitsOfFields(v: bv64)
    requires v < 0x1_0000_0000_0000
    ensures HeadBits(Buf(((v >> 0) & 0x7FF) as bv16, ((v >> 11) & 0x7FF) as bv16, ((v >> 22) & 0x7FF) as bv16,
                         ((v >> 33) & 0x7FF) as bv16, ((v >> 44) & 3) as bv8, ((v >> 46) & 3) as bv8,
                         0, 0, 0, 0, 0, 0, 0)) == v
  {
  }

  /** Decoding what was packed gives the fields back. */
  lemma {:induction false} ParsePack(f: Buf)
    requires FitsLayout(f)
    ensures Parse(Pack(f)) == f
  {
    HeadBitsBound(f);
    var b := Pack(f);
    assert b[..6] == Store48(HeadBits(f));
    Le16RoundTrip(b[6], b[7]);
  }

  /** The six head bytes of a frame are the packing of the bitfields they decode to. */
  lemma {:induction false} HeadPackParse(b: seq<byte>)
    requires |b| == FRAME_LEN
    ensures FitsLayout(Parse(b)) && Store48(HeadBits(Parse(b))) == b[..6]
  {
    var v := Load48(b[..6]);
    HeadBitsOfFields(v);
    assert HeadBits(Parse(b)) == v;
    Load48RoundTrip(b[..6]);
  }

  /** The twelve bytes after the head are the packing of the words and buttons they decode to. */
  lemma {:induction false} TailPackParse(b: seq<byte>)
    requires |b| == FRAME_LEN
    ensures PackTail(Parse(b)) == b[6..]
  {
    Le16RoundTrip(b[6], b[7]);
    Le16RoundTrip(b[8], b[9]);
    Le16RoundTrip(b[10], b[11]);
    Le16RoundTrip(b[14], b[15]);
    Le16RoundTrip(b[16], b[17]);
  }

  /** Every 18-byte frame is the packing of the fields it decodes to. */
  lemma {:induction false} PackParse(b: seq<byte>)
    requires |b| == FRAME_LEN
    ensures Pack(Parse(b)) == b
  {
    HeadPackParse(b);
    TailPackParse(b);
    assert b == b[..6] + b[6..];
  }

  predicate InRange(v: bv16)
  {
    CH_MIN <= v <= CH_MAX
  }

  /** error_check: the four stick channels and the wheel lie in [364, 1684]. */
  predicate ErrorCheck(f: Buf)
  {
    InRange(f.ch0) && InRange(f.ch1) && InRange(f.ch2) && InRange(f.ch3) && InRange(f.wheel)
  }

  // ----- switches -----

  const SW_UP: bv8 := 1
  const SW_MID: bv8 := 3
  const SW_DOWN: bv8 := 2

  /** sw_ctrl_t; `Code` is the enumerator value. */
  datatype SwCtrl = NoChange | UpToMid | MidToDown | DownToMid | MidToUp
  {
    function Code(): nat
    {
      match this
      case NoChange => 0
      case UpToMid => 1
      case MidToDown => 2
      case DownToMid => 3
      case MidToUp => 4
    }
  }

  /** switch_t: the raw position (sw_state_t cast from 2 bits) and the last transition. */
  datatype Switch = Switch(state: bv8, ctrl: SwCtrl)

  /** check_ctrl(switch_t&): classify the move from the stored position to `raw`. */
  function CheckSwitch(sw: Switch, raw: bv8): (r: Switch)
    ensures r.state == raw
  {
    var ctrl :=
      if sw.state == SW_UP && raw == SW_MID then UpToMid
      else if sw.state == SW_MID && raw == SW_DOWN then MidToDown
      else if sw.state == SW_DOWN && raw == SW_MID then DownToMid
      else if sw.state == SW_MID && raw == SW_UP then MidToUp
      else NoChange;
    Switch(raw, ctrl)
  }

  /** Physical order of the three named positions: up, middle, down. */
  predicate Named(state: bv8)
  {
    state == SW_UP || state == SW_MID || state == SW_DOWN
  }

  function Position(state: bv8): int
    requires Named(state)
  {
    if state == SW_UP then 0 else if state == SW_MID then 1 else 2
  }

  /**
    A transition is reported exactly for a move between two neighbouring
    named positions; it names towards/away from the middle correctly. No move
    (including an unnamed raw 0) and the direct jump between the ends are
    reported as NoChange.
  */
  lemma {:induction false} SwitchReportsNeighbourMoves(sw: Switch, raw: bv8)
    ensures var r := CheckSwitch(sw, raw);
            r.ctrl != NoChange <==>
              Named(sw.state) && Named(raw) && (Position(sw.state) - Position(raw) == 1 || Position(raw) - Position(sw.state) == 1)
    ensures var r := CheckSwitch(sw, raw);
            (r.ctrl == UpToMid || r.ctrl == DownToMid) <==> r.ctrl != NoChange && raw == SW_MID
  {
  }

  // ----- keys -----

  /** key_ctrl_t; `Code` is the enumerator value. */
  datatype KeyCtrl = Released | Pressed | Hold
  {
    function Code(): nat
    {
      match this
      case Released => 0
      case Pressed => 1
      case Hold => 2
    }
  }

  /** key_t: the reported state and the uint32 tick counter. */
  datatype Key = Key(ctrl: KeyCtrl, time: bv32)

  const KEY_IDLE := Key(Released, 0)

  /** check_ctrl(key_t&): one frame of the tick-counting key machine. */
  function CheckKey(k: Key, raw: bv8): Key
  {
    if raw == 1 && k.ctrl == Released then
      var t := k.time + 14;
      Key(if t > 40 then Pressed else Released, t)
    else if raw == 1 && k.ctrl == Pressed then
      var t := k.time + 14;
      if t > 160 then Key(Hold, 0) else Key(Released, t)
    else
      KEY_IDLE
  }

  /** The key states the machine can reach from {RELEASED, 0}. */
  predicate KeyReachable(k: Key)
  {
    match k.ctrl
    case Released => k.time <= 160
    case Pressed => 40 < k.time <= 174
    case Hold => k.time == 0
  }

  /**
    The reachable states are closed under every frame, so the uint32 counter
    never wraps: each step adds exactly 14 ticks or restarts.
  */
  lemma KeyStaysReachable(k: Key, raw: bv8)
    requires KeyReachable(k)
    ensures KeyReachable(CheckKey(k, raw))
    ensures var r := CheckKey(k, raw);
            r.time == 0 || (r.time as nat == k.time as nat + 14 && k.ctrl != Hold)
  {
  }

  /**
    A key reports PRESSED only on a raw press after a RELEASED frame, once
    more than 40 ticks have accumulated; HOLD only from PRESSED past 160
    ticks; and anything other than a raw press, or a press while in HOLD,
    returns the key to {RELEASED, 0}.
  */
  lemma KeyTransitions(k: Key, raw: bv8)
    requires KeyReachable(k)
    ensures CheckKey(k, raw).ctrl == Pressed <==> raw == 1 && k.ctrl == Released && k.time as nat + 14 > 40
    ensures CheckKey(k, raw).ctrl == Hold <==> raw == 1 && k.ctrl == Pressed && k.time as nat + 14 > 160
    ensures raw != 1 || k.ctrl == Hold ==> CheckKey(k, raw) == KEY_IDLE
  {
  }

  /** The state of a key held down for n frames from state k. */
  function Held(k: Key, n: nat): Key
    decreases n
  {
    if n == 0 then k else Held(CheckKey(k, 1), n - 1)
  }

  /** One more held frame appends one CheckKey step at the end. */
  lemma {:induction false} HeldSnoc(k: Key, n: nat)
    ensures Held(k, n + 1) == CheckKey(Held(k, n), 1)
    decreases n
  {
    if n > 0 {
      HeldSnoc(CheckKey(k, 1), n - 1);
    }
  }

  /**
    A key held down cycles with period 13 frames: PRESSED is reported on
    frames 3, 5, 7, 9 and 11, RELEASED on frames 1, 2, 4, 6, 8 and 10,
    HOLD on frame 12, and frame 13 is back at {RELEASED, 0}.
  */
  lemma {:induction false} HeldKeyCycle()
    ensures Held(KEY_IDLE, 1).ctrl == Released && Held(KEY_IDLE, 2).ctrl == Released
    ensures Held(KEY_IDLE, 3).ctrl == Pressed && Held(KEY_IDLE, 4).ctrl == Released
    ensures Held(KEY_IDLE, 5).ctrl == Pressed && Held(KEY_IDLE, 6).ctrl == Released
    ensures Held(KEY_IDLE, 7).ctrl == Pressed && Held(KEY_IDLE, 8).ctrl == Released
    ensures Held(KEY_IDLE, 9).ctrl == Pressed && Held(KEY_IDLE, 10).ctrl == Released
    ensures Held(KEY_IDLE, 11).ctrl == Pressed
    ensures Held(KEY_IDLE, 12) == Key(Hold, 0) && Held(KEY_IDLE, 13) == KEY_IDLE
  {
    HeldSnoc(KEY_IDLE, 0);
    assert Held(KEY_IDLE, 1) == Key(Released, 14);
    HeldSnoc(KEY_IDLE, 1);
    assert Held(KEY_IDLE, 2) == Key(Released, 28);
    HeldSnoc(KEY_IDLE, 2);
    assert Held(KEY_IDLE, 3) == Key(Pressed, 42);
    HeldSnoc(KEY_IDLE, 3);
    assert Held(KEY_IDLE, 4) == Key(Released, 56);
    HeldSnoc(KEY_IDLE, 4);
    assert Held(KEY_IDLE, 5) == Key(Pressed, 70);
    HeldSnoc(KEY_IDLE, 5);
    assert Held(KEY_IDLE, 6) == Key(Released, 84);
    HeldSnoc(KEY_IDLE, 6);
    assert Held(KEY_IDLE, 7) == Key(Pressed, 98);
    HeldSnoc(KEY_IDLE, 7);
    assert Held(KEY_IDLE, 8) == Key(Released, 112);
    HeldSnoc(KEY_IDLE, 8);
    assert Held(KEY_IDLE, 9) == Key(Pressed, 126);
    HeldSnoc(KEY_IDLE, 9);
    assert Held(KEY_IDLE, 10) == Key(Released, 140);
    HeldSnoc(KEY_IDLE, 10);
    assert Held(KEY_IDLE, 11) == Key(Pressed, 154);
    HeldSnoc(KEY_IDLE, 11);
    assert Held(KEY_IDLE, 12) == Key(Hold, 0);
    HeldSnoc(KEY_IDLE, 12);
  }

  // ----- decoded state -----

  /** The stick part of dr16_ctrl_t; channels centred on 1024. */
  datatype Rc = Rc(chRx: int, chRy: int, chLx: int, chLy: int, wheel: int, sL: Switch, sR: Switch)
  /** The mouse part of dr16_ctrl_t; axes as signed raw values. */
  datatype Mouse = Mouse(x: int, y: int, z: int, pressL: Key, pressR: Key)
  /** dr16_ctrl_t; `keys` in the order w, s, a, d, shift, ctrl, q, e, r, f, g, z, x, c, v, b. */
  datatype Ctrl = Ctrl(rc: Rc, mouse: Mouse, keys: seq<Key>)

  /**
    The value-initialised `_dr16_ctrl{}`: every float is 0.0 (a centred
    channel), every switch is {0, NoChange}, every key {RELEASED, 0}.
  */
  function Initial(): (c: Ctrl)
    ensures c.rc.chRx == 0 && c.rc.chRy == 0 && c.rc.chLx == 0 && c.rc.chLy == 0 && c.rc.wheel == 0
    ensures c.rc.sL == Switch(0, NoChange) && c.rc.sR == Switch(0, NoChange)
    ensures c.mouse.x == 0 && c.mouse.y == 0 && c.mouse.z == 0
    ensures c.mouse.pressL == KEY_IDLE && c.mouse.pressR == KEY_IDLE
    ensures |c.keys| == KEY_COUNT && forall i :: 0 <= i < |c.keys| ==> c.keys[i] == KEY_IDLE
  {
    Ctrl(Rc(0, 0, 0, 0, 0, Switch(0, NoChange), Switch(0, NoChange)),
         Mouse(0, 0, 0, KEY_IDLE, KEY_IDLE), seq(KEY_COUNT, _ => KEY_IDLE))
  }


  /** The key bitmap applied to every keyboard key. */
  function NextKeys(keys: seq<Key>, code: bv16): (r: seq<Key>)
    ensures |r| == |keys|
  {
    seq(|keys|, i requires 0 <= i < |keys| => CheckKey(keys[i], KeyBit(code, i)))
  }

  /** The channel and switch part of unpack, for a frame that passed error_check. */
  function NextRc(rc: Rc, f: Buf): Rc
  {
    Rc(f.ch0 as int - CH_OFFSET, f.ch1 as int - CH_OFFSET, f.ch2 as int - CH_OFFSET,
       f.ch3 as int - CH_OFFSET, f.wheel as int - CH_OFFSET,
       CheckSwitch(rc.sL, f.s2), CheckSwitch(rc.sR, f.s1))
  }

  function NextMouse(m: Mouse, f: Buf): Mouse
  {
    Mouse(Int16(f.mouseX), Int16(f.mouseY), Int16(f.mouseZ), CheckKey(m.pressL, f.pressL), CheckKey(m.pressR, f.pressR))
  }

  /** unpack: the decoded state after one received 18-byte frame (the time is not used). */
  function Decode(c: Ctrl, b: seq<byte>, at: nat): Ctrl
  {
    if |b| != FRAME_LEN || !ErrorCheck(Parse(b)) then c
    else
      var f := Parse(b);
      Ctrl(NextRc(c.rc, f), NextMouse(c.mouse, f), NextKeys(c.keys, f.keyCode))
  }

  /** A frame that fails error_check leaves every part of the decoded state alone. */
  lemma RejectedFrameChangesNothing(c: Ctrl, b: seq<byte>, at: nat)
    requires |b| == FRAME_LEN && !ErrorCheck(Parse(b))
    ensures Decode(c, b, at) == c
  {
  }

  /**
    For an accepted frame: channels are the raw values minus 1024 and lie in
    [-660, 660]; s1 drives the right switch and s2 the left one; the mouse
    buttons run the key machine on their own bytes; keyboard key i runs it on
    bit i of key_code.
  */
  lemma {:induction false} AcceptedFrameMapping(c: Ctrl, f: Buf, at: nat)
    requires FitsLayout(f) && ErrorCheck(f)
    ensures var r := Decode(c, Pack(f), at);
            && r.rc.chRx == f.ch0 as int - 1024 && r.rc.chRy == f.ch1 as int - 1024
            && r.rc.chLx == f.ch2 as int - 1024 && r.rc.chLy == f.ch3 as int - 1024
            && r.rc.wheel == f.wheel as int - 1024
            && -660 <= r.rc.chRx <= 660 && -660 <= r.rc.wheel <= 660
            && r.rc.sR == CheckSwitch(c.rc.sR, f.s1) && r.rc.sL == CheckSwitch(c.rc.sL, f.s2)
            && r.mouse.x == Int16(f.mouseX)
            && r.mouse.pressL == CheckKey(c.mouse.pressL, f.pressL)
            && r.mouse.pressR == CheckKey(c.mouse.pressR, f.pressR)
            && |r.keys| == |c.keys|
            && forall i :: 0 <= i < |c.keys| && i < 16 ==> r.keys[i] == CheckKey(c.keys[i], KeyBit(f.keyCode, i))
  {
    ParsePack(f);
  }

  /** The worker loop of this driver: 18-byte receives, decoded by `Decode`. */
  function Run(live: bool, c: Ctrl, q: seq<Event>): (bool, Ctrl)
  {
    Serve(FRAME_LEN, Decode, live, c, q)
  }

  /** The driver object: its decoded state and its handle on the shared mask. */
  class Driver {
    const arb: Arbiter
    var rc: Rc
    var mouse: Mouse
    /** The 16 keyboard keys, updated in place by unpack's loop. */
    const keys: array<Key>

    ghost predicate Valid()
      reads this, arb
    {
      keys.Length == KEY_COUNT && arb.Valid()
    }

    /** The decoded state `_dr16_ctrl`. */
    function Model(): Ctrl
      reads this, keys
    {
      Ctrl(rc, mouse, keys[..])
    }

    /** check_online for priority 1. */
    function Online(): bool
      reads this, arb
    {
      Bit(arb.sequence, DR16_PRIORITY)
    }

    /** dr16_drv_t(uart): reset the shared mask and start from `_dr16_ctrl{}`. */
    constructor (shared: Arbiter)
      modifies shared
      ensures Valid() && arb == shared && fresh(keys)
      ensures shared.sequence == SEQUENCE_RESET && !Online()
      ensures Model() == Initial()
    {
      arb := shared;
      var init := Initial();
      rc := init.rc;
      mouse := init.mouse;
      keys := new Key[KEY_COUNT](_ => KEY_IDLE);
      new;
      shared.Reset();
      assert keys[..] == init.keys;
    }

    /** disable: clear bit 1 of the shared mask. */
    method Disable()
      requires Valid()
      modifies arb
      ensures Valid() && arb.sequence == ClearBit(old(arb.sequence), DR16_PRIORITY)
    {
      arb.Drop(DR16_PRIORITY);
    }

    /** rc_callback: an 18-byte frame is enqueued iff the mask admits priority 1. */
    method Callback(buf: seq<byte>) returns (accepted: bool)
      requires Valid()
      ensures accepted <==> |buf| == FRAME_LEN && !Bit(arb.sequence, VT03_PRIORITY)
    {
      accepted := false;
      if |buf| == FRAME_LEN {
        accepted := arb.TryAdmit(DR16_PRIORITY);
      }
    }

    /** unpack: decode one 18-byte frame in place. */
    method Unpack(b: seq<byte>, at: nat)
      requires Valid() && |b| == FRAME_LEN
      modifies this, keys
      ensures Valid() && Model() == Decode(old(Model()), b, at)
    {
      var f := Parse(b);
      if ErrorCheck(f) {
        ghost var before := keys[..];
        for i := 0 to 16
          invariant keys.Length == KEY_COUNT && rc == old(rc) && mouse == old(mouse)
          invariant forall j :: i <= j < KEY_COUNT ==> keys[j] == before[j]
          invariant forall j :: 0 <= j < i ==> keys[j] == CheckKey(before[j], KeyBit(f.keyCode, j))
        {
          keys[i] := CheckKey(keys[i], KeyBit(f.keyCode, i));
        }
        assert keys[..] == NextKeys(before, f.keyCode);
        rc := NextRc(rc, f);
        mouse := NextMouse(mouse, f);
      }
    }

    /**
      thread: wait without a time limit for one whole frame and raise bit 1
      without decoding it, then decode frames until a receive times out,
      which clears bit 1. Returns the events it did not consume.
    */
    method Thread(q: seq<Event>) returns (rest: seq<Event>)
      requires Valid() && !Online()
      modifies this, keys, arb
      ensures Valid()
      ensures forall j :: 0 <= j < 8 && j != DR16_PRIORITY ==> (Bit(arb.sequence, j) <==> Bit(old(arb.sequence), j))
      ensures |rest| <= |q| && rest == q[|q| - |rest|..]
      ensures q != [] ==> |rest| < |q|
      ensures rest != [] ==> !Online()
      ensures Run(false, old(Model()), q) == Run(Online(), Model(), rest)
    {
      rest := q;
      while rest != [] && Received(rest[0]) == 0
        invariant |rest| <= |q| && rest == q[|q| - |rest|..]
        invariant Model() == old(Model()) && arb.sequence == old(arb.sequence)
        invariant Run(false, old(Model()), q) == Run(false, Model(), rest)
      {
        rest := rest[1..];
      }
      if rest != [] {
        var e := rest[0];
        rest := rest[1..];
        if Received(e) == FRAME_LEN {
          arb.Raise(DR16_PRIORITY);
        }
        rest := Decoding(rest);
      }
    }

    /**
      The second phase of thread: while the link is live, decode every
      full-sized frame; a receive that times out clears the bit and ends it.
    */
    method Decoding(q: seq<Event>) returns (rest: seq<Event>)
      requires Valid()
      modifies this, keys, arb
      ensures Valid()
      ensures forall j :: 0 <= j < 8 && j != DR16_PRIORITY ==> (Bit(arb.sequence, j) <==> Bit(old(arb.sequence), j))
      ensures |rest| <= |q| && rest == q[|q| - |rest|..]
      ensures rest != [] ==> !Online()
      ensures Run(old(Online()), old(Model()), q) == Run(Online(), Model(), rest)
    {
      rest := q;
      while Online() && rest != []
        invariant Valid()
        invariant forall j :: 0 <= j < 8 && j != DR16_PRIORITY ==> (Bit(arb.sequence, j) <==> Bit(old(arb.sequence), j))
        invariant |rest| <= |q| && rest == q[|q| - |rest|..]
        invariant Run(old(Online()), old(Model()), q) == Run(Online(), Model(), rest)
        decreases |rest|
      {
        Handle(rest[0]);
        rest := rest[1..];
      }
    }

    /** One receive of the live phase: decode a full-sized frame, or go offline on a timeout. */
    method Handle(e: Event)
      requires Valid() && Online()
      modifies this, keys, arb
      ensures Valid()
      ensures forall j :: 0 <= j < 8 && j != DR16_PRIORITY ==> (Bit(arb.sequence, j) <==> Bit(old(arb.sequence), j))
      ensures (Online(), Model()) == Step(FRAME_LEN, Decode, true, old(Model()), e)
    {
      if e.Frame? && |e.bytes| == FRAME_LEN {
        Unpack(e.bytes, e.at);
      } else if Received(e) == 0 {
        arb.Drop(DR16_PRIORITY);
      }
    }

    /** dr16_task: call thread for as long as there are events. */
    method Task(q: seq<Event>)
      requires Valid() && !Online()
      modifies this, keys, arb
      ensures Valid()
      ensures (Online(), Model()) == Run(false, old(Model()), q)
    {
      var rest := q;
      while rest != []
        invariant Valid()
        invariant rest != [] ==> !Online()
        invariant Run(false, old(Model()), q) == Run(Online(), Model(), rest)
        decreases |rest|
      {
        rest := Thread(rest);
      }
    }
  }
}

/**
  The interrupt-to-worker hand-off of the fixed-frame serial drivers (DR16,
  VT03, supercap), modelled sequentially.

  The interrupt routine pushes whole frames into a message buffer; the
  worker task blocks on it. Each receive the worker makes returns one
  `Event`: a frame (with the time at which the worker handles it) or a
  timeout, which the driver sees as a receive of 0 bytes.

  Every one of those workers has the same two-phase loop: it blocks without
  a time limit until a full-sized message arrives, marks the link live
  WITHOUT decoding that first message, then decodes every full-sized message
  until a receive with a time limit returns 0 bytes, which marks the link
  offline and returns to the blocking wait. `Serve` is that loop as a fold
  over the events, with the decoder as a parameter.
*/
module Link {
  import opened Wire

  datatype Event = Frame(bytes: seq<byte>, at: nat) | Timeout

  /** The byte count a message-buffer receive returns for this event. */
  function Received(e: Event): nat
  {
    if e.Frame? then |e.bytes| else 0
  }

  /** The worker state after one receive, starting live or waiting. */
  function Step<S>(size: nat, decode: (S, seq<byte>, nat) -> S, live: bool, s: S, e: Event): (r: (bool, S))
  {
    if !live then (Received(e) == size, s)
    else if e.Frame? && |e.bytes| == size then (true, decode(s, e.bytes, e.at))
    else if Received(e) == 0 then (false, s)
    else (true, s)
  }

  /** The worker state after handling every event of q in order. */
  function Serve<S>(size: nat, decode: (S, seq<byte>, nat) -> S, live: bool, s: S, q: seq<Event>): (bool, S)
    decreases |q|
  {
    if q == [] then (live, s)
    else
      var r := Step(size, decode, live, s, q[0]);
      Serve(size, decode, r.0, r.1, q[1..])
  }

  /** Handling q1 and then q2 is handling their concatenation. */
  lemma {:induction false} ServeConcat<S>(size: nat, decode: (S, seq<byte>, nat) -> S, live: bool, s: S,
                                          q1: seq<Event>, q2: seq<Event>)
    ensures var r := Serve(size, decode, live, s, q1);
            Serve(size, decode, live, s, q1 + q2) == Serve(size, decode, r.0, r.1, q2)
    decreases |q1|
  {
    if q1 == [] {
      assert q1 + q2 == q2;
    } else {
      var r := Step(size, decode, live, s, q1[0]);
      assert (q1 + q2)[0] == q1[0];
      assert (q1 + q2)[1..] == q1[1..] + q2;
      ServeConcat(size, decode, r.0, r.1, q1[1..], q2);
    }
  }

  /** One more event is one more step. */
  lemma ServeSnoc<S>(size: nat, decode: (S, seq<byte>, nat) -> S, live: bool, s: S, q: seq<Event>, e: Event)
    ensures var r := Serve(size, decode, live, s, q);
            Serve(size, decode, live, s, q + [e]) == Step(size, decode, r.0, r.1, e)
  {
    ServeConcat(size, decode, live, s, q, [e]);
    var r := Serve(size, decode, live, s, q);
    assert [e][1..] == [];
  }

  /** The first full-sized message after a wait brings the link up and is not decoded. */
  lemma FirstFrameNotDecoded<S>(size: nat, decode: (S, seq<byte>, nat) -> S, s: S, e: Event, q: seq<Event>)
    requires Received(e) == size
    ensures Serve(size, decode, false, s, [e] + q) == Serve(size, decode, true, s, q)
  {
    assert ([e] + q)[1..] == q;
  }

  /** A timeout while live takes the link offline and leaves the decoded state alone. */
  lemma TimeoutDropsLink<S>(size: nat, decode: (S, seq<byte>, nat) -> S, s: S, q: seq<Event>)
    requires size > 0
    ensures Serve(size, decode, true, s, [Timeout] + q) == Serve(size, decode, false, s, q)
  {
    assert ([Timeout] + q)[1..] == q;
  }

  /** While waiting, timeouts change nothing: the blocking receive has no time limit. */
  lemma {:induction false} WaitingIgnoresTimeouts<S>(size: nat, decode: (S, seq<byte>, nat) -> S, s: S, n: nat)
    requires size > 0
    ensures Serve(size, decode, false, s, seq(n, _ => Timeout)) == (false, s)
    decreases n
  {
    if n > 0 {
      var q := seq(n, _ => Timeout);
      assert q[1..] == seq(n - 1, _ => Timeout);
      WaitingIgnoresTimeouts(size, decode, s, n - 1);
    }
  }

  /**
    The decoded state changes only through the decoder: when no message of q
    would change the state s, handling q leaves s as it is, whatever the
    link does meanwhile.
  */
  lemma {:induction false} ServeKeepsFixedState<S>(size: nat, decode: (S, seq<byte>, nat) -> S, live: bool, s: S,
                                                   q: seq<Event>)
    requires forall i :: 0 <= i < |q| && q[i].Frame? ==> decode(s, q[i].bytes, q[i].at) == s
    ensures Serve(size, decode, live, s, q).1 == s
    decreases |q|
  {
    if q != [] {
      var r := Step(size, decode, live, s, q[0]);
      assert q[0].Frame? ==> decode(s, q[0].bytes, q[0].at) == s;
      assert r.1 == s;
      assert forall i :: 0 <= i < |q[1..]| ==> q[1..][i] == q[i + 1];
      ServeKeepsFixedState(size, decode, r.0, r.1, q[1..]);
    }
  }

  /** Everything a waiting worker receives before its first full-sized message is lost. */
  lemma {:induction false} NothingDecodedBeforeFirstFrame<S>(size: nat, decode: (S, seq<byte>, nat) -> S, s: S,
                                                             q: seq<Event>)
    requires forall i :: 0 <= i < |q| ==> Received(q[i]) != size
    ensures Serve(size, decode, false, s, q) == (false, s)
    decreases |q|
  {
    if q != [] {
      assert forall i :: 0 <= i < |q[1..]| ==> q[1..][i] == q[i + 1];
      NothingDecodedBeforeFirstFrame(size, decode, s, q[1..]);
    }
  }
}

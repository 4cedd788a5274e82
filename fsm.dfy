/**
  The hierarchical state machine of the core: an `fsm_t` owns an active
  child state, a transition buffer (`_target_state`) and reads the child's
  own request buffer (`_requested_state`). States are identified by their
  address; what a child or a hook does is the caller's code, so each tick
  takes those effects as parameters and the machine records, in order, the
  lifecycle calls it makes.
*/
module Fsm {
  import opened Wire

  /** A state object, by address; `None` plays the null pointer. */
  type StateId = nat

  /** One call the machine makes: its own hooks, or a child's lifecycle. */
  datatype Call =
    | OnEnter | OnExecute | OnExit
    | Enter(s: StateId) | Execute(s: StateId) | Exit(s: StateId)

  /** `_active_state`, `_target_state`, and each child's non-null `_requested_state`. */
  datatype Machine = Machine(active: Option<StateId>, target: Option<StateId>, requests: map<StateId, StateId>)

  /** The state after a call together with the calls it made. */
  datatype Outcome = Outcome(m: Machine, calls: seq<Call>)

  /** What `process_switch` reports, next to its outcome. */
  datatype Switch = Switch(done: bool, m: Machine, calls: seq<Call>)

  /**
    What the caller's code does in one tick: whether `on_execute` calls
    `change_state` (and with what), and whether the child's `execute`
    calls `request_switch` (and with what).
  */
  datatype Hooks = Hooks(decide: Option<Option<StateId>>, request: Option<Option<StateId>>)

  /** A pointer after an optional assignment. */
  function Assigned(cur: Option<StateId>, assign: Option<Option<StateId>>): Option<StateId>
  {
    if assign.Some? then assign.value else cur
  }

  /** The request buffer of state s. */
  function Pending(m: Machine, s: StateId): Option<StateId>
  {
    if s in m.requests then Some(m.requests[s]) else None
  }

  /** Only the active child may hold a request. */
  predicate Solo(m: Machine)
  {
    forall s :: s in m.requests ==> m.active == Some(s)
  }

  function IsLogic(c: Call): bool { c.OnExecute? || c.Execute? }

  function IsLifecycle(c: Call): bool { c.Enter? || c.Exit? }

  /** No call of the sequence runs logic. */
  predicate NoLogic(calls: seq<Call>)
  {
    forall i :: 0 <= i < |calls| ==> !IsLogic(calls[i])
  }

  /** No call of the sequence enters or exits a child. */
  predicate NoLifecycle(calls: seq<Call>)
  {
    forall i :: 0 <= i < |calls| ==> !IsLifecycle(calls[i])
  }

  /** `request_switch`: state s sets its own buffer to `next`. */
  function Request(m: Machine, s: StateId, next: Option<StateId>): (r: Machine)
    ensures r.active == m.active && r.target == m.target
    ensures Pending(r, s) == next
    ensures forall x :: x != s ==> Pending(r, x) == Pending(m, x)
  {
    m.(requests := if next.Some? then m.requests[s := next.value] else m.requests - {s})
  }

  /** `discard_request`: state s forgets its request. */
  function Discard(m: Machine, s: StateId): (r: Machine)
    ensures r.active == m.active && r.target == m.target
    ensures Pending(r, s).None? && r.requests.Keys == m.requests.Keys - {s}
  {
    Request(m, s, None)
  }

  /** `fetch_request`: the request of state s, which is consumed. */
  function Fetch(m: Machine, s: StateId): (r: (Option<StateId>, Machine))
    ensures r.0 == Pending(m, s) && Pending(r.1, s).None?
    ensures r.1 == Discard(m, s)
  {
    (Pending(m, s), Discard(m, s))
  }

  /** `change_state`: only the transition buffer is written. */
  function ChangeTarget(m: Machine, next: Option<StateId>): (r: Machine)
    ensures r.target == next && r.active == m.active && r.requests == m.requests
  {
    m.(target := next)
  }

  /** The last `change_state` before a tick is the one that counts. */
  lemma LastChangeWins(m: Machine, a: Option<StateId>, b: Option<StateId>)
    ensures ChangeTarget(ChangeTarget(m, a), b) == ChangeTarget(m, b)
  {
  }

  /** The call on the child, when there is one. */
  function ChildCall(active: Option<StateId>, exit: bool): (r: seq<Call>)
    ensures active.None? ==> r == []
    ensures active.Some? ==> r == [if exit then Exit(active.value) else Enter(active.value)]
  {
    if active.None? then [] else if exit then [Exit(active.value)] else [Enter(active.value)]
  }

  /** `enter`: the machine's `on_enter`, which may call `change_state`, then the child's `enter`. */
  function EnterFsm(m: Machine, onEnter: Option<Option<StateId>>): (r: Outcome)
    ensures r.calls == [OnEnter] + ChildCall(m.active, false)
    ensures r.m == ChangeTarget(m, Assigned(m.target, onEnter))
  {
    Outcome(m.(target := Assigned(m.target, onEnter)), [OnEnter] + ChildCall(m.active, false))
  }

  /**
    `exit`: the child's `exit`, then its request is discarded, then the
    machine's `on_exit`, which may call `change_state`.
  */
  function ExitFsm(m: Machine, onExit: Option<Option<StateId>>): (r: Outcome)
    ensures r.calls == ChildCall(m.active, true) + [OnExit]
    ensures r.m.active == m.active && r.m.target == Assigned(m.target, onExit)
    ensures m.active.Some? ==> Pending(r.m, m.active.value).None?
    ensures Solo(m) ==> r.m.requests == map[]
  {
    var m1 := if m.active.Some? then Discard(m, m.active.value) else m;
    Outcome(m1.(target := Assigned(m1.target, onExit)), ChildCall(m.active, true) + [OnExit])
  }

  /** A pending target that is not the active state: the next tick is a transition. */
  predicate Switches(m: Machine)
  {
    m.target.Some? && m.target != m.active
  }

  /**
    `process_switch`: with no target nothing happens; a target equal to
    the active state is dropped; otherwise the old child exits and loses
    its request, the target becomes active and enters, and the buffer is
    cleared.
  */
  function SwitchStep(m: Machine): (r: Switch)
    ensures r.done <==> Switches(m)
    ensures r.done ==> r.m.active == m.target && r.m.target.None?
    ensures r.done ==> r.calls == ChildCall(m.active, true) + [Enter(m.target.value)]
    ensures r.done && m.active.Some? ==> Pending(r.m, m.active.value).None?
    ensures !r.done ==> r.calls == [] && r.m == m.(target := None)
    ensures Solo(m) ==> Solo(r.m)
    ensures Solo(m) && r.done ==> r.m.requests == map[]
  {
    if m.target.None? then Switch(false, m, [])
    else if m.target == m.active then Switch(false, m.(target := None), [])
    else
      var m1 := if m.active.Some? then Discard(m, m.active.value) else m;
      var m2 := m1.(active := m.target, target := None);
      Switch(true, m2, ChildCall(m.active, true) + [Enter(m.target.value)])
  }

  /** Whether the child runs its logic in this tick. */
  predicate ChildRuns(m: Machine, h: Hooks)
  {
    !Switches(m) && Assigned(None, h.decide).None? && m.active.Some?
  }

  /**
    The logic half of a tick, once no switch is pending: `on_execute`,
    then, unless it set a target or there is no child, the child's
    `execute` and the hand-over of the child's request.
  */
  function LogicStep(m: Machine, h: Hooks): (r: Outcome)
    requires m.target.None?
    ensures r.m.active == m.active && |r.calls| > 0 && r.calls[0] == OnExecute
  {
    var m1 := m.(target := Assigned(m.target, h.decide));
    if m1.target.Some? || m1.active.None? then Outcome(m1, [OnExecute])
    else
      var child := m1.active.value;
      var m2 := if h.request.Some? then Request(m1, child, h.request.value) else m1;
      var f := Fetch(m2, child);
      var m3 := if f.0.Some? then f.1.(target := f.0) else f.1;
      Outcome(m3, [OnExecute, Execute(child)])
  }

  /**
    `execute`, one tick: either a transition (and nothing else), or the
    machine's `on_execute` followed, when it set no target and there is
    a child, by the child's `execute`, whose request moves into the
    transition buffer.
  */
  function Tick(m: Machine, h: Hooks): (r: Outcome)
    ensures Switches(m) <==> !NoLifecycle(r.calls)
    ensures NoLogic(r.calls) || NoLifecycle(r.calls)
    ensures Switches(m) ==> r.m.active == m.target && r.m.target.None?
    ensures Switches(m) ==> r.calls == ChildCall(m.active, true) + [Enter(m.target.value)]
    ensures Switches(m) && m.active.Some? ==> Pending(r.m, m.active.value).None?
    ensures !Switches(m) ==> r.m.active == m.active && |r.calls| > 0 && r.calls[0] == OnExecute
    ensures !Switches(m) && !ChildRuns(m, h) ==>
      r.calls == [OnExecute] && r.m == m.(target := Assigned(None, h.decide))
    ensures ChildRuns(m, h) ==>
      r.calls == [OnExecute, Execute(m.active.value)]
      && r.m.target == Assigned(Pending(m, m.active.value), h.request)
      && Pending(r.m, m.active.value).None?
    ensures Solo(m) ==> Solo(r.m)
    ensures Solo(m) && Switches(m) ==> Pending(r.m, m.target.value).None?
  {
    var sw := SwitchStep(m);
    if sw.done then
      assert IsLifecycle(sw.calls[|sw.calls| - 1]);
      Outcome(sw.m, sw.calls)
    else LogicStep(sw.m, h)
  }

  /** A run of ticks: the final state and every call made, in order. */
  function Run(m: Machine, hs: seq<Hooks>): (r: Outcome)
    decreases |hs|
  {
    if hs == [] then Outcome(m, [])
    else
      var t := Tick(m, hs[0]);
      var rest := Run(t.m, hs[1..]);
      Outcome(rest.m, t.calls + rest.calls)
  }

  /**
    However many ticks run, only the active child ever holds a request:
    a state that is left never carries a stale request back in.
  */
  lemma {:induction false} RunKeepsSolo(m: Machine, hs: seq<Hooks>)
    requires Solo(m)
    ensures Solo(Run(m, hs).m)
    decreases |hs|
  {
    if hs != [] {
      RunKeepsSolo(Tick(m, hs[0]).m, hs[1..]);
    }
  }

  /**
    A transition tick runs no caller code: whatever the hooks would have
    done, the tick is the same.
  */
  lemma TransitionIgnoresHooks(m: Machine, h: Hooks, g: Hooks)
    requires Switches(m)
    ensures Tick(m, h) == Tick(m, g)
  {
  }

  /** The machine as an object whose fields each call updates. */
  class StateMachine {
    var active: Option<StateId>
    var target: Option<StateId>
    var requests: map<StateId, StateId>
    /** The calls made so far, oldest first. */
    var trace: seq<Call>

    function Model(): Machine
      reads this
    {
      Machine(active, target, requests)
    }

    /** A machine starts with no active state, no target and no request. */
    constructor ()
      ensures Model() == Machine(None, None, map[]) && Solo(Model()) && trace == []
    {
      active := None;
      target := None;
      requests := map[];
      trace := [];
    }

    /** `request_switch`, called by child s on its own buffer. */
    method RequestSwitch(s: StateId, next: Option<StateId>)
      modifies this
      ensures Model() == Request(old(Model()), s, next) && trace == old(trace)
    {
      if next.Some? {
        requests := requests[s := next.value];
      } else {
        requests := requests - {s};
      }
    }

    /** `fetch_request` on child s. */
    method FetchRequest(s: StateId) returns (next: Option<StateId>)
      modifies this
      ensures (next, Model()) == Fetch(old(Model()), s) && trace == old(trace)
    {
      next := if s in requests then Some(requests[s]) else None;
      requests := requests - {s};
    }

    /** `discard_request` on child s. */
    method DiscardRequest(s: StateId)
      modifies this
      ensures Model() == Discard(old(Model()), s) && trace == old(trace)
    {
      requests := requests - {s};
    }

    /** `change_state`. */
    method ChangeState(next: Option<StateId>)
      modifies this
      ensures Model() == ChangeTarget(old(Model()), next) && trace == old(trace)
    {
      target := next;
    }

    /** `enter`, with the effect of the machine's `on_enter` hook. */
    method Enter(onEnter: Option<Option<StateId>>)
      modifies this
      ensures Model() == EnterFsm(old(Model()), onEnter).m
      ensures trace == old(trace) + EnterFsm(old(Model()), onEnter).calls
    {
      trace := trace + [OnEnter];
      if onEnter.Some? {
        ChangeState(onEnter.value);
      }
      if active.Some? {
        trace := trace + [Call.Enter(active.value)];
      }
    }

    /** `exit`, with the effect of the machine's `on_exit` hook. */
    method Exit(onExit: Option<Option<StateId>>)
      modifies this
      ensures Model() == ExitFsm(old(Model()), onExit).m
      ensures trace == old(trace) + ExitFsm(old(Model()), onExit).calls
    {
      if active.Some? {
        trace := trace + [Call.Exit(active.value)];
        DiscardRequest(active.value);
      }
      trace := trace + [OnExit];
      if onExit.Some? {
        ChangeState(onExit.value);
      }
    }

    /** `process_switch`. */
    method ProcessSwitch() returns (done: bool)
      modifies this
      ensures (done, Model()) == (SwitchStep(old(Model())).done, SwitchStep(old(Model())).m)
      ensures trace == old(trace) + SwitchStep(old(Model())).calls
    {
      if target.None? {
        return false;
      }
      if target == active {
        target := None;
        return false;
      }
      if active.Some? {
        trace := trace + [Call.Exit(active.value)];
        DiscardRequest(active.value);
      }
      active := target;
      if active.Some? {
        trace := trace + [Call.Enter(active.value)];
      }
      target := None;
      return true;
    }

    /** `execute`: one tick, the caller's code acting as `h` says. */
    method Execute(h: Hooks)
      modifies this
      ensures Model() == Tick(old(Model()), h).m
      ensures trace == old(trace) + Tick(old(Model()), h).calls
    {
      var done := ProcessSwitch();
      if done {
        return;
      }
      Logic(h);
    }

    /** What `execute` does after `process_switch` found nothing to do. */
    method Logic(h: Hooks)
      requires target.None?
      modifies this
      ensures Model() == LogicStep(old(Model()), h).m
      ensures trace == old(trace) + LogicStep(old(Model()), h).calls
    {
      trace := trace + [OnExecute];
      if h.decide.Some? {
        ChangeState(h.decide.value);
      }
      if target.Some? {
        return;
      }
      if active.None? {
        return;
      }
      var child := active.value;
      trace := trace + [Call.Execute(child)];
      if h.request.Some? {
        RequestSwitch(child, h.request.value);
      }
      var next := FetchRequest(child);
      if next.Some? {
        target := next;
      }
    }
  }
}

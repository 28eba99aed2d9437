/** The life cycle of a node (NodeActorImpl.cpp): which callbacks it gets, whatever order init, config, reconfig and
    uninit are called in and whatever the callbacks return. */
module NodeLifeCycle {
  /** In the order of the numbers of the code, which compares them. */
  datatype State = NoInit | Initializing | Initialized | Configuring | Configured | Reconfiguring

  function Rank(s: State): nat {
    match s
    case NoInit => 0
    case Initializing => 1
    case Initialized => 2
    case Configuring => 3
    case Configured => 4
    case Reconfiguring => 5
  }

  const OK := 0
  const INVALID_OPERATION := -38

  /** A callback with whether it returned OK. */
  datatype Callback = OnInit(ok: bool) | OnConfig(ok: bool) | OnUninit

  datatype Actor = Actor(state: State, trace: seq<Callback>)

  /** A call, with what its callback returns if there is one. */
  datatype Call = Init(ret: int) | Config(ret: int) | Reconfig(ret: int) | Uninit(ret: int)

  datatype Outcome = Outcome(actor: Actor, result: int)

  /** Enter a state, call back, and go on only if that went well. */
  function Through(a: Actor, during: State, c: Callback, after: State, ret: int): Outcome {
    Outcome(Actor(if ret == OK then after else during, a.trace + [c]), ret)
  }

  function Do(a: Actor, call: Call): Outcome {
    match call
    case Init(ret) =>
      if Rank(a.state) >= Rank(Initializing) then Outcome(a, OK)
      else Through(a, Initializing, OnInit(ret == OK), Initialized, ret)
    case Config(ret) =>
      if Rank(a.state) >= Rank(Configuring) then Outcome(a, OK)
      else if a.state != Initialized then Outcome(a, INVALID_OPERATION)
      else Through(a, Configuring, OnConfig(ret == OK), Configured, ret)
    case Reconfig(ret) =>
      if Rank(a.state) >= Rank(Reconfiguring) then Outcome(a, OK)
      else if a.state != Configured then Outcome(a, INVALID_OPERATION)
      else Through(a, Reconfiguring, OnConfig(ret == OK), Configured, ret)
    case Uninit(ret) =>
      if a.state == NoInit then Outcome(a, OK)
      else Outcome(Actor(NoInit, a.trace + [OnUninit]), ret)
  }

  // ---------------------------------------------------------------- the language of the callbacks

  /** A failed init alone, or an init and configs of which only the last may have failed. */
  ghost predicate IsCycle(c: seq<Callback>) {
    c == [OnInit(false)] ||
    (&& |c| > 0 && c[0] == OnInit(true)
     && (forall i | 1 <= i < |c| :: c[i].OnConfig?)
     && (forall i | 1 <= i < |c| - 1 :: c[i].ok))
  }

  /** Cycles, each closed by an uninit. */
  ghost function Closed(cycles: seq<seq<Callback>>): seq<Callback> {
    if cycles == [] then [] else Closed(cycles[..|cycles| - 1]) + cycles[|cycles| - 1] + [OnUninit]
  }

  /** What the trace consists of: closed cycles and the current one, which may not have begun. */
  ghost predicate Splits(trace: seq<Callback>, cycles: seq<seq<Callback>>, current: seq<Callback>) {
    && trace == Closed(cycles) + current
    && (forall c | c in cycles :: IsCycle(c))
    && (current == [] || IsCycle(current))
  }

  /** The state that belongs to the callbacks of the current cycle. */
  ghost predicate Fits(s: State, current: seq<Callback>) {
    match s
    case NoInit => current == []
    case Initializing => current == [OnInit(false)]
    case Initialized => current == [OnInit(true)]
    case Configuring => current == [OnInit(true), OnConfig(false)]
    case Configured => |current| >= 2 && IsCycle(current) && current[|current| - 1] == OnConfig(true)
    case Reconfiguring => |current| >= 3 && IsCycle(current) && current[|current| - 1] == OnConfig(false)
  }

  /** The current cycle is an init and one or more configs, all of them OK. */
  ghost predicate ConfiguredCycle(current: seq<Callback>) {
    |current| >= 2 && current[0] == OnInit(true) && forall i | 1 <= i < |current| :: current[i] == OnConfig(true)
  }

  lemma OneMore(a: Actor, call: Call, cycles: seq<seq<Callback>>, current: seq<Callback>)
    returns (cycles': seq<seq<Callback>>, current': seq<Callback>)
    requires Splits(a.trace, cycles, current) && Fits(a.state, current)
    ensures var r := Do(a, call).actor; Splits(r.trace, cycles', current') && Fits(r.state, current')
  {
    var r := Do(a, call).actor;
    cycles', current' := cycles, current;
    if r.trace != a.trace {
      var c := r.trace[|a.trace|];
      if call.Uninit? {
        assert current != [];
        cycles', current' := cycles + [current], [];
        assert cycles'[..|cycles|] == cycles;
        assert Closed(cycles') == Closed(cycles) + current + [OnUninit];
      } else {
        current' := current + [c];
        assert r.trace == Closed(cycles) + (current + [c]);
      }
    }
  }

  ghost predicate IsRun(actors: seq<Actor>, calls: seq<Call>) {
    && |actors| == |calls| + 1 && actors[0] == Actor(NoInit, [])
    && forall k | 0 <= k < |calls| :: actors[k + 1] == Do(actors[k], calls[k]).actor
  }

  lemma {:induction false} RunSplits(actors: seq<Actor>, calls: seq<Call>, k: nat)
    returns (cycles: seq<seq<Callback>>, current: seq<Callback>)
    requires IsRun(actors, calls) && k <= |calls|
    ensures Splits(actors[k].trace, cycles, current) && Fits(actors[k].state, current)
  {
    if k == 0 {
      cycles, current := [], [];
    } else {
      cycles, current := RunSplits(actors, calls, k - 1);
      cycles, current := OneMore(actors[k - 1], calls[k - 1], cycles, current);
    }
  }

  lemma ConfiguredIffCycle(s: State, current: seq<Callback>)
    requires Fits(s, current)
    ensures s == Configured <==> ConfiguredCycle(current)
  {
    if s == Configured {
      forall i | 1 <= i < |current|
        ensures current[i] == OnConfig(true)
      {
        assert i < |current| - 1 ==> current[i].ok;
      }
    }
    if ConfiguredCycle(current) {
      assert current[|current| - 1] == OnConfig(true);
    }
  }

  /** For any calls and any results of the callbacks: the callbacks are closed cycles and a last one that may be
      missing, and the node is Configured exactly when the last one is an OK init followed by OK configs. */
  lemma CallbacksInLanguage(actors: seq<Actor>, calls: seq<Call>, k: nat)
    requires IsRun(actors, calls) && k <= |calls|
    ensures exists cycles: seq<seq<Callback>>, current: seq<Callback> ::
              && Splits(actors[k].trace, cycles, current)
              && (actors[k].state == Configured <==> ConfiguredCycle(current))
  {
    var cycles, current := RunSplits(actors, calls, k);
    ConfiguredIffCycle(actors[k].state, current);
    assert Splits(actors[k].trace, cycles, current) && (actors[k].state == Configured <==> ConfiguredCycle(current));
  }

  /** A failed init, config or reconfig is told once: the same call after it returns OK without a callback. */
  lemma FailureIsToldOnce(a: Actor, ret: int, again: int)
    requires ret != OK
    ensures a.state == NoInit ==>
              var b := Do(a, Init(ret)).actor; Do(a, Init(ret)).result == ret && Do(b, Init(again)) == Outcome(b, OK)
    ensures a.state == Initialized ==>
              var b := Do(a, Config(ret)).actor; Do(a, Config(ret)).result == ret && Do(b, Config(again)) == Outcome(b, OK)
    ensures a.state == Configured ==>
              var b := Do(a, Reconfig(ret)).actor;
              Do(a, Reconfig(ret)).result == ret && Do(b, Reconfig(again)) == Outcome(b, OK)
  {}

  predicate EndsWith(trace: seq<Callback>, c: Callback) {
    trace != [] && trace[|trace| - 1] == c
  }

  /** A node is in one of the states in between exactly if the last callback it got has failed. */
  lemma LastCallbackTells(actors: seq<Actor>, calls: seq<Call>, k: nat)
    requires IsRun(actors, calls) && k <= |calls|
    ensures actors[k].state == Initializing <==> EndsWith(actors[k].trace, OnInit(false))
    ensures actors[k].state == Configuring || actors[k].state == Reconfiguring <==>
            EndsWith(actors[k].trace, OnConfig(false))
  {
    var cycles, current := RunSplits(actors, calls, k);
    var trace := actors[k].trace;
    if current == [] {
      assert trace == Closed(cycles);
      assert trace != [] ==> trace[|trace| - 1] == OnUninit;
    } else {
      assert trace[|trace| - 1] == current[|current| - 1];
    }
  }

  /** What an OK means, in every run: an OK to init that the node is initialized, unless the last callback was a failed
      init; an OK to config or reconfig that it is Configured, unless the last callback was a failed one of these. */
  lemma OkMeansDone(actors: seq<Actor>, calls: seq<Call>, k: nat)
    requires IsRun(actors, calls) && k < |calls| && Do(actors[k], calls[k]).result == OK
    ensures calls[k].Init? ==>
              (Rank(actors[k + 1].state) >= Rank(Initialized) <==> !EndsWith(actors[k].trace, OnInit(false)))
    ensures calls[k].Config? || calls[k].Reconfig? ==>
              (actors[k + 1].state == Configured <==> !EndsWith(actors[k].trace, OnConfig(false)))
    ensures calls[k].Uninit? ==> actors[k + 1].state == NoInit
  {
    LastCallbackTells(actors, calls, k);
  }

  /** The last callback tells in which of the other states a node is. */
  lemma LastCallbackIsState(actors: seq<Actor>, calls: seq<Call>, k: nat)
    requires IsRun(actors, calls) && k <= |calls|
    ensures var a := actors[k]; var t := a.trace;
            && (a.state == NoInit <==> t == [] || EndsWith(t, OnUninit))
            && (a.state == Initialized <==> EndsWith(t, OnInit(true)))
            && (a.state == Configured <==> EndsWith(t, OnConfig(true)))
            && (a.state == Configuring <==> EndsWith(t, OnConfig(false)) && EndsWith(t[..|t| - 1], OnInit(true)))
  {
    var cycles, current := RunSplits(actors, calls, k);
    var trace := actors[k].trace;
    if current == [] {
      assert trace == Closed(cycles);
      assert trace != [] ==> trace[|trace| - 1] == OnUninit;
    } else {
      assert trace[|trace| - 1] == current[|current| - 1];
      assert |current| > 1 ==> trace[|trace| - 2] == current[|current| - 2];
      assert |current| > 1 ==> (trace[..|trace| - 1] != [] && trace[..|trace| - 1][|trace| - 2] == trace[|trace| - 2]);
    }
  }

  /** Whether a call goes to the node, by the callbacks the node has got: an init at first or after an uninit, a config
      right after an OK init, a reconfig right after an OK config or reconfig, an uninit after anything but an uninit. */
  predicate GoesToNode(trace: seq<Callback>, call: Call) {
    match call
    case Init(_) => trace == [] || EndsWith(trace, OnUninit)
    case Config(_) => EndsWith(trace, OnInit(true))
    case Reconfig(_) => EndsWith(trace, OnConfig(true))
    case Uninit(_) => trace != [] && !EndsWith(trace, OnUninit)
  }

  /** A call that comes too early: a config before any init since the last uninit, or after a failed one; a reconfig then,
      or before any config, or after a failed config that was the first. */
  predicate TooEarly(trace: seq<Callback>, call: Call) {
    var notInitialized := trace == [] || EndsWith(trace, OnUninit) || EndsWith(trace, OnInit(false));
    match call
    case Config(_) => notInitialized
    case Reconfig(_) => notInitialized || EndsWith(trace, OnInit(true)) ||
                        (EndsWith(trace, OnConfig(false)) && EndsWith(trace[..|trace| - 1], OnInit(true)))
    case _ => false
  }

  function CallbackOf(call: Call): Callback {
    match call
    case Init(ret) => OnInit(ret == OK)
    case Uninit(_) => OnUninit
    case Config(ret) => OnConfig(ret == OK)
    case Reconfig(ret) => OnConfig(ret == OK)
  }

  /** In every run a call that goes to the node makes its callback and returns what that returns; any other call makes
      none, and is an invalid operation, -38, if it comes too early, and else OK. */
  lemma AnswersFollowCallbacks(actors: seq<Actor>, calls: seq<Call>, k: nat)
    requires IsRun(actors, calls) && k < |calls|
    ensures var trace, r := actors[k].trace, Do(actors[k], calls[k]);
            if GoesToNode(trace, calls[k]) then r.actor.trace == trace + [CallbackOf(calls[k])] && r.result == calls[k].ret
            else r.actor.trace == trace && r.result == if TooEarly(trace, calls[k]) then -38 else 0
  {
    LastCallbackIsState(actors, calls, k);
    LastCallbackTells(actors, calls, k);
  }

  // ---------------------------------------------------------------- the object

  class NodeActor {
    var state: State
    ghost var trace: seq<Callback>

    ghost function Now(): Actor
      reads this
    {
      Actor(state, trace)
    }

    constructor ()
      ensures Now() == Actor(NoInit, [])
    {
      state, trace := NoInit, [];
    }

    /** `ret` is what onInit returns if it is called. */
    method Init(ret: int) returns (r: int)
      modifies this
      ensures Outcome(Now(), r) == Do(old(Now()), Call.Init(ret))
    {
      if Rank(state) >= Rank(Initializing) {
        return OK;
      }
      state := Initializing;
      trace := trace + [OnInit(ret == OK)];
      if ret == OK {
        state := Initialized;
      }
      return ret;
    }

    method Config(ret: int) returns (r: int)
      modifies this
      ensures Outcome(Now(), r) == Do(old(Now()), Call.Config(ret))
    {
      if Rank(state) >= Rank(Configuring) {
        return OK;
      } else if state != Initialized {
        return INVALID_OPERATION;
      }
      state := Configuring;
      trace := trace + [OnConfig(ret == OK)];
      if ret == OK {
        state := Configured;
      }
      return ret;
    }

    method Reconfig(ret: int) returns (r: int)
      modifies this
      ensures Outcome(Now(), r) == Do(old(Now()), Call.Reconfig(ret))
    {
      if Rank(state) >= Rank(Reconfiguring) {
        return OK;
      } else if state != Configured {
        return INVALID_OPERATION;
      }
      state := Reconfiguring;
      trace := trace + [OnConfig(ret == OK)];
      if ret == OK {
        state := Configured;
      }
      return ret;
    }

    method Uninit(ret: int) returns (r: int)
      modifies this
      ensures Outcome(Now(), r) == Do(old(Now()), Call.Uninit(ret))
    {
      if state == NoInit {
        return OK;
      }
      trace := trace + [OnUninit];
      state := NoInit;
      return ret;
    }
  }
}

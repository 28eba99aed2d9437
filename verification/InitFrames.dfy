/** Sending the initial frames (InitFrameHandler.cpp): any thread hands frames in, one thread sends them on, and a
    third one can shut the handler down and wait until it has run dry. Each step below is one critical section. */
module InitFrames {
  import opened Wrappers

  type Frame = int

  /** Where the sending thread stands: about to look into the queue, inside sendFrame, or about to see whether it
      is to exit. */
  datatype Thread = AtTop | InSendFrame | AtCheck | Exited

  /** How far deactivateAndWaitUntilDrained has come. */
  datatype Shutdown = NotCalled | Waiting | Drained | ExitRequested

  /** `accepted` and `sent` are the frames that enqueue said OK to and those that sendFrame was called with. */
  datatype State = State(
    active: bool,
    pending: seq<Frame>,
    sending: Option<Frame>,
    frameCountSent: nat,
    exitPending: bool,
    thread: Thread,
    shutdown: Shutdown,
    accepted: seq<Frame>,
    sent: seq<Frame>)

  const UINT32: nat := 0x1_0000_0000

  function Start(): State {
    State(true, [], None, 0, false, AtTop, NotCalled, [], [])
  }

  datatype Step =
    | Enqueue(frame: Frame)
    | Look
    | Finish(err: int)
    | Check
    | Deactivate
    | SeeDrained
    | RequestExit

  predicate Enabled(s: State, step: Step) {
    match step
    case Enqueue(_) => true
    case Look => s.thread == AtTop
    case Finish(_) => s.thread == InSendFrame
    case Check => s.thread == AtCheck
    case Deactivate => s.shutdown == NotCalled
    case SeeDrained => s.shutdown == Waiting && s.pending == [] && s.sending == None
    case RequestExit => s.shutdown == Drained
  }

  function Next(s: State, step: Step): State
    requires Enabled(s, step)
  {
    match step
    case Enqueue(f) =>
      if s.active then s.(pending := s.pending + [f], accepted := s.accepted + [f]) else s
    case Look =>
      if s.pending == [] then s.(thread := AtCheck)
      else s.(sending := Some(s.pending[0]), pending := s.pending[1..], thread := InSendFrame)
    case Finish(_) =>
      if s.sending.None? then s.(thread := AtCheck)
      else s.(sending := None, sent := s.sent + [s.sending.value],
              frameCountSent := (s.frameCountSent + 1) % UINT32, thread := AtCheck)
    case Check => s.(thread := if s.exitPending then Exited else AtTop)
    case Deactivate => s.(active := false, shutdown := Waiting)
    case SeeDrained => s.(shutdown := Drained)
    case RequestExit => s.(exitPending := true, shutdown := ExitRequested)
  }

  function Being(s: State): seq<Frame> {
    if s.sending.Some? then [s.sending.value] else []
  }

  /** Accepted frames are sent in order, each once; once the shutdown has seen the handler dry, it stays dry; and
      only then can the thread leave. */
  predicate Ok(s: State) {
    && s.accepted == s.sent + Being(s) + s.pending
    && s.frameCountSent == |s.sent| % UINT32
    && (s.sending.Some? <==> s.thread == InSendFrame)
    && (s.active <==> s.shutdown == NotCalled)
    && (s.shutdown == Drained || s.shutdown == ExitRequested ==> s.pending == [] && s.sending == None)
    && (s.exitPending <==> s.shutdown == ExitRequested)
    && (s.thread == Exited ==> s.exitPending)
  }

  lemma NextOk(s: State, step: Step)
    requires Ok(s) && Enabled(s, step)
    ensures Ok(Next(s, step))
  {
    match step
    case Enqueue(f) =>
      assert s.sent + Being(s) + (s.pending + [f]) == s.sent + Being(s) + s.pending + [f];
    case Look =>
      if s.pending != [] {
        assert s.pending == [s.pending[0]] + s.pending[1..];
        assert s.sent + [] + s.pending == s.sent + [s.pending[0]] + s.pending[1..];
      }
    case Finish(_) =>
      assert s.sent + Being(s) + s.pending == (s.sent + [s.sending.value]) + [] + s.pending;
      assert (|s.sent| % UINT32 + 1) % UINT32 == (|s.sent| + 1) % UINT32;
    case _ =>
  }

  ghost predicate IsRun(states: seq<State>, steps: seq<Step>) {
    && |states| == |steps| + 1 && states[0] == Start()
    && forall k | 0 <= k < |steps| :: Enabled(states[k], steps[k]) && states[k + 1] == Next(states[k], steps[k])
  }

  /** At every point of every run: accepted frames are the sent ones, the one being sent and the waiting ones, in
      the order in which they came, and the counter is the number sent (a 32-bit one). */
  lemma {:induction false} RunOk(states: seq<State>, steps: seq<Step>, k: nat)
    requires IsRun(states, steps) && k <= |steps|
    ensures Ok(states[k])
  {
    if k > 0 {
      RunOk(states, steps, k - 1);
      NextOk(states[k - 1], steps[k - 1]);
    }
  }

  predicate IsDry(s: State) {
    s.shutdown == Drained || s.shutdown == ExitRequested
  }

  lemma StaysDry(s: State, step: Step)
    requires Ok(s) && IsDry(s) && Enabled(s, step)
    ensures var r := Next(s, step); IsDry(r) && r.accepted == s.accepted && r.sent == s.sent && s.sent == s.accepted
  {
    assert s.sent + [] + [] == s.sent;
  }

  /** After deactivateAndWaitUntilDrained has returned, every accepted frame has been sent, once and in order, and
      none is accepted any more. */
  lemma {:induction false} NothingAfterDrained(states: seq<State>, steps: seq<Step>, k: nat, l: nat)
    requires IsRun(states, steps) && k <= l <= |steps|
    requires IsDry(states[k])
    ensures IsDry(states[l]) && states[l].accepted == states[k].accepted && states[l].sent == states[k].accepted
  {
    RunOk(states, steps, k);
    if k < l {
      NothingAfterDrained(states, steps, k, l - 1);
      RunOk(states, steps, l - 1);
      StaysDry(states[l - 1], steps[l - 1]);
    }
  }

  /** The thread never leaves frames behind. */
  lemma ExitedIsDrained(states: seq<State>, steps: seq<Step>, k: nat)
    requires IsRun(states, steps) && k <= |steps| && states[k].thread == Exited
    ensures states[k].sent == states[k].accepted
  {
    RunOk(states, steps, k);
  }

  /** Work for the thread before the handler is dry. */
  function Work(s: State): nat {
    2 * |s.pending| + |Being(s)|
  }

  /** While frames are left the thread can go on; taking and finishing a frame both bring the end nearer, and once
      the handler is not active nothing pushes it away: so the wait ends after that many such steps. */
  lemma DrainingMovesOn(s: State, step: Step)
    requires Ok(s)
    ensures Work(s) > 0 ==> exists t: Step :: (t.Look? || t.Finish? || t.Check?) && Enabled(s, t)
    ensures Enabled(s, step) && !s.active ==>
              Work(Next(s, step)) == Work(s) - if Work(s) > 0 && (step.Look? || step.Finish?) then 1 else 0
    ensures Work(s) == 0 && s.shutdown == Waiting ==> Enabled(s, SeeDrained)
  {
    if Work(s) > 0 {
      assert s.thread == Exited ==> s.pending == [] && s.sending == None;
      assert Enabled(s, Look) || Enabled(s, Finish(0)) || Enabled(s, Check);
    }
  }

  /** Steps of the thread from here to its exit, once it was told to exit. */
  function ToExit(s: State): nat {
    match s.thread
    case AtTop => 2
    case AtCheck => 1
    case _ => 0
  }

  /** Once an exit was requested, the thread can go on until it has left, and has left after at most two of its steps;
      whatever else happens does not hold it up. */
  lemma ExitMovesOn(s: State, step: Step)
    requires Ok(s) && s.exitPending
    ensures s.thread != Exited ==> exists t: Step :: (t.Look? || t.Check?) && Enabled(s, t)
    ensures s.thread == Exited <==> ToExit(s) == 0
    ensures Enabled(s, step) ==>
              && Next(s, step).exitPending
              && ToExit(Next(s, step)) == ToExit(s) - if step.Look? || step.Check? || step.Finish? then 1 else 0
  {
    if s.thread != Exited {
      assert Enabled(s, Look) || Enabled(s, Check);
    }
  }

  // ---------------------------------------------------------------- the object

  class InitFrameHandler {
    var active: bool
    var pendingQueue: seq<Frame>
    var sendingFrame: Option<Frame>
    var frameCountSent: nat
    var threadExitPending: bool
    ghost var thread: Thread
    ghost var shutdown: Shutdown
    ghost var accepted: seq<Frame>
    ghost var sent: seq<Frame>

    ghost function Now(): State
      reads this
    {
      State(active, pendingQueue, sendingFrame, frameCountSent, threadExitPending, thread, shutdown, accepted, sent)
    }

    constructor ()
      ensures Now() == Start()
    {
      active, pendingQueue, sendingFrame, frameCountSent, threadExitPending := true, [], None, 0, false;
      thread, shutdown, accepted, sent := AtTop, NotCalled, [], [];
    }

    /** enqueue: false stands for NO_INIT. */
    method Enqueue(f: Frame) returns (ok: bool)
      modifies this
      ensures Now() == Next(old(Now()), Step.Enqueue(f)) && ok == old(active)
    {
      if active {
        pendingQueue := pendingQueue + [f];
        accepted := accepted + [f];
        return true;
      }
      return false;
    }

    /** The first critical section of threadLoop. */
    method TakeNext() returns (frame: Option<Frame>)
      requires Enabled(Now(), Look)
      modifies this
      ensures Now() == Next(old(Now()), Look)
      ensures frame == if old(pendingQueue) == [] then None else Some(old(pendingQueue)[0])
    {
      if pendingQueue == [] {
        thread := AtCheck;
        return None;
      }
      sendingFrame := Some(pendingQueue[0]);
      pendingQueue := pendingQueue[1..];
      thread := InSendFrame;
      return sendingFrame;
    }

    /** The second one, after sendFrame returned; an error makes no difference. */
    method FrameSent(err: int)
      requires Enabled(Now(), Finish(err)) && sendingFrame.Some?
      modifies this
      ensures Now() == Next(old(Now()), Finish(err))
    {
      thread := AtCheck;
      sent := sent + [sendingFrame.value];
      sendingFrame := None;
      frameCountSent := (frameCountSent + 1) % UINT32;
    }

    /** The end of a turn of the thread's loop. */
    method CheckExit() returns (exit: bool)
      requires Enabled(Now(), Check)
      modifies this
      ensures Now() == Next(old(Now()), Check) && exit == (thread == Exited)
    {
      exit := threadExitPending;
      thread := if exit then Exited else AtTop;
    }

    /** The first part of deactivateAndWaitUntilDrained. */
    method Deactivate()
      requires Enabled(Now(), Step.Deactivate)
      modifies this
      ensures Now() == Next(old(Now()), Step.Deactivate)
    {
      active := false;
      shutdown := Waiting;
    }

    /** The check that ends the loop of waitUntilDrained. */
    method SeesDrained() returns (exitLoop: bool)
      requires shutdown == Waiting
      modifies this
      ensures exitLoop == Enabled(old(Now()), SeeDrained)
      ensures Now() == if exitLoop then Next(old(Now()), SeeDrained) else old(Now())
    {
      exitLoop := pendingQueue == [] && sendingFrame == None;
      if exitLoop {
        shutdown := Drained;
      }
    }

    method RequestExit()
      requires Enabled(Now(), Step.RequestExit)
      modifies this
      ensures Now() == Next(old(Now()), Step.RequestExit)
    {
      threadExitPending := true;
      shutdown := ExitRequested;
    }
  }
}

/** A flush from beginning to end: a run in which each node that gets the frame is flushed has a length of its own,
    whatever else happens in between, and ends with the frame drained. */
module FlushRuns {
  import opened FrameModel
  import opened FrameConfiguration
  import opened FrameInvariant
  import opened FlushDrain
  import D = Dispatch

  /** Every node that got the frame was flushed. */
  predicate AllFlushed(j: D.Join) {
    forall h | h in j.log :: h.flush
  }

  /** How many of the events are protocol events. */
  function ProtocolEvents(events: seq<Event>): nat {
    if events == [] then 0
    else ProtocolEvents(events[..|events| - 1]) + if IsProtocol(events[|events| - 1]) then 1 else 0
  }

  /** The length of a flush: an event per root, per stream of a node, per node and per edge. */
  ghost function FlushLength(s: Setup, g: D.Graph): nat
    requires NodesKnown(s)
  {
    Distance(s, g, Begun(s, g))
  }

  /** A flushed node that dispatches has been through all its streams. */
  ghost predicate TurnsTaken(s: Setup, j: D.Join, turn: map<NodeId, nat>) {
    forall n | n in j.phase && j.phase[n].Sending? && n in s.plan && n in turn ::
      D.HandOff(n, false) in j.log || turn[n] == |Work(s.plan[n])|
  }

  lemma FlushedByName(j: D.Join, n: NodeId)
    requires D.HandedTo(j.log, n)
    ensures D.HandOff(n, true) in j.log || D.HandOff(n, false) in j.log
  {
    var k :| 0 <= k < |j.log| && j.log[k].node == n;
    assert j.log[k] == D.HandOff(n, j.log[k].flush);
    assert j.log[k] in j.log;
  }

  /** Handing on leaves the turns alone, and no node begins to dispatch by it. */
  lemma HandTurns(s: Setup, g: D.Graph, j: D.Join, turn: map<NodeId, nat>, m: D.Move)
    requires D.EdgesOk(g) && D.CountsOk(g, j) && D.Enabled(g, j, m) && !m.Begin? && TurnsTaken(s, j, turn)
    ensures TurnsTaken(s, D.Make(g, j, m), turn)
  {
    var r := D.Make(g, j, m);
    forall n | n in r.phase && r.phase[n].Sending?
      ensures n in j.phase && j.phase[n].Sending?
    {
      HandingOk(g, j, m, n);
    }
    assert j.log <= r.log;
  }

  lemma BeginTurns(s: Setup, g: D.Graph, j: D.Join, turn: map<NodeId, nat>, n: NodeId)
    requires D.EdgesOk(g) && D.JoinOk(g, j) && D.Enabled(g, j, D.Begin(n)) && TurnsTaken(s, j, turn)
    requires n in s.plan && n in turn && (D.HandOff(n, true) in j.log ==> turn[n] == |Work(s.plan[n])|)
    ensures TurnsTaken(s, D.Make(g, j, D.Begin(n)), turn)
  {
    FlushedByName(j, n);
  }

  lemma ApplyTurns(s: Setup, g: D.Graph, sys: Sys, e: Event)
    requires FlushSetupOk(s, g) && SysOk(s, g, sys) && Can(s, g, sys, e) && TurnsTaken(s, sys.j, sys.turn) && e.Apply?
    ensures TurnsTaken(s, Do(s, g, sys, e).j, Do(s, g, sys, e).turn)
  {
    BeginTurns(s, g, sys.j, sys.turn, e.node);
  }

  lemma HandEventTurns(s: Setup, g: D.Graph, sys: Sys, e: Event)
    requires FlushSetupOk(s, g) && SysOk(s, g, sys) && Can(s, g, sys, e) && TurnsTaken(s, sys.j, sys.turn)
    requires e.SendRoot? || e.CountEdge?
    ensures TurnsTaken(s, Do(s, g, sys, e).j, Do(s, g, sys, e).turn)
  {
    HandTurns(s, g, sys.j, sys.turn, if e.SendRoot? then D.SendRoot(e.node, e.flush) else D.CountEdge(e.node, e.flush));
  }

  lemma TurnTurns(s: Setup, j: D.Join, turn: map<NodeId, nat>, e: Event)
    requires TurnsTaken(s, j, turn) && e.Turn? && e.node in j.phase && j.phase[e.node].Held? && e.node in turn
    ensures TurnsTaken(s, j, turn[e.node := turn[e.node] + 1])
  {}

  lemma TurnEventTurns(s: Setup, g: D.Graph, sys: Sys, e: Event)
    requires FlushSetupOk(s, g) && SysOk(s, g, sys) && Can(s, g, sys, e) && TurnsTaken(s, sys.j, sys.turn) && e.Turn?
    ensures TurnsTaken(s, Do(s, g, sys, e).j, Do(s, g, sys, e).turn)
  {
    TurnTurns(s, sys.j, sys.turn, e);
  }

  lemma DoTurns(s: Setup, g: D.Graph, sys: Sys, e: Event)
    requires FlushSetupOk(s, g) && SysOk(s, g, sys) && Can(s, g, sys, e) && TurnsTaken(s, sys.j, sys.turn)
    ensures TurnsTaken(s, Do(s, g, sys, e).j, Do(s, g, sys, e).turn)
  {
    if e.Apply? {
      ApplyTurns(s, g, sys, e);
    } else if e.Turn? {
      TurnEventTurns(s, g, sys, e);
    } else if !e.Other? {
      HandEventTurns(s, g, sys, e);
    }
  }

  lemma TurnsStep(s: Setup, g: D.Graph, states: seq<Sys>, events: seq<Event>, k: nat)
    requires FlushSetupOk(s, g) && IsFlushRun(s, g, states, events) && k < |events|
    requires TurnsTaken(s, states[k].j, states[k].turn)
    ensures TurnsTaken(s, states[k + 1].j, states[k + 1].turn)
  {
    FlushRunOk(s, g, states, events, k);
    DoTurns(s, g, states[k], events[k]);
  }

  lemma {:induction false} RunTurns(s: Setup, g: D.Graph, states: seq<Sys>, events: seq<Event>, k: nat)
    requires FlushSetupOk(s, g) && IsFlushRun(s, g, states, events) && k <= |events|
    ensures TurnsTaken(s, states[k].j, states[k].turn)
  {
    if k == 0 {
      AtFirst(s, g, states, events);
    } else {
      RunTurns(s, g, states, events, k - 1);
      TurnsStep(s, g, states, events, k - 1);
    }
  }

  lemma OneEvent(s: Setup, g: D.Graph, sys: Sys, e: Event, after: Sys)
    requires FlushSetupOk(s, g) && SysOk(s, g, sys) && Can(s, g, sys, e) && after == Do(s, g, sys, e)
    ensures Distance(s, g, after) + (if IsProtocol(e) then 1 else 0) == Distance(s, g, sys)
  {
    ProtocolMoves(s, g, sys, e);
  }

  lemma EventCounts(events: seq<Event>, k: nat)
    requires k < |events|
    ensures ProtocolEvents(events[..k + 1]) == ProtocolEvents(events[..k]) + if IsProtocol(events[k]) then 1 else 0
  {
    assert events[..k + 1][..k] == events[..k];
  }

  lemma AtFirst(s: Setup, g: D.Graph, states: seq<Sys>, events: seq<Event>)
    requires FlushSetupOk(s, g) && IsFlushRun(s, g, states, events)
    ensures ProtocolEvents(events[..0]) == 0 && Distance(s, g, states[0]) == FlushLength(s, g)
    ensures TurnsTaken(s, states[0].j, states[0].turn)
  {}

  /** What has been done and what is left, together. */
  ghost function InAll(s: Setup, g: D.Graph, sys: Sys, events: seq<Event>): nat {
    Distance(s, g, sys) + ProtocolEvents(events)
  }

  lemma InAllStays(s: Setup, g: D.Graph, states: seq<Sys>, events: seq<Event>, k: nat)
    requires FlushSetupOk(s, g) && IsFlushRun(s, g, states, events) && k < |events|
    ensures InAll(s, g, states[k + 1], events[..k + 1]) == InAll(s, g, states[k], events[..k])
  {
    FlushRunOk(s, g, states, events, k);
    OneEvent(s, g, states[k], events[k], states[k + 1]);
    EventCounts(events, k);
  }

  lemma {:induction false} InAllFrom(s: Setup, g: D.Graph, states: seq<Sys>, events: seq<Event>, k: nat)
    requires |states| == |events| + 1 && k <= |events|
    requires forall j: nat | j < |events| ::
               InAll(s, g, states[j + 1], events[..j + 1]) == InAll(s, g, states[j], events[..j])
    ensures InAll(s, g, states[k], events[..k]) == InAll(s, g, states[0], events[..0])
  {
    if k > 0 {
      var j := k - 1;
      InAllFrom(s, g, states, events, j);
      assert InAll(s, g, states[j + 1], events[..j + 1]) == InAll(s, g, states[j], events[..j]);
    }
  }

  lemma RunDistance(s: Setup, g: D.Graph, states: seq<Sys>, events: seq<Event>, k: nat)
    requires FlushSetupOk(s, g) && IsFlushRun(s, g, states, events) && k <= |events|
    ensures Distance(s, g, states[k]) + ProtocolEvents(events[..k]) == FlushLength(s, g)
  {
    forall j: nat | j < |events|
      ensures InAll(s, g, states[j + 1], events[..j + 1]) == InAll(s, g, states[j], events[..j])
    {
      InAllStays(s, g, states, events, j);
    }
    InAllFrom(s, g, states, events, k);
    AtFirst(s, g, states, events);
  }

  lemma HeldWereFlushed(g: D.Graph, j: D.Join)
    requires D.JoinOk(g, j) && AllFlushed(j)
    ensures forall n | n in g.out && j.phase[n].Held? :: D.HandOff(n, true) in j.log
  {
    forall n | n in g.out && j.phase[n].Held?
      ensures D.HandOff(n, true) in j.log
    {
      FlushedByName(j, n);
    }
  }

  /** When the frame has been handed through the graph by flushes, nothing is left to do. */
  lemma QuietIsThere(s: Setup, g: D.Graph, sys: Sys)
    requires FlushSetupOk(s, g) && SysOk(s, g, sys) && TurnsTaken(s, sys.j, sys.turn) && AllFlushed(sys.j)
    requires D.Quiescent(g, sys.j)
    ensures Distance(s, g, sys) == 0
  {
    D.QuietMeansAllSent(g, sys.j);
    forall n | n in s.plan && n in sys.turn
      ensures sys.turn[n] == |Work(s.plan[n])|
    {
      assert n in g.out && sys.j.phase[n].Sending?;
      assert D.HandOff(n, false) !in sys.j.log;
    }
    assert TurnsLeft(s, sys.turn) == {};
  }

  lemma ThereIsQuiet(s: Setup, g: D.Graph, sys: Sys)
    requires FlushSetupOk(s, g) && SysOk(s, g, sys) && Distance(s, g, sys) == 0
    ensures D.Quiescent(g, sys.j) && forall e | IsProtocol(e) :: !Can(s, g, sys, e)
  {
    forall m
      ensures !D.Enabled(g, sys.j, m)
    {
      if D.Enabled(g, sys.j, m) {
        D.EveryMoveCounts(g, sys.j, m);
      }
    }
    forall e | IsProtocol(e)
      ensures !Can(s, g, sys, e)
    {
      if Can(s, g, sys, e) {
        ProtocolMoves(s, g, sys, e);
      }
    }
  }

  /** A run in which each node that has got the frame was flushed: it has made at most as many protocol events as the
      plan and the graph give, another one is possible exactly while there are fewer, and when there are as many
      the frame is drained. Other steps of the frame may come in between, as many as there will. */
  lemma FlushRunsDrain(s: Setup, g: D.Graph, states: seq<Sys>, events: seq<Event>, k: nat)
    requires FlushSetupOk(s, g) && IsFlushRun(s, g, states, events) && k <= |events|
    requires AllFlushed(states[k].j)
    ensures ProtocolEvents(events[..k]) <= FlushLength(s, g)
    ensures (exists e :: IsProtocol(e) && Can(s, g, states[k], e)) <==> ProtocolEvents(events[..k]) < FlushLength(s, g)
    ensures ProtocolEvents(events[..k]) == FlushLength(s, g) ==> Drained(s, states[k].f, states[k].late)
  {
    var sys := states[k];
    FlushRunOk(s, g, states, events, k);
    RunDistance(s, g, states, events, k);
    if Distance(s, g, sys) == 0 {
      ThereIsQuiet(s, g, sys);
      FlushDrainsFrame(s, g, states, events, k);
    } else {
      RunTurns(s, g, states, events, k);
      if D.Quiescent(g, sys.j) {
        QuietIsThere(s, g, sys);
      } else {
        HeldWereFlushed(g, sys.j);
        FlushMovesOn(s, g, sys);
      }
    }
  }
}

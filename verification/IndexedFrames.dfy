/** The index of frames in flight together with the frames: what the listeners of a frame are told is what the index
    hears of it. */
module IndexedFrames {
  import opened Users
  import opened FrameModel
  import opened FrameInvariant
  import opened FrameRuns
  import opened FrameConfiguration
  import opened InFlightIndex
  import opened NodeNotices
  import FrameEnd

  /** The index has heard of this frame exactly what the frame has told its listeners. */
  ghost predicate Carried(log: seq<Event>, no: FrameNo, notices: seq<Notice>) {
    && (forall n, m :: NodeCall(no, n, m) in log <==> NodeNotice(n, m) in notices)
    && (FrameCall(no) in log <==> FrameReleased in notices)
  }

  lemma {:induction false} StandingHas(log: seq<Event>, gone: set<FrameNo>, f: FrameNo)
    ensures f in Standing(log, gone) <==> f !in gone && IsRegistered(log, f)
  {
    AliveFrom(log, gone);
    if log != [] {
      var front := log[..|log| - 1];
      StandingHas(front, gone, f);
      if f !in gone && IsRegistered(log, f) {
        var k :| 0 <= k < |log| && log[k].Registered? && log[k].frame == f;
        assert k < |front| ==> front[k] == log[k];
      }
    }
  }

  lemma {:induction false} UnsettledHas(log: seq<Event>, n: NodeId, settled: set<FrameNo>, k: nat)
    requires k < |log| && log[k].Registered? && n in log[k].nodes && log[k].frame !in settled
    ensures log[k].frame in Unsettled(log, n, settled)
  {
    if k < |log| - 1 {
      UnsettledHas(log[..|log| - 1], n, settled, k);
    }
  }

  lemma HeardIsDelivered(log: seq<Event>, no: FrameNo, n: NodeId, m: Message)
    ensures no in Delivered(log, n, m) <==> NodeCall(no, n, m) in log
    ensures no in Released(log) <==> FrameCall(no) in log
  {
    if NodeCall(no, n, m) in log {
      assert Delivers(NodeCall(no, n, m), n, m);
    }
  }

  /** A registered frame is in the frame list of the index if and only if it has not told its listeners that it is
      released. */
  lemma InFlightIff(log: seq<Event>, no: FrameNo, notices: seq<Notice>)
    requires Proper(log) && IsRegistered(log, no) && Carried(log, no, notices)
    ensures no in InFlight(log) <==> FrameReleased !in notices
  {
    FramesMirror(log);
    StandingHas(log, Released(log), no);
    HeardIsDelivered(log, no, 0, ALL_OUT_META_BUFFERS_RELEASED);
  }

  /** A frame that has ended, and whose notices were delivered, is not in flight: nobody who waits for the frame list to
      drain waits for it any more. */
  lemma DestroyedLeavesIndex(log: seq<Event>, no: FrameNo, states: seq<Frame>, steps: seq<Step>, s: Setup, alive: Alive)
    requires SetupOk(s) && IsRun(states, steps) && states[0] == Configured(s)
    requires KeysKnown(states[|steps|].w, states[|steps|].w.halKeys)
    requires Proper(log) && Carried(log, no, Destroy(states[|steps|], alive).out.notices)
    ensures no !in InFlight(log)
  {
    FrameEnd.EndIsTold(states, steps, s, alive);
    FramesMirror(log);
    StandingHas(log, Released(log), no);
    HeardIsDelivered(log, no, 0, ALL_OUT_META_BUFFERS_RELEASED);
  }

  /** As long as a frame that was registered for a node has not let go of the outputs its plan names there, it is in the
      list of the node for them. */
  lemma OwedUntilLetGo(log: seq<Event>, no: FrameNo, states: seq<Frame>, steps: seq<Step>, s: Setup, k: nat, n: NodeId,
                       m: Message, at: nat)
    requires SetupOk(s) && IsRun(states, steps) && states[0] == Configured(s) && k <= |steps|
    requires Proper(log) && Carried(log, no, states[k].out.notices)
    requires at < |log| && log[at].Registered? && log[at].frame == no && n in log[at].nodes
    requires no !in Owed(log, n, m)
    ensures n in s.plan && OutputsLetGo(s, states[k], n, m)
  {
    ListsMirrorFrames(log, n, m);
    HeardIsDelivered(log, no, n, m);
    if no !in Delivered(log, n, m) {
      UnsettledHas(log, n, Delivered(log, n, m), at);
    }
    NoticeMeansLetGo(states, steps, s, k, n, m);
  }

  /** The plan gives the node outputs of some sort. */
  predicate HasPlannedOutputs(s: Setup, n: NodeId) {
    n in s.plan && (s.plan[n].outImage != [] || s.plan[n].outMeta != [])
  }

  /** What registerRequest learns about a frame: its nodes in order, each with the answer whether it has outputs. */
  function QueriesOf(s: Setup): seq<(NodeId, Query)> {
    seq(|s.order|, k requires 0 <= k < |s.order| => (s.order[k], HasOutputs(HasPlannedOutputs(s, s.order[k]))))
  }

  lemma PlannedOutputsIndexed(s: Setup, n: NodeId)
    requires SetupOk(s)
    ensures n in NodesToIndex(QueriesOf(s)) <==> HasPlannedOutputs(s, n)
  {
    var nodes := QueriesOf(s);
    IndexedIff(nodes, n);
    if n in s.order {
      var k :| 0 <= k < |s.order| && s.order[k] == n;
      assert nodes[k].0 == n;
    }
  }

  lemma EarlierIsRegistered(log: seq<Event>, i: nat, j: nat)
    requires i < j <= |log| && log[i].Registered?
    ensures IsRegistered(log[..j], log[i].frame)
  {
    assert log[..j][i] == log[i];
  }

  lemma RegisteredOnce(log: seq<Event>, i: nat, j: nat)
    requires Proper(log) && i < |log| && j < |log| && log[i].Registered? && log[j].Registered?
    requires log[i].frame == log[j].frame
    ensures i == j
  {
    if i < j {
      EarlierIsRegistered(log, i, j);
    } else if j < i {
      EarlierIsRegistered(log, j, i);
    }
  }

  lemma {:induction false} UnsettledWas(log: seq<Event>, n: NodeId, settled: set<FrameNo>, f: FrameNo)
    requires f in Unsettled(log, n, settled)
    ensures exists k :: 0 <= k < |log| && log[k].Registered? && log[k].frame == f && n in log[k].nodes
  {
    var front, last := log[..|log| - 1], |log| - 1;
    if f in Unsettled(front, n, settled) {
      UnsettledWas(front, n, settled, f);
      var k :| 0 <= k < |front| && front[k].Registered? && front[k].frame == f && n in front[k].nodes;
      assert log[k] == front[k];
    } else {
      assert log[last].Registered? && log[last].frame == f && n in log[last].nodes;
    }
  }

  /** A frame that was registered with its plan is in a node's list for a message if and only if the plan gives the node
      outputs, of whatever sort, and the frame has not told its listeners this message of the node. */
  lemma OwedIff(log: seq<Event>, no: FrameNo, notices: seq<Notice>, s: Setup, n: NodeId, m: Message, at: nat)
    requires SetupOk(s) && Proper(log) && Carried(log, no, notices)
    requires at < |log| && log[at] == Registered(no, NodesToIndex(QueriesOf(s)))
    ensures no in Owed(log, n, m) <==> HasPlannedOutputs(s, n) && NodeNotice(n, m) !in notices
  {
    var settled := Delivered(log, n, m);
    ListsMirrorFrames(log, n, m);
    HeardIsDelivered(log, no, n, m);
    PlannedOutputsIndexed(s, n);
    if no !in settled && n in log[at].nodes {
      UnsettledHas(log, n, settled, at);
    }
    if no in Unsettled(log, n, settled) {
      UnsettledFrom(log, n, settled);
      UnsettledWas(log, n, settled, no);
      var j :| 0 <= j < |log| && log[j].Registered? && log[j].frame == no && n in log[j].nodes;
      RegisteredOnce(log, j, at);
    }
  }

  /** Right after an apply of a node with outputs, made before the frame was done: whoever waits for the node to drain
      waits for the frame if and only if the node has not let go of all these outputs. */
  lemma OwedAfterApply(log: seq<Event>, no: FrameNo, states: seq<Frame>, steps: seq<Step>, s: Setup, k: nat, n: NodeId,
                       m: Message, at: nat)
    requires SetupOk(s) && IsRun(states, steps) && states[0] == Configured(s) && k < |steps|
    requires HasPlannedOutputs(s, n) && Updates(states[k], steps[k], n)
    requires Proper(log) && Carried(log, no, states[k + 1].out.notices)
    requires at < |log| && log[at] == Registered(no, NodesToIndex(QueriesOf(s)))
    ensures no in Owed(log, n, m) <==> !OutputsLetGo(s, states[k + 1], n, m)
  {
    OwedIff(log, no, states[k + 1].out.notices, s, n, m, at);
    ConfiguredSets(s, n);
    NoticeAfterApply(states, steps, s, k, n, m);
  }

  /** What waitUntilNodeDrained is for: when it returns, every frame that was registered for the node before the call has
      let go of all its output metas and output images there. */
  lemma DrainedNodeHasLetGo(atCall: seq<Event>, metaEmpty: seq<Event>, imageEmpty: seq<Event>, n: NodeId, no: FrameNo,
                            states: seq<Frame>, steps: seq<Step>, s: Setup, k: nat, m: Message, at: nat)
    requires SetupOk(s) && IsRun(states, steps) && states[0] == Configured(s) && k <= |steps|
    requires Proper(imageEmpty) && atCall <= metaEmpty <= imageEmpty
    requires Owed(metaEmpty, n, ALL_OUT_META_BUFFERS_RELEASED) == []
    requires Owed(imageEmpty, n, ALL_OUT_IMAGE_BUFFERS_RELEASED) == []
    requires at < |atCall| && atCall[at].Registered? && atCall[at].frame == no && n in atCall[at].nodes
    requires Carried(imageEmpty, no, states[k].out.notices)
    ensures n in s.plan && OutputsLetGo(s, states[k], n, m)
  {
    NodeDrainedIsSound(atCall, metaEmpty, imageEmpty, n, no, at);
    HeardIsDelivered(imageEmpty, no, n, m);
    NoticeMeansLetGo(states, steps, s, k, n, m);
  }
}

/** BaseNode::flush as the loops it is: the node lets go of every stream, applies the release and dispatches. */
module BaseNode {
  import opened Users
  import opened Wrappers
  import opened FrameModel
  import opened FrameConfiguration
  import opened FrameControl
  import opened FlushDrain
  import D = Dispatch

  /** What the buffer provider answers to each request, for the Hal and for the App item of the stream. */
  type Answers = seq<(Outcome, Outcome)>

  /** The frame after a node has gone through the first `k` streams of its work. */
  function FlushStreams(f: Frame, work: seq<(bool, StreamId)>, k: nat, n: NodeId, answers: Answers): Frame
    requires k <= |work| <= |answers|
  {
    if k == 0 then f
    else
      FlushStream(FlushStreams(f, work, k - 1, n, answers),
                  work[k - 1].0, work[k - 1].1, n, answers[k - 1].0, answers[k - 1].1)
  }

  /** From place `from` on, the work is the streams of `list`. */
  ghost predicate Segment(work: seq<(bool, StreamId)>, from: nat, image: bool, list: seq<StreamId>) {
    from + |list| <= |work| && forall k | 0 <= k < |list| :: work[from + k] == (image, list[k])
  }

  ghost predicate InWorkOrder(p: NodePlan, work: seq<(bool, StreamId)>) {
    && Segment(work, 0, false, p.inMeta)
    && Segment(work, |p.inMeta|, true, p.inImage)
    && Segment(work, |p.inMeta| + |p.inImage|, false, p.outMeta)
    && Segment(work, |p.inMeta| + |p.inImage| + |p.outMeta|, true, p.outImage)
    && |work| == |p.inMeta| + |p.inImage| + |p.outMeta| + |p.outImage|
  }

  lemma WorkInOrder(p: NodePlan)
    ensures InWorkOrder(p, Work(p))
  {}

  /** One stream after the other. */
  ghost predicate Follow(states: seq<Frame>, work: seq<(bool, StreamId)>, n: NodeId, answers: Answers) {
    && |states| == |work| + 1 && |answers| >= |work|
    && forall k {:trigger work[k]} | 0 <= k < |work| ::
         states[k + 1] == FlushStream(states[k], work[k].0, work[k].1, n, answers[k].0, answers[k].1)
  }

  lemma FlushStates(f: Frame, work: seq<(bool, StreamId)>, n: NodeId, answers: Answers) returns (states: seq<Frame>)
    requires |answers| >= |work|
    ensures Follow(states, work, n, answers)
    ensures states[0] == f && states[|work|] == FlushStreams(f, work, |work|, n, answers)
  {
    states := seq(|work| + 1, k requires 0 <= k <= |work| => FlushStreams(f, work, k, n, answers));
  }

  class BaseNode {
    const nodeId: NodeId

    constructor (n: NodeId)
      ensures nodeId == n
    {
      nodeId := n;
    }

    /** One stream: ask for its buffer and mark it as released. */
    method FlushOne(frame: FrameControl, image: bool, s: StreamId, halAsk: Outcome, appAsk: Outcome)
      modifies frame
      ensures frame.State() == FlushStream(old(frame.State()), image, s, nodeId, halAsk, appAsk)
    {
      var found := frame.GetStreamBuffer(image, s, nodeId, halAsk, appAsk);
      if found.Some? && found.value in frame.items {
        frame.MarkUser(found.value, nodeId, RELEASE);
      }
    }

    /** The next stream of the work. */
    method FlushNext(frame: FrameControl, image: bool, s: StreamId, answers: Answers,
                     ghost work: seq<(bool, StreamId)>, ghost states: seq<Frame>, k: nat)
      requires k < |work| && work[k] == (image, s) && Follow(states, work, nodeId, answers)
      requires frame.State() == states[k]
      modifies frame
      ensures frame.State() == states[k + 1]
    {
      FlushOne(frame, image, s, answers[k].0, answers[k].1);
    }

    /** One of the four loops: the streams of `list` are those of the work from place `from` on. */
    method FlushList(frame: FrameControl, image: bool, list: seq<StreamId>, answers: Answers,
                     ghost work: seq<(bool, StreamId)>, ghost states: seq<Frame>, from: nat)
      requires Segment(work, from, image, list) && Follow(states, work, nodeId, answers)
      requires frame.State() == states[from]
      modifies frame
      ensures frame.State() == states[from + |list|]
    {
      for k := 0 to |list|
        invariant frame.State() == states[from + k]
      {
        FlushNext(frame, image, list[k], answers, work, states, from + k);
      }
    }

    /** The four loops. */
    method LetGoOfAll(frame: FrameControl, plan: NodePlan, answers: Answers,
                      ghost work: seq<(bool, StreamId)>, ghost states: seq<Frame>)
      requires InWorkOrder(plan, work) && Follow(states, work, nodeId, answers)
      requires frame.State() == states[0]
      modifies frame
      ensures frame.State() == states[|work|]
    {
      var b := |plan.inMeta| + |plan.inImage|;
      FlushList(frame, false, plan.inMeta, answers, work, states, 0);
      FlushList(frame, true, plan.inImage, answers, work, states, |plan.inMeta|);
      FlushList(frame, false, plan.outMeta, answers, work, states, b);
      FlushList(frame, true, plan.outImage, answers, work, states, b + |plan.outMeta|);
    }

    /** flush. The calls that hand the frame on are returned. */
    method Flush(frame: FrameControl, plan: NodePlan, answers: Answers, alive: Alive,
                 dispatcher: D.DefaultDispatcher, dag: D.FrameDag, at: seq<D.Reading>) returns (handed: seq<D.HandOff>)
      requires |answers| >= |Work(plan)|
      requires Closed(frame.State()) && KeysKnown(frame.Maps(), frame.halKeys)
      requires D.EdgesOk(dag.graph) && dag.reqCnt.Keys == dag.graph.out.Keys && nodeId in dag.graph.out
      requires |dag.graph.out[nodeId]| <= |at|
      modifies frame, dag, dispatcher
      ensures var f := FlushStreams(old(frame.State()), Work(plan), |Work(plan)|, nodeId, answers);
              && Closed(f) && KeysKnown(f.w, f.w.halKeys)
              && frame.State() == ApplyRelease(f, nodeId, false, alive)
      ensures var b := D.BumpAll(dag.graph, old(dag.reqCnt), dag.graph.out[nodeId], at);
              dag.reqCnt == b.reqCnt && handed == b.handed
    {
      FlushStreamsKeep(frame.State(), Work(plan), |Work(plan)|, nodeId, answers);
      WorkInOrder(plan);
      ghost var states := FlushStates(frame.State(), Work(plan), nodeId, answers);
      LetGoOfAll(frame, plan, answers, Work(plan), states);
      frame.ApplyRelease(nodeId, false, alive);
      handed := dispatcher.OnDispatchFrame(dag, nodeId, at);
    }
  }

  /** Going through the streams adds and removes no items. */
  lemma {:induction false} FlushStreamsKeep(f: Frame, work: seq<(bool, StreamId)>, k: nat, n: NodeId, answers: Answers)
    requires k <= |work| <= |answers| && Closed(f) && KeysKnown(f.w, f.w.halKeys)
    ensures var r := FlushStreams(f, work, k, n, answers);
            && Closed(r) && KeysKnown(r.w, r.w.halKeys)
  {
    FlushStreamsSame(f, work, k, n, answers);
    var r := FlushStreams(f, work, k, n, answers);
    forall m | m in r.nodes
      ensures KnownNode(r.w, r.nodes[m])
    {
      assert KnownNode(f.w, f.nodes[m]);
    }
  }

  lemma {:induction false} FlushStreamsSame(f: Frame, work: seq<(bool, StreamId)>, k: nat, n: NodeId, answers: Answers)
    requires k <= |work| <= |answers|
    ensures var r := FlushStreams(f, work, k, n, answers);
            r.w.items.Keys == f.w.items.Keys && r.w.halKeys == f.w.halKeys && r.nodes == f.nodes
  {
    if k > 0 {
      FlushStreamsSame(f, work, k - 1, n, answers);
      FlushStreamSame(FlushStreams(f, work, k - 1, n, answers),
                      work[k - 1].0, work[k - 1].1, n, answers[k - 1].0, answers[k - 1].1);
    }
  }

  lemma FlushStreamSame(f: Frame, image: bool, s: StreamId, n: NodeId, halAsk: Outcome, appAsk: Outcome)
    ensures var r := FlushStream(f, image, s, n, halAsk, appAsk);
            r.w.items.Keys == f.w.items.Keys && r.w.halKeys == f.w.halKeys && r.nodes == f.nodes
  {
    var hal, app := ItemId(if image then HalImage else HalMeta, s), ItemId(if image then AppImage else AppMeta, s);
    GetBufferSame(f, hal, n, halAsk);
    GetBufferSame(GetBuffer(f, hal, n, halAsk).f, app, n, appAsk);
  }

  lemma GetBufferSame(f: Frame, i: ItemId, n: NodeId, ask: Outcome)
    ensures var r := GetBuffer(f, i, n, ask).f;
            r.w.items.Keys == f.w.items.Keys && r.w.halKeys == f.w.halKeys && r.nodes == f.nodes
  {}
}

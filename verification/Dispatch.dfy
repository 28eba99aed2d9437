/** Handing a frame from node to node (Dispatcher.cpp, with the counters of PipelineDAGImp.cpp): a node that
    dispatches bumps the counter of each node after it, and whoever completes a counter hands the frame on.
    Nodes work concurrently, so the counting of different nodes interleaves freely. */
module Dispatch {
  import opened Users
  import opened Wrappers

  type NodeId = UserId

  /** The frame's graph: the nodes after each node, and an order of all nodes in which edges go forward. */
  datatype Graph = Graph(out: map<NodeId, seq<NodeId>>, order: seq<NodeId>)

  ghost predicate EdgesOk(g: Graph) {
    && (forall n, v | n in g.out && v in g.out[n] :: v in g.out)
    && (forall n, j, k | n in g.out && 0 <= j < k < |g.out[n]| :: g.out[n][j] != g.out[n][k])
    && (forall n | n in g.out :: n !in g.out[n])
  }

  ghost predicate OrderOk(g: Graph) {
    && (forall n :: n in g.out <==> n in g.order)
    && (forall j, k | 0 <= j < k < |g.order| :: g.order[j] != g.order[k] && !Edge(g, g.order[k], g.order[j]))
  }

  ghost predicate GraphOk(g: Graph) {
    EdgesOk(g) && OrderOk(g)
  }

  predicate Edge(g: Graph, n: NodeId, v: NodeId) {
    n in g.out && v in g.out[n]
  }

  /** The nodes before `v` (getInAdjacentNodes). */
  function In(g: Graph, v: NodeId): set<NodeId> {
    set n | n in g.out && v in g.out[n]
  }

  predicate IsRoot(g: Graph, n: NodeId) {
    In(g, n) == {}
  }

  /** A node waits for the frame, holds it, or has begun to dispatch and counted its first `done` edges. */
  datatype Phase = Waiting | Held | Sending(done: nat)

  /** One call of queue, or of flush, on a node. */
  datatype HandOff = HandOff(node: NodeId, flush: bool)

  datatype Join = Join(phase: map<NodeId, Phase>, reqCnt: map<NodeId, nat>, log: seq<HandOff>)

  function Start(g: Graph): Join {
    Join(map n | n in g.out :: Waiting, map n | n in g.out :: 0, [])
  }

  /** The sender hands the frame to a root; a node that holds it begins to dispatch; a node counts one edge. */
  datatype Move = SendRoot(node: NodeId, flush: bool) | Begin(node: NodeId) | CountEdge(node: NodeId, flush: bool)

  predicate Enabled(g: Graph, j: Join, m: Move) {
    && m.node in g.out && m.node in j.phase
    && match m
       case SendRoot(n, _) => IsRoot(g, n) && j.phase[n].Waiting?
       case Begin(n) => j.phase[n].Held?
       case CountEdge(n, _) => j.phase[n].Sending? && j.phase[n].done < |g.out[n]|
  }

  function Hand(j: Join, v: NodeId, flush: bool): Join {
    j.(phase := j.phase[v := Held], log := j.log + [HandOff(v, flush)])
  }

  /** One turn of the loop of onDispatchFrame. */
  function Bump(g: Graph, j: Join, v: NodeId, flush: bool): Join
    requires v in j.reqCnt
  {
    var count := j.reqCnt[v] + 1;
    var j1 := j.(reqCnt := j.reqCnt[v := count]);
    if count >= |In(g, v)| then Hand(j1, v, flush) else j1
  }

  function Make(g: Graph, j: Join, m: Move): Join
    requires Enabled(g, j, m) && j.reqCnt.Keys == g.out.Keys && EdgesOk(g)
  {
    match m
    case SendRoot(n, flush) => Hand(j, n, flush)
    case Begin(n) => j.(phase := j.phase[n := Sending(0)])
    case CountEdge(n, flush) =>
      var k := j.phase[n].done;
      Bump(g, j.(phase := j.phase[n := Sending(k + 1)]), g.out[n][k], flush)
  }

  // ---------------------------------------------------------------- the invariant

  /** Node `n` has counted its edge to `v`. */
  predicate HasCounted(g: Graph, j: Join, n: NodeId, v: NodeId) {
    n in g.out && n in j.phase && j.phase[n].Sending? && j.phase[n].done <= |g.out[n]| && v in g.out[n][..j.phase[n].done]
  }

  ghost function Counted(g: Graph, j: Join, v: NodeId): set<NodeId> {
    set n | n in g.out && HasCounted(g, j, n, v)
  }

  ghost predicate HandedTo(log: seq<HandOff>, n: NodeId) {
    exists k :: 0 <= k < |log| && log[k].node == n
  }

  /** Counters hold the number of counted edges, and a node with nodes before it has got the frame exactly if all
      of their edges are counted. */
  ghost predicate CountsOk(g: Graph, j: Join) {
    && j.phase.Keys == g.out.Keys && j.reqCnt.Keys == g.out.Keys
    && (forall n | n in g.out && j.phase[n].Sending? :: j.phase[n].done <= |g.out[n]|)
    && (forall v | v in g.out :: j.reqCnt[v] == |Counted(g, j, v)|)
    && (forall v | v in g.out && !IsRoot(g, v) :: !j.phase[v].Waiting? <==> Counted(g, j, v) == In(g, v))
  }

  ghost predicate JoinOk(g: Graph, j: Join) {
    CountsOk(g, j) && LogOk(g, j)
  }

  /** Each node that got the frame got it once, and only after every node before it began to dispatch and
      counted the edge: earlier entries of the log cover all nodes before. */
  ghost predicate LogOk(g: Graph, j: Join) {
    && (forall n | n in j.phase :: !j.phase[n].Waiting? <==> HandedTo(j.log, n))
    && (forall k, l | 0 <= k < l < |j.log| :: j.log[k].node != j.log[l].node)
    && (forall k | 0 <= k < |j.log| :: j.log[k].node in g.out)
    && (forall k, n | 0 <= k < |j.log| && n in In(g, j.log[k].node) :: HandedTo(j.log[..k], n))
  }

  lemma StartOk(g: Graph)
    requires EdgesOk(g)
    ensures JoinOk(g, Start(g))
  {
    forall v | v in g.out
      ensures Counted(g, Start(g), v) == {}
    {}
  }

  lemma CountedInside(g: Graph, j: Join, v: NodeId)
    ensures Counted(g, j, v) <= In(g, v)
  {}

  lemma HandLogOk(g: Graph, j: Join, v: NodeId, flush: bool)
    requires LogOk(g, j) && v in g.out && v in j.phase && j.phase[v].Waiting?
    requires forall n | n in In(g, v) :: n in j.phase && !j.phase[n].Waiting?
    ensures LogOk(g, Hand(j, v, flush))
  {
    var r := Hand(j, v, flush);
    assert r.log[..|j.log|] == j.log;
    forall k, n | 0 <= k < |r.log| && n in In(g, r.log[k].node)
      ensures HandedTo(r.log[..k], n)
    {
      if k < |j.log| {
        assert r.log[..k] == j.log[..k];
      }
    }
    forall n | n in r.phase
      ensures !r.phase[n].Waiting? <==> HandedTo(r.log, n)
    {
      if n == v {
        assert r.log[|j.log|].node == n;
      } else if HandedTo(j.log, n) {
        var k :| 0 <= k < |j.log| && j.log[k].node == n;
        assert r.log[k].node == n;
      } else {
        assert forall k | 0 <= k < |j.log| :: r.log[k] == j.log[k];
      }
    }
    assert !HandedTo(j.log, v);
  }

  /** Counting an edge adds exactly that edge. */
  lemma CountingAdds(g: Graph, j: Join, n: NodeId, u: NodeId)
    requires EdgesOk(g) && CountsOk(g, j) && n in g.out && j.phase[n].Sending? && j.phase[n].done < |g.out[n]|
    ensures var k := j.phase[n].done; var r := j.(phase := j.phase[n := Sending(k + 1)]);
            && Counted(g, r, u) == (if u == g.out[n][k] then Counted(g, j, u) + {n} else Counted(g, j, u))
            && !HasCounted(g, j, n, g.out[n][k])
  {
    var k := j.phase[n].done;
    var r := j.(phase := j.phase[n := Sending(k + 1)]);
    assert g.out[n][..k + 1] == g.out[n][..k] + [g.out[n][k]];
    forall m | m in g.out
      ensures m in Counted(g, r, u) <==> m in Counted(g, j, u) || (m == n && u == g.out[n][k])
    {
      assert m != n ==> HasCounted(g, r, m, u) == HasCounted(g, j, m, u);
    }
  }

  lemma SameSize<T>(a: set<T>, b: set<T>)
    requires a <= b
    ensures |a| <= |b|
    ensures |a| >= |b| <==> a == b
  {
    assert b == a + (b - a);
    assert |b| == |a| + |b - a|;
  }

  /** Handing the frame to a waiting node counts no edge. */
  lemma HandedCountsNothing(g: Graph, j: Join, r: Join, v: NodeId, u: NodeId)
    requires v in j.phase && j.phase[v].Waiting?
    requires r.phase == j.phase || r.phase == j.phase[v := Held]
    ensures Counted(g, r, u) == Counted(g, j, u)
  {
    forall m | m in g.out
      ensures HasCounted(g, r, m, u) == HasCounted(g, j, m, u)
    {}
  }

  function AfterCount(j: Join, n: NodeId): Join
    requires n in j.phase && j.phase[n].Sending?
  {
    j.(phase := j.phase[n := Sending(j.phase[n].done + 1)])
  }

  /** The node whose counter is bumped has not got the frame yet. */
  lemma TargetWaits(g: Graph, j: Join, n: NodeId, flush: bool)
    requires EdgesOk(g) && CountsOk(g, j) && Enabled(g, j, CountEdge(n, flush))
    ensures var v := g.out[n][j.phase[n].done]; var j1 := AfterCount(j, n);
            && v in g.out && v != n && n in In(g, v) && !IsRoot(g, v) && j.phase[v].Waiting?
            && |Counted(g, j1, v)| == j.reqCnt[v] + 1
            && (j.reqCnt[v] + 1 >= |In(g, v)| <==> Counted(g, j1, v) == In(g, v))
  {
    var v := g.out[n][j.phase[n].done];
    var j1 := AfterCount(j, n);
    assert Counted(g, j1, v) == Counted(g, j, v) + {n} && n !in Counted(g, j, v) by {
      CountingAdds(g, j, n, v);
    }
    assert Edge(g, n, v) && n in In(g, v);
    assert j.reqCnt[v] == |Counted(g, j, v)|;
    CountedInside(g, j1, v);
    SameSize(Counted(g, j1, v), In(g, v));
  }

  lemma BumpLogOk(g: Graph, j: Join, v: NodeId, flush: bool)
    requires LogOk(g, j) && v in g.out && v in j.phase && v in j.reqCnt && j.phase[v].Waiting?
    requires j.reqCnt[v] + 1 >= |In(g, v)| ==> forall n | n in In(g, v) :: n in j.phase && !j.phase[n].Waiting?
    ensures LogOk(g, Bump(g, j, v, flush))
  {
    var j1 := j.(reqCnt := j.reqCnt[v := j.reqCnt[v] + 1]);
    assert LogOk(g, j1);
    if j.reqCnt[v] + 1 >= |In(g, v)| {
      HandLogOk(g, j1, v, flush);
    }
  }

  /** Bumping the counter of a waiting node makes it the number of counted edges again, and hands the frame on
      exactly if all edges are counted. */
  lemma BumpAt(g: Graph, j: Join, v: NodeId, flush: bool, u: NodeId)
    requires v in j.phase && v in j.reqCnt && j.phase[v].Waiting? && u in j.phase && u in j.reqCnt
    requires |Counted(g, j, u)| == j.reqCnt[u] + if u == v then 1 else 0
    requires j.reqCnt[v] + 1 >= |In(g, v)| <==> Counted(g, j, v) == In(g, v)
    requires u != v ==> (!j.phase[u].Waiting? <==> Counted(g, j, u) == In(g, u)) || IsRoot(g, u)
    ensures var r := Bump(g, j, v, flush);
            && r.reqCnt[u] == |Counted(g, r, u)|
            && (!IsRoot(g, u) ==> (!r.phase[u].Waiting? <==> Counted(g, r, u) == In(g, u)))
  {
    HandedCountsNothing(g, j, Bump(g, j, v, flush), v, u);
  }

  lemma AfterCountAt(g: Graph, j: Join, n: NodeId, flush: bool, u: NodeId)
    requires EdgesOk(g) && CountsOk(g, j) && Enabled(g, j, CountEdge(n, flush)) && u in g.out
    ensures var v, j1 := g.out[n][j.phase[n].done], AfterCount(j, n);
            && |Counted(g, j1, u)| == j.reqCnt[u] + (if u == v then 1 else 0)
            && (u != v ==> Counted(g, j1, u) == Counted(g, j, u))
  {
    var v := g.out[n][j.phase[n].done];
    CountingAdds(g, j, n, u);
    assert j.reqCnt[u] == |Counted(g, j, u)|;
    if u == v {
      assert n !in Counted(g, j, v);
    }
  }

  lemma AfterCountLog(g: Graph, j: Join, n: NodeId)
    requires LogOk(g, j) && n in j.phase && j.phase[n].Sending?
    ensures LogOk(g, AfterCount(j, n))
  {}

  lemma CountEdgeLog(g: Graph, j: Join, n: NodeId, v: NodeId, flush: bool)
    requires n in j.phase && j.phase[n].Sending? && LogOk(g, j) && v != n && v in g.out
    requires v in j.phase && v in j.reqCnt && j.phase[v].Waiting?
    requires j.reqCnt[v] + 1 >= |In(g, v)| <==> Counted(g, AfterCount(j, n), v) == In(g, v)
    ensures LogOk(g, Bump(g, AfterCount(j, n), v, flush))
  {
    AfterCountLog(g, j, n);
    forall m | m in Counted(g, AfterCount(j, n), v)
      ensures m in AfterCount(j, n).phase && !AfterCount(j, n).phase[m].Waiting?
    {}
    BumpLogOk(g, AfterCount(j, n), v, flush);
  }

  lemma CountEdgeAt(g: Graph, j: Join, n: NodeId, flush: bool, u: NodeId)
    requires EdgesOk(g) && CountsOk(g, j) && Enabled(g, j, CountEdge(n, flush)) && u in g.out
    ensures var r := Make(g, j, CountEdge(n, flush));
            && u in r.reqCnt && u in r.phase && r.reqCnt[u] == |Counted(g, r, u)|
            && (!IsRoot(g, u) ==> (!r.phase[u].Waiting? <==> Counted(g, r, u) == In(g, u)))
  {
    TargetWaits(g, j, n, flush);
    AfterCountAt(g, j, n, flush, u);
    BumpAt(g, AfterCount(j, n), g.out[n][j.phase[n].done], flush, u);
  }

  lemma CountEdgeShape(g: Graph, j: Join, n: NodeId, flush: bool)
    requires EdgesOk(g) && CountsOk(g, j) && Enabled(g, j, CountEdge(n, flush))
    ensures var r := Make(g, j, CountEdge(n, flush));
            && r.phase.Keys == g.out.Keys && r.reqCnt.Keys == g.out.Keys
            && (forall k | k in g.out && r.phase[k].Sending? :: r.phase[k].done <= |g.out[k]|)
  {
    TargetWaits(g, j, n, flush);
  }

  lemma CountEdgeCountsOk(g: Graph, j: Join, n: NodeId, flush: bool)
    requires EdgesOk(g) && CountsOk(g, j) && Enabled(g, j, CountEdge(n, flush))
    ensures CountsOk(g, Make(g, j, CountEdge(n, flush)))
  {
    var r := Make(g, j, CountEdge(n, flush));
    CountEdgeShape(g, j, n, flush);
    forall u | u in g.out
      ensures r.reqCnt[u] == |Counted(g, r, u)|
      ensures !IsRoot(g, u) ==> (!r.phase[u].Waiting? <==> Counted(g, r, u) == In(g, u))
    {
      CountEdgeAt(g, j, n, flush, u);
    }
  }

  lemma MakeOk(g: Graph, j: Join, m: Move)
    requires EdgesOk(g) && JoinOk(g, j) && Enabled(g, j, m)
    ensures JoinOk(g, Make(g, j, m))
  {
    var r := Make(g, j, m);
    match m
    case SendRoot(n, flush) =>
      HandLogOk(g, j, n, flush);
      forall u | u in g.out
        ensures Counted(g, r, u) == Counted(g, j, u)
      {
        HandedCountsNothing(g, j, r, n, u);
      }
    case Begin(n) =>
      forall u | u in g.out
        ensures Counted(g, r, u) == Counted(g, j, u)
      {
        assert g.out[n][..0] == [];
        forall k | k in g.out
          ensures HasCounted(g, r, k, u) == HasCounted(g, j, k, u)
        {}
      }
    case CountEdge(n, flush) =>
      CountEdgeCountsOk(g, j, n, flush);
      TargetWaits(g, j, n, flush);
      CountEdgeLog(g, j, n, g.out[n][j.phase[n].done], flush);
  }

  // ---------------------------------------------------------------- runs

  /** `states` is what the join goes through, starting before any root has the frame, in any interleaving. */
  ghost predicate IsJoinRun(g: Graph, states: seq<Join>, moves: seq<Move>)
    requires EdgesOk(g)
  {
    && |states| == |moves| + 1 && states[0] == Start(g)
    && forall k | 0 <= k < |moves| ::
         && states[k].reqCnt.Keys == g.out.Keys && Enabled(g, states[k], moves[k])
         && states[k + 1] == Make(g, states[k], moves[k])
  }

  lemma {:induction false} JoinRunOk(g: Graph, states: seq<Join>, moves: seq<Move>, k: nat)
    requires EdgesOk(g) && k <= |moves| && IsJoinRun(g, states, moves)
    ensures JoinOk(g, states[k])
  {
    if k == 0 {
      StartOk(g);
    } else {
      JoinRunOk(g, states, moves, k - 1);
      MakeOk(g, states[k - 1], moves[k - 1]);
    }
  }

  ghost function NotBegun(j: Join): set<NodeId> {
    set n | n in j.phase && !j.phase[n].Sending?
  }

  ghost function Uncounted(g: Graph, j: Join): set<(NodeId, NodeId)> {
    set n, v | n in g.out && v in g.out[n] && !HasCounted(g, j, n, v) :: (n, v)
  }

  /** The moves still to come: edges to count, nodes to begin, roots to send to. */
  ghost function Todo(g: Graph, j: Join): nat {
    |Uncounted(g, j)| + |NotBegun(j)| + |RootsWaiting(g, j)|
  }

  ghost function RootsWaiting(g: Graph, j: Join): set<NodeId> {
    set n | n in j.phase && j.phase[n].Waiting? && IsRoot(g, n)
  }

  lemma SameCounts(g: Graph, j: Join, r: Join)
    requires forall n, v | n in g.out && v in g.out[n] :: HasCounted(g, r, n, v) == HasCounted(g, j, n, v)
    ensures Uncounted(g, r) == Uncounted(g, j)
  {}

  lemma SendRootCounts(g: Graph, j: Join, n: NodeId, flush: bool)
    requires EdgesOk(g) && CountsOk(g, j) && Enabled(g, j, SendRoot(n, flush))
    ensures Todo(g, Hand(j, n, flush)) == Todo(g, j) - 1
  {
    var r := Hand(j, n, flush);
    assert RootsWaiting(g, r) == RootsWaiting(g, j) - {n} && n in RootsWaiting(g, j);
    assert NotBegun(r) == NotBegun(j);
    SameCounts(g, j, r);
  }

  lemma BeginCounts(g: Graph, j: Join, n: NodeId)
    requires EdgesOk(g) && CountsOk(g, j) && Enabled(g, j, Begin(n))
    ensures Todo(g, Make(g, j, Begin(n))) == Todo(g, j) - 1
  {
    var r := Make(g, j, Begin(n));
    assert RootsWaiting(g, r) == RootsWaiting(g, j);
    assert NotBegun(r) == NotBegun(j) - {n} && n in NotBegun(j);
    assert g.out[n][..0] == [];
    SameCounts(g, j, r);
  }

  lemma CountEdgeAdds(g: Graph, j: Join, n: NodeId, flush: bool, a: NodeId, u: NodeId)
    requires EdgesOk(g) && CountsOk(g, j) && Enabled(g, j, CountEdge(n, flush)) && a in g.out
    ensures HasCounted(g, Make(g, j, CountEdge(n, flush)), a, u) <==>
            HasCounted(g, j, a, u) || (a == n && u == g.out[n][j.phase[n].done])
  {
    var r := Make(g, j, CountEdge(n, flush));
    TargetWaits(g, j, n, flush);
    CountingAdds(g, j, n, u);
    HandedCountsNothing(g, AfterCount(j, n), r, g.out[n][j.phase[n].done], u);
    assert a in Counted(g, r, u) <==> HasCounted(g, r, a, u);
    assert a in Counted(g, j, u) <==> HasCounted(g, j, a, u);
  }

  lemma CountEdgeUncounted(g: Graph, j: Join, n: NodeId, flush: bool)
    requires EdgesOk(g) && CountsOk(g, j) && Enabled(g, j, CountEdge(n, flush))
    ensures var v := g.out[n][j.phase[n].done];
            && (n, v) in Uncounted(g, j)
            && Uncounted(g, Make(g, j, CountEdge(n, flush))) == Uncounted(g, j) - {(n, v)}
  {
    var v := g.out[n][j.phase[n].done];
    var r := Make(g, j, CountEdge(n, flush));
    CountingAdds(g, j, n, v);
    forall a, u | a in g.out && u in g.out[a]
      ensures HasCounted(g, r, a, u) <==> HasCounted(g, j, a, u) || (a == n && u == v)
    {
      CountEdgeAdds(g, j, n, flush, a, u);
    }
  }

  lemma BumpNotBegun(g: Graph, j: Join, n: NodeId, v: NodeId, flush: bool)
    requires n in j.phase && j.phase[n].Sending? && v in j.phase && v in j.reqCnt && v != n
    requires j.phase[v].Waiting? && !IsRoot(g, v)
    ensures var r := Bump(g, AfterCount(j, n), v, flush);
            RootsWaiting(g, r) == RootsWaiting(g, j) && NotBegun(r) == NotBegun(j)
  {
    var r := Bump(g, AfterCount(j, n), v, flush);
    assert RootsWaiting(g, r) == RootsWaiting(g, j);
    assert NotBegun(r) == NotBegun(j);
  }

  lemma CountEdgeCounts(g: Graph, j: Join, n: NodeId, flush: bool)
    requires EdgesOk(g) && CountsOk(g, j) && Enabled(g, j, CountEdge(n, flush))
    ensures Todo(g, Make(g, j, CountEdge(n, flush))) == Todo(g, j) - 1
  {
    CountEdgeUncounted(g, j, n, flush);
    TargetWaits(g, j, n, flush);
    BumpNotBegun(g, j, n, g.out[n][j.phase[n].done], flush);
  }

  /** Every move, whichever it is, takes exactly one from what is left to do. */
  lemma EveryMoveCounts(g: Graph, j: Join, m: Move)
    requires EdgesOk(g) && CountsOk(g, j) && Enabled(g, j, m)
    ensures Todo(g, Make(g, j, m)) == Todo(g, j) - 1
  {
    match m
    case SendRoot(n, flush) => SendRootCounts(g, j, n, flush);
    case Begin(n) => BeginCounts(g, j, n);
    case CountEdge(n, flush) => CountEdgeCounts(g, j, n, flush);
  }

  /** Nothing can move any more. */
  ghost predicate Quiescent(g: Graph, j: Join) {
    forall m :: !Enabled(g, j, m)
  }

  lemma {:induction false} AllHanded(g: Graph, j: Join, k: nat)
    requires GraphOk(g) && CountsOk(g, j) && Quiescent(g, j) && k <= |g.order|
    ensures forall i | 0 <= i < k :: g.order[i] in j.phase && j.phase[g.order[i]] == Sending(|g.out[g.order[i]]|)
  {
    if k > 0 {
      AllHanded(g, j, k - 1);
      var v := g.order[k - 1];
      assert v in g.out;
      forall n | n in In(g, v)
        ensures n in Counted(g, j, v)
      {
        assert n in g.order && Edge(g, n, v);
        var i :| 0 <= i < |g.order| && g.order[i] == n;
        assert i < k - 1;
        assert g.out[n][..|g.out[n]|] == g.out[n];
      }
      assert Counted(g, j, v) == In(g, v);
      assert !Enabled(g, j, SendRoot(v, false));
      assert !Enabled(g, j, Begin(v));
      assert !Enabled(g, j, CountEdge(v, false));
    }
  }

  /** When nothing can move, every node has had the frame and counted all its edges. */
  lemma QuietMeansAllSent(g: Graph, j: Join)
    requires GraphOk(g) && CountsOk(g, j) && Quiescent(g, j)
    ensures forall n | n in g.out :: n in j.phase && j.phase[n] == Sending(|g.out[n]|)
    ensures Todo(g, j) == 0
  {
    AllHanded(g, j, |g.order|);
    forall n | n in g.out
      ensures n in j.phase && j.phase[n] == Sending(|g.out[n]|)
    {
      assert n in g.order;
    }
    forall n, v | n in g.out && v in g.out[n]
      ensures HasCounted(g, j, n, v)
    {
      assert g.out[n][..|g.out[n]|] == g.out[n];
    }
    assert Uncounted(g, j) == {} && NotBegun(j) == {};
    assert RootsWaiting(g, j) == {};
  }

  // ---------------------------------------------------------------- main results

  ghost predicate HandedOnce(log: seq<HandOff>, n: NodeId) {
    exists k :: 0 <= k < |log| && log[k].node == n && forall l | 0 <= l < |log| && l != k :: log[l].node != n
  }

  lemma HandedAfterAll(g: Graph, j: Join, v: NodeId)
    requires EdgesOk(g) && JoinOk(g, j) && HandedTo(j.log, v) && v in g.out
    ensures forall n | n in In(g, v) :: HasCounted(g, j, n, v)
  {
    if !IsRoot(g, v) {
      assert Counted(g, j, v) == In(g, v);
      forall n | n in In(g, v)
        ensures HasCounted(g, j, n, v)
      {
        assert n in Counted(g, j, v);
      }
    }
  }

  lemma HandedIsOnce(log: seq<HandOff>, v: NodeId)
    requires forall k, l | 0 <= k < l < |log| :: log[k].node != log[l].node
    ensures HandedTo(log, v) ==> HandedOnce(log, v)
  {
    if HandedTo(log, v) {
      var i :| 0 <= i < |log| && log[i].node == v;
      assert forall l | 0 <= l < |log| && l != i :: log[l].node != v;
    }
  }

  /** In every interleaving a node gets the frame at most once, by queue or by flush, and only after every node
      before it got the frame, began to dispatch and counted the edge. */
  lemma HandOffsAreOrdered(g: Graph, states: seq<Join>, moves: seq<Move>, k: nat, v: NodeId)
    requires EdgesOk(g) && k <= |moves| && IsJoinRun(g, states, moves) && v in g.out
    ensures HandedTo(states[k].log, v) ==> HandedOnce(states[k].log, v)
    ensures HandedTo(states[k].log, v) ==> forall n | n in In(g, v) :: HasCounted(g, states[k], n, v)
    ensures forall i | 0 <= i < |states[k].log| && states[k].log[i].node == v ::
              forall n | n in In(g, v) :: HandedTo(states[k].log[..i], n)
  {
    JoinRunOk(g, states, moves, k);
    HandedIsOnce(states[k].log, v);
    if HandedTo(states[k].log, v) {
      HandedAfterAll(g, states[k], v);
    }
  }

  /** Every interleaving has the same length: one move per edge, per node and per root. It ends with every
      node handed the frame exactly once. */
  lemma {:induction false} EveryRunIsAsLong(g: Graph, states: seq<Join>, moves: seq<Move>)
    requires GraphOk(g) && IsJoinRun(g, states, moves)
    ensures |moves| <= Todo(g, Start(g))
    ensures Quiescent(g, states[|moves|]) ==>
              && |moves| == Todo(g, Start(g))
              && forall n | n in g.out :: HandedOnce(states[|moves|].log, n)
  {
    TodoAfter(g, states, moves, |moves|);
    if Quiescent(g, states[|moves|]) {
      JoinRunOk(g, states, moves, |moves|);
      QuietMeansAllSent(g, states[|moves|]);
      forall n | n in g.out
        ensures HandedOnce(states[|moves|].log, n)
      {
        HandOffsAreOrdered(g, states, moves, |moves|, n);
      }
    }
  }

  lemma {:induction false} TodoAfter(g: Graph, states: seq<Join>, moves: seq<Move>, k: nat)
    requires EdgesOk(g) && k <= |moves| && IsJoinRun(g, states, moves)
    ensures Todo(g, states[k]) == Todo(g, Start(g)) - k
  {
    if k > 0 {
      TodoAfter(g, states, moves, k - 1);
      JoinRunOk(g, states, moves, k - 1);
      EveryMoveCounts(g, states[k - 1], moves[k - 1]);
    }
  }

  // ---------------------------------------------------------------- the dispatcher itself

  /** What is read when a counter is complete: the flag as beginFlush or endFlush left it, and whether the frame has
      been aborted. Both may change from one edge to the next. */
  datatype Reading = Reading(inFlush: bool, aborted: bool) {
    predicate Flush() {
      inFlush || aborted
    }
  }

  /** The counters after, and the calls made for, the nodes of a list. */
  datatype Bumped = Bumped(reqCnt: map<NodeId, nat>, handed: seq<HandOff>)

  function BumpFirst(g: Graph, reqCnt: map<NodeId, nat>, next: seq<NodeId>, k: nat, at: seq<Reading>): (r: Bumped)
    requires k <= |next| <= |at| && forall v | v in next :: v in reqCnt
    ensures r.reqCnt.Keys == reqCnt.Keys
  {
    if k == 0 then Bumped(reqCnt, [])
    else
      var b, v := BumpFirst(g, reqCnt, next, k - 1, at), next[k - 1];
      Bumped(b.reqCnt[v := b.reqCnt[v] + 1],
             if b.reqCnt[v] + 1 >= |In(g, v)| then b.handed + [HandOff(v, at[k - 1].Flush())] else b.handed)
  }

  function BumpAll(g: Graph, reqCnt: map<NodeId, nat>, next: seq<NodeId>, at: seq<Reading>): (r: Bumped)
    requires |next| <= |at| && forall v | v in next :: v in reqCnt
  {
    BumpFirst(g, reqCnt, next, |next|, at)
  }

  lemma BumpNext(g: Graph, before: map<NodeId, nat>, next: seq<NodeId>, k: nat, at: seq<Reading>,
                 reqCnt: map<NodeId, nat>, handed: seq<HandOff>)
    requires k < |next| <= |at| && (forall v | v in next :: v in before)
    requires Bumped(reqCnt, handed) == BumpFirst(g, before, next, k, at)
    ensures next[k] in reqCnt
    ensures BumpFirst(g, before, next, k + 1, at) ==
            Bumped(reqCnt[next[k] := reqCnt[next[k]] + 1],
                   if reqCnt[next[k]] + 1 >= |In(g, next[k])| then handed + [HandOff(next[k], at[k].Flush())]
                   else handed)
  {}

  ghost predicate AllDifferent(next: seq<NodeId>) {
    forall i, j | 0 <= i < j < |next| :: next[i] != next[j]
  }

  /** The call for place `i` of the list: it is made if this edge completes the counter, and is a flush if the dispatcher
      was flushing or the frame aborted when the edge was counted. */
  ghost predicate CallFor(g: Graph, reqCnt: map<NodeId, nat>, next: seq<NodeId>, at: seq<Reading>, i: nat, h: HandOff)
    requires i < |next| <= |at| && forall v | v in next :: v in reqCnt
  {
    && h.node == next[i] && reqCnt[next[i]] + 1 >= |In(g, next[i])|
    && h.flush == (at[i].inFlush || at[i].aborted)
  }

  lemma {:induction false} BumpsOnce(g: Graph, reqCnt: map<NodeId, nat>, next: seq<NodeId>, k: nat, at: seq<Reading>)
    requires k <= |next| <= |at| && (forall v | v in next :: v in reqCnt) && AllDifferent(next)
    ensures forall v | v in reqCnt :: BumpFirst(g, reqCnt, next, k, at).reqCnt[v] == reqCnt[v] + if v in next[..k] then 1 else 0
  {
    if k > 0 {
      BumpsOnce(g, reqCnt, next, k - 1, at);
      assert next[..k] == next[..k - 1] + [next[k - 1]];
      assert next[k - 1] !in next[..k - 1];
    }
  }

  ghost predicate IsCalled(g: Graph, reqCnt: map<NodeId, nat>, next: seq<NodeId>, at: seq<Reading>, k: nat, h: HandOff)
    requires k <= |next| <= |at| && forall v | v in next :: v in reqCnt
  {
    exists i :: 0 <= i < k && CallFor(g, reqCnt, next, at, i, h)
  }

  lemma CalledNext(g: Graph, reqCnt: map<NodeId, nat>, next: seq<NodeId>, k: nat, at: seq<Reading>, h: HandOff)
    requires k < |next| <= |at| && (forall v | v in next :: v in reqCnt) && AllDifferent(next)
    ensures var b, c := BumpFirst(g, reqCnt, next, k, at), BumpFirst(g, reqCnt, next, k + 1, at);
            h in c.handed <==> h in b.handed || CallFor(g, reqCnt, next, at, k, h)
  {
    BumpsOnce(g, reqCnt, next, k, at);
    assert next[k] !in next[..k];
    assert BumpFirst(g, reqCnt, next, k, at).reqCnt[next[k]] == reqCnt[next[k]];
  }

  lemma IsCalledNext(g: Graph, reqCnt: map<NodeId, nat>, next: seq<NodeId>, k: nat, at: seq<Reading>, h: HandOff)
    requires k < |next| <= |at| && forall v | v in next :: v in reqCnt
    ensures IsCalled(g, reqCnt, next, at, k + 1, h) <==>
            IsCalled(g, reqCnt, next, at, k, h) || CallFor(g, reqCnt, next, at, k, h)
  {}

  lemma {:induction false} HandsFirst(g: Graph, reqCnt: map<NodeId, nat>, next: seq<NodeId>, k: nat, at: seq<Reading>,
                                      h: HandOff)
    requires k <= |next| <= |at| && (forall v | v in next :: v in reqCnt) && AllDifferent(next)
    ensures h in BumpFirst(g, reqCnt, next, k, at).handed <==> IsCalled(g, reqCnt, next, at, k, h)
  {
    if k > 0 {
      HandsFirst(g, reqCnt, next, k - 1, at, h);
      CalledNext(g, reqCnt, next, k - 1, at, h);
      IsCalledNext(g, reqCnt, next, k - 1, at, h);
    }
  }

  /** A dispatch hands the frame to a node after it if and only if that node's counter lacked just this edge, and by flush
      if and only if the dispatcher was flushing or the frame aborted at that moment. */
  lemma HandedOnIff(g: Graph, reqCnt: map<NodeId, nat>, n: NodeId, at: seq<Reading>, i: nat, flush: bool)
    requires EdgesOk(g) && reqCnt.Keys == g.out.Keys && n in g.out && i < |g.out[n]| <= |at|
    ensures HandOff(g.out[n][i], flush) in BumpAll(g, reqCnt, g.out[n], at).handed <==>
            reqCnt[g.out[n][i]] + 1 >= |In(g, g.out[n][i])| && flush == (at[i].inFlush || at[i].aborted)
  {
    var next, h := g.out[n], HandOff(g.out[n][i], flush);
    HandsFirst(g, reqCnt, next, |next|, at, h);
    if j :| 0 <= j < |next| && CallFor(g, reqCnt, next, at, j, h) {
      assert j == i;
    } else {
      assert !CallFor(g, reqCnt, next, at, i, h);
    }
  }

  /** One counter was bumped, and the frame handed on if that completed it. */
  ghost predicate Turned(g: Graph, j: Join, r: Join, v: NodeId, flush: bool) {
    && v in j.reqCnt && r.reqCnt == j.reqCnt[v := j.reqCnt[v] + 1]
    && r.log == if j.reqCnt[v] + 1 >= |In(g, v)| then j.log + [HandOff(v, flush)] else j.log
  }

  lemma CountEdgeBumps(g: Graph, j: Join, n: NodeId, flush: bool)
    requires EdgesOk(g) && j.reqCnt.Keys == g.out.Keys && Enabled(g, j, CountEdge(n, flush))
    ensures Turned(g, j, Make(g, j, CountEdge(n, flush)), g.out[n][j.phase[n].done], flush)
  {}

  /** Node `n` counts all its edges, one after the other. */
  ghost predicate SendsAll(g: Graph, states: seq<Join>, n: NodeId, at: seq<Reading>) {
    && EdgesOk(g) && n in g.out && |states| == |g.out[n]| + 1 && |g.out[n]| <= |at|
    && (forall k | 0 <= k < |states| :: states[k].reqCnt.Keys == g.out.Keys)
    && (forall k | 0 <= k < |g.out[n]| ::
          && n in states[k].phase && states[k].phase[n] == Sending(k)
          && states[k + 1] == Make(g, states[k], CountEdge(n, at[k].Flush())))
  }

  ghost predicate AllTurned(g: Graph, states: seq<Join>, next: seq<NodeId>, at: seq<Reading>) {
    && |states| == |next| + 1 && |next| <= |at|
    && forall i {:trigger next[i]} | 0 <= i < |next| :: Turned(g, states[i], states[i + 1], next[i], at[i].Flush())
  }

  lemma {:induction false} TurnsAreBumps(g: Graph, states: seq<Join>, next: seq<NodeId>, k: nat, at: seq<Reading>)
    requires |states| == |next| + 1 && (forall v | v in next :: v in states[0].reqCnt) && k <= |next|
    requires AllTurned(g, states, next, at)
    ensures var b := BumpFirst(g, states[0].reqCnt, next, k, at);
            states[k].reqCnt == b.reqCnt && states[k].log == states[0].log + b.handed
  {
    if k == 0 {
      assert states[0].log + [] == states[0].log;
    } else {
      TurnsAreBumps(g, states, next, k - 1, at);
      TurnIsBump(g, states[0], states[k - 1], states[k], next, k, at);
    }
  }

  lemma TurnIsBump(g: Graph, first: Join, j: Join, r: Join, next: seq<NodeId>, k: nat, at: seq<Reading>)
    requires 0 < k <= |next| <= |at| && (forall v | v in next :: v in first.reqCnt)
    requires Turned(g, j, r, next[k - 1], at[k - 1].Flush())
    requires var b := BumpFirst(g, first.reqCnt, next, k - 1, at);
             j.reqCnt == b.reqCnt && j.log == first.log + b.handed
    ensures var b := BumpFirst(g, first.reqCnt, next, k, at);
            r.reqCnt == b.reqCnt && r.log == first.log + b.handed
  {
    LogGrows(first.log, BumpFirst(g, first.reqCnt, next, k - 1, at).handed, HandOff(next[k - 1], at[k - 1].Flush()));
  }

  lemma LogGrows(log: seq<HandOff>, handed: seq<HandOff>, h: HandOff)
    ensures (log + handed) + [h] == log + (handed + [h])
  {}

  /** The loop of onDispatchFrame makes exactly the moves of the join, each with the flag as it is read at its edge. */
  lemma LoopIsSending(g: Graph, states: seq<Join>, n: NodeId, at: seq<Reading>)
    requires SendsAll(g, states, n, at)
    ensures var b := BumpAll(g, states[0].reqCnt, g.out[n], at);
            states[|states| - 1].reqCnt == b.reqCnt && states[|states| - 1].log == states[0].log + b.handed
  {
    forall k | 0 <= k < |g.out[n]|
      ensures Turned(g, states[k], states[k + 1], g.out[n][k], at[k].Flush())
    {
      CountEdgeBumps(g, states[k], n, at[k].Flush());
    }
    TurnsAreBumps(g, states, g.out[n], |g.out[n]|, at);
  }

  /** The part of PipelineDAGImp that changes: the request counter of every node. */
  class FrameDag {
    const graph: Graph
    var reqCnt: map<NodeId, nat>

    constructor (g: Graph)
      ensures graph == g && reqCnt == Start(g).reqCnt
    {
      graph := g;
      reqCnt := map n | n in g.out :: 0;
    }
  }

  class DefaultDispatcher {
    var inFlush: bool

    constructor ()
      ensures !inFlush
    {
      inFlush := false;
    }

    method BeginFlush()
      modifies this
      ensures inFlush
    {
      inFlush := true;
    }

    method EndFlush()
      modifies this
      ensures !inFlush
    {
      inFlush := false;
    }

    /** onDispatchFrame: bumps the counter of every node after `n`, in order, and reports the calls of queue and
        flush that it makes. The lock of the flag is taken anew for each edge, so `at` says what others have made of
        the flag, and of the frame, by the time of each. */
    method OnDispatchFrame(dag: FrameDag, n: NodeId, at: seq<Reading>) returns (handed: seq<HandOff>)
      requires EdgesOk(dag.graph) && dag.reqCnt.Keys == dag.graph.out.Keys && n in dag.graph.out
      requires |dag.graph.out[n]| <= |at|
      modifies dag, this
      ensures var b := BumpAll(dag.graph, old(dag.reqCnt), dag.graph.out[n], at);
              dag.reqCnt == b.reqCnt && handed == b.handed
    {
      handed := [];
      var next := dag.graph.out[n];
      ghost var before := dag.reqCnt;
      for i := 0 to |next|
        invariant Bumped(dag.reqCnt, handed) == BumpFirst(dag.graph, before, next, i, at)
      {
        BumpNext(dag.graph, before, next, i, at, dag.reqCnt, handed);
        inFlush := at[i].inFlush;
        var call := CountIn(dag, next[i], at[i].aborted);
        handed := if call.Some? then handed + [call.value] else handed;
      }
    }

    /** One out-edge: the counter of its node, and the call if the counter is complete. */
    method CountIn(dag: FrameDag, v: NodeId, aborted: bool) returns (call: Option<HandOff>)
      requires v in dag.reqCnt
      modifies dag
      ensures dag.reqCnt == old(dag.reqCnt)[v := old(dag.reqCnt)[v] + 1]
      ensures call == if dag.reqCnt[v] >= |In(dag.graph, v)| then Some(HandOff(v, inFlush || aborted)) else None
    {
      dag.reqCnt := dag.reqCnt[v := dag.reqCnt[v] + 1];
      call := if dag.reqCnt[v] >= |In(dag.graph, v)| then Some(HandOff(v, inFlush || aborted)) else None;
    }
  }
}

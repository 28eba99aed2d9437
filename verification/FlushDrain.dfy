/** Flushing a frame (BaseNode::flush with the dispatcher and the frame): nodes get the frame one after the other,
    let go of every stream, apply the release and hand the frame on, all of it interleaved with anything else that
    may happen to the frame. Once no node holds the frame any more, nothing is left in it. */
module FlushDrain {
  import opened Users
  import opened Wrappers
  import opened FrameModel
  import opened WorldFacts
  import opened FrameInvariant
  import opened Conservation
  import opened MetaReport
  import opened FrameRuns
  import opened FrameConfiguration
  import opened FrameLife
  import D = Dispatch

  // ---------------------------------------------------------------- what no step takes back

  /** `b` can be reached from `a` by marking users and by adding consumers that were unknown before. */
  ghost predicate Extends(a: Users, b: Users) {
    && b.active == a.active && b.producers == a.producers && a.consumers <= b.consumers
    && (forall u | u in b.consumers && u !in a.consumers :: u !in a.prior)
    && (forall u | u in a.prior :: u in b.prior && b.prior[u] == a.prior[u])
    && a.released <= b.released && a.preReleased <= b.preReleased && a.stillUse <= b.stillUse
  }

  /** Users that are not forgotten only move on; `late` says that a consumer may have been added. */
  ghost predicate LaterUsers(a: Users, b: Users, late: bool) {
    b.active ==> Extends(a, b) && (late || b.consumers == a.consumers)
  }

  /** All who were users of `a` are done in `b`. */
  ghost predicate EarlierDone(a: Users, b: Users) {
    forall u | a.IsUser(u) :: b.Done(u)
  }

  /** Users only move on or are forgotten, items that leave a map have been let go of by all they had, and metas keep
      their buffers. Only the items in `at` may get a consumer. */
  ghost predicate LaterWorld(w: World, r: World, at: set<ItemId>) {
    && r.items.Keys == w.items.Keys && r.mapped <= w.mapped
    && (forall i | i in w.items :: LaterUsers(w.items[i].users, r.items[i].users, i in at))
    && (forall i | i in w.items && i in w.mapped && i !in r.mapped ::
          r.items[i].users.active ==> EarlierDone(w.items[i].users, r.items[i].users))
    && (forall i | i in w.items && IsMeta(i.kind) :: r.items[i].buffer == w.items[i].buffer)
  }

  /** Nodes only drop items from their lists. */
  ghost predicate LaterNodes(nodes: Nodes, after: Nodes) {
    && after.Keys == nodes.Keys
    && (forall n, i | n in nodes && after[n].Lists(i) :: nodes[n].Lists(i))
  }

  ghost predicate Later(f: Frame, g: Frame, at: set<ItemId>) {
    LaterWorld(f.w, g.w, at) && LaterNodes(f.nodes, g.nodes)
  }

  lemma ExtendsTrans(a: Users, b: Users, c: Users)
    requires Extends(a, b) && Extends(b, c)
    ensures Extends(a, c)
  {}

  lemma LaterWorldTrans(w: World, m: World, r: World)
    requires LaterWorld(w, m, {}) && LaterWorld(m, r, {})
    ensures LaterWorld(w, r, {})
  {
    forall i | i in w.items
      ensures LaterUsers(w.items[i].users, r.items[i].users, false)
      ensures i in w.mapped && i !in r.mapped && r.items[i].users.active ==>
                EarlierDone(w.items[i].users, r.items[i].users)
    {
      var a, b, c := w.items[i].users, m.items[i].users, r.items[i].users;
      assert LaterUsers(a, b, false) && LaterUsers(b, c, false);
      if c.active {
        ExtendsTrans(a, b, c);
      }
    }
  }

  lemma LaterTrans(f: Frame, m: Frame, g: Frame)
    requires Later(f, m, {}) && Later(m, g, {})
    ensures Later(f, g, {})
  {
    LaterWorldTrans(f.w, m.w, g.w);
  }

  lemma QuietLater(f: Frame, g: Frame)
    requires Quiet(f, g) && Refined(f.w, g.w)
    ensures Later(f, g, {})
  {
    forall i | i in f.w.items
      ensures Grows(f.w.items[i].users, g.w.items[i].users)
      ensures IsMeta(i.kind) ==> g.w.items[i].buffer == f.w.items[i].buffer
    {
      assert QuietItem(f.w.items[i], g.w.items[i], i in f.w.mapped, IsImage(i.kind));
    }
  }

  lemma EffectLater(w: World, r: World, n: NodeId, ios: seq<ItemId>)
    requires Effect(w, r, n, ios) && r.mapped <= r.items.Keys
    ensures LaterWorld(w, r, {})
  {
    forall i | i in w.items
      ensures LaterUsers(w.items[i].users, r.items[i].users, false) && r.items[i].buffer == w.items[i].buffer
    {
      assert SameButBits(w.items[i], r.items[i]);
    }
  }

  lemma UpdateNodeLater(w: World, n: NodeId, ns: NodeStatus)
    requires WorldOk(w) && KnownNode(w, ns) && SetsOk(ns)
    ensures LaterWorld(w, UpdateNode(w, n, ns).w, {})
    ensures forall i | UpdateNode(w, n, ns).ns.Lists(i) :: ns.Lists(i)
  {
    UpdateNodeEffect(w, n, ns);
    var u := UpdateNode(w, n, ns);
    EffectLater(w, u.w, n, Listed(ns));
  }

  lemma RunUpdaterLater(f: Frame, n: NodeId, roster: Roster)
    requires FrameOk(f, roster)
    ensures Later(f, RunUpdater(f, n).f, {})
  {
    if n in f.nodes {
      assert KnownNode(f.w, f.nodes[n]) && SetsOk(f.nodes[n]);
      UpdateNodeLater(f.w, n, f.nodes[n]);
    } else {
      assert Later(f, f, {});
    }
  }

  lemma AiawbLater(w: World, keys: seq<StreamId>)
    requires WorldOk(w) && KeysKnown(w, keys)
    ensures LaterWorld(w, ReleaseDoneImages(w, keys), {})
  {
    ReleaseDoneImagesOk(w, keys);
    var r := ReleaseDoneImages(w, keys);
    forall i | i in w.items
      ensures LaterUsers(w.items[i].users, r.items[i].users, false) && r.items[i].buffer == w.items[i].buffer
      ensures i in w.mapped && i !in r.mapped ==> EarlierDone(w.items[i].users, r.items[i].users)
    {
      assert SameButBits(w.items[i], r.items[i]);
    }
  }

  lemma SameLater(f: Frame)
    ensures Later(f, f, {})
  {}

  lemma ApplyReleaseLater(f: Frame, n: NodeId, realTime: bool, alive: Alive, roster: Roster)
    requires FrameOk(f, roster)
    ensures Later(f, ApplyRelease(f, n, realTime, alive), {})
  {
    UpdateKeepsKeys(f, n);
    UpdateForReleaseOk(f, n, roster);
    var r := UpdateForRelease(f, n).f;
    assert Later(f, r, {}) by {
      SameLater(f);
      RunUpdaterLater(f, n, roster);
    }
    var a := AiawbRelease(r, n);
    assert LaterWorld(r.w, a.w, {}) by {
      SameLater(r);
      AiawbLater(r.w, r.w.halKeys);
    }
    LaterWorldTrans(f.w, r.w, a.w);
    assert LaterWorld(f.w, a.w.(collector := a.w.collector.Drained()), {});
  }

  lemma TransferLater(f: Frame, roster: Roster)
    requires FrameOk(f, roster)
    ensures Later(f, TransferImages(f), {})
  {
    SameLater(f);
    ResetUsersEffect(f.w.items, f.pendingImage.buffers);
  }

  lemma NextLater(f: Frame, step: Step, roster: Roster, given: set<ItemId>)
    requires RunOk(f, roster, given) && Allowed(f, step)
    ensures Later(f, Next(f, step), GetsConsumer(step))
  {
    assert Later(f, f, {});
    match step
    case Mark(s, u, status) =>
      var i := FindItem(f.w, s);
      if i.Some? && i.value in f.w.mapped && i.value in f.w.items {
        MarkLater(f, i.value, u, status, roster);
      }
    case Get(image, s, u, halAsk, appAsk) =>
      GetStreamOk(f, image, s, u, halAsk, appAsk, roster);
      GetStreamQuiet(f, image, s, u, halAsk, appAsk, roster, given);
      QuietLater(f, GetStream(f, image, s, u, halAsk, appAsk).f);
    case MarkBuffer(i, u, status) => MarkLater(f, i, u, status, roster);
    case Release(n, realTime, alive) => ApplyReleaseLater(f, n, realTime, alive, roster);
    case PreRelease(n, alive) => RunUpdaterLater(f, n, roster);
    case Transfer => TransferLater(f, roster);
    case AddConsumer(i, u) => AddConsumerLater(f, i, u);
    case Keep(_, _, _, _, _) =>
  }

  /** The item that gets a late consumer, if there is one. */
  function GetsConsumer(step: Step): set<ItemId> {
    if step.AddConsumer? then {step.item} else {}
  }

  lemma AddConsumerLater(f: Frame, i: ItemId, u: UserId)
    requires i in f.w.items && IsImage(i.kind)
    ensures Later(f, f.(w := WithUsers(f.w, i, WithConsumer(f.w.items[i].users, u))), {i})
  {}

  lemma MarkLater(f: Frame, i: ItemId, u: UserId, s: Status, roster: Roster)
    requires FrameOk(f, roster) && i in f.w.items
    ensures Later(f, MarkItem(f, i, u, s), {})
  {
    MarkItemOk(f, i, u, s, roster);
    MarkQuiet(f, i, u, s);
    QuietLater(f, MarkItem(f, i, u, s));
  }

  // ---------------------------------------------------------------- flushing one stream

  /** One turn of a loop of BaseNode::flush: ask for the buffer, and if there is one, mark it as released. */
  function FlushStream(f: Frame, image: bool, s: StreamId, n: NodeId, halAsk: Outcome, appAsk: Outcome): Frame {
    var g := GetStream(f, image, s, n, halAsk, appAsk);
    if g.item.Some? && g.item.value in g.f.w.items then MarkItem(g.f, g.item.value, n, RELEASE) else g.f
  }

  lemma FlushStreamRun(f: Frame, image: bool, s: StreamId, n: NodeId, halAsk: Outcome, appAsk: Outcome,
                       roster: Roster, given: set<ItemId>)
    requires RunOk(f, roster, given) && Honest(halAsk, s) && Honest(appAsk, s)
    ensures var g := FlushStream(f, image, s, n, halAsk, appAsk); RunOk(g, roster, given) && Later(f, g, {})
  {
    var g := GetStream(f, image, s, n, halAsk, appAsk);
    GetStreamRun(f, image, s, n, halAsk, appAsk, roster, given);
    NextLater(f, Get(image, s, n, halAsk, appAsk), roster, given);
    if g.item.Some? && g.item.value in g.f.w.items {
      MarkItemRun(g.f, g.item.value, n, RELEASE, roster, given);
      MarkLater(g.f, g.item.value, n, RELEASE, roster);
      LaterTrans(f, g.f, MarkItem(g.f, g.item.value, n, RELEASE));
    }
  }

  /** The user has nothing left to do with the item. */
  predicate LetGo(f: Frame, i: ItemId, n: NodeId) {
    i in f.w.items ==> !Keeps(f.w.items[i].users, n)
  }

  lemma LetGoStays(f: Frame, g: Frame, at: set<ItemId>, i: ItemId, n: NodeId)
    requires Later(f, g, at) && LetGo(f, i, n)
    ensures LetGo(g, i, n)
  {
    if i in f.w.items {
      assert LaterUsers(f.w.items[i].users, g.w.items[i].users, i in at);
    }
  }

  /** What a node must find when it is flushed: it uses the item, the users ahead are done, and there is a buffer
      or a live provider to ask for one. */
  predicate Flushable(f: Frame, i: ItemId, n: NodeId, ask: Outcome) {
    && i in f.w.items
    && (f.w.items[i].users.active ==> f.w.items[i].users.IsUser(n))
    && (i in f.w.mapped ==> f.w.items[i].users.MayAcquire(n))
    && (i !in f.w.mapped && f.w.items[i].users.active ==> f.w.items[i].users.Done(n))
    && (if IsImage(i.kind) then !ask.Gone? else f.w.items[i].buffer.Some?)
  }

  /** getBufferLocked either marks the user as released, or returns the buffer, or the user had released before. */
  lemma GetBufferSettles(f: Frame, i: ItemId, n: NodeId, ask: Outcome, roster: Roster)
    requires FrameOk(f, roster) && Flushable(f, i, n, ask)
    ensures var g := GetBuffer(f, i, n, ask);
            && i in g.f.w.items && (g.item == Some(i) || LetGo(g.f, i, n)) && (g.item.Some? ==> g.item == Some(i))
            && (i in f.w.mapped ==> g.item == Some(i) || n in g.f.w.items[i].users.released)
            && (i in f.w.mapped ==> g.f.w.items[i].users.active && g.f.w.items[i].users.IsUser(n))
  {
    assert ItemOk(f.w, i);
    var us := f.w.items[i].users;
    if i in f.w.mapped {
      assert i in OfKind(f.w.mapped, i.kind);
      assert f.w.counts.At(i.kind) == |OfKind(f.w.mapped, i.kind)|;
      if us.AllReleased() {
        assert us.Done(n);
      }
    } else {
      assert us.active ==> us.Done(n);
    }
  }

  lemma GetBufferMisses(f: Frame, i: ItemId, n: NodeId, ask: Outcome)
    requires i !in f.w.items
    ensures GetBuffer(f, i, n, ask) == Got(f, None)
  {}

  /** After its turn the node has let go of the stream, by RELEASE if the item is still mapped, whatever the provider
      answered. */
  lemma FlushStreamLetsGo(f: Frame, image: bool, s: StreamId, n: NodeId, halAsk: Outcome, appAsk: Outcome,
                          i: ItemId, roster: Roster)
    requires FrameOk(f, roster)
    requires i.stream == s && IsImage(i.kind) == image
    requires Flushable(f, i, n, if i.kind == HalImage || i.kind == HalMeta then halAsk else appAsk)
    requires forall k | k in f.w.items && k.stream == s && IsImage(k.kind) == image :: k == i
    ensures var g := FlushStream(f, image, s, n, halAsk, appAsk);
            && LetGo(g, i, n) && i in g.w.items && (i in f.w.mapped ==> n in g.w.items[i].users.released)
  {
    var hal := ItemId(if image then HalImage else HalMeta, s);
    var app := ItemId(if image then AppImage else AppMeta, s);
    if i == hal {
      GetBufferSettles(f, hal, n, halAsk, roster);
      var g := GetBuffer(f, hal, n, halAsk);
      if g.item.None? {
        AcquireKeys(f, hal, n, halAsk);
        GetBufferMisses(g.f, app, n, appAsk);
      }
    } else {
      GetBufferMisses(f, hal, n, halAsk);
      GetBufferSettles(f, app, n, appAsk, roster);
    }
  }

  lemma AcquireKeys(f: Frame, i: ItemId, n: NodeId, ask: Outcome)
    ensures GetBuffer(f, i, n, ask).f.w.items.Keys == f.w.items.Keys
  {}

  // ---------------------------------------------------------------- the system

  /** The frame, the join that hands it on, how many streams each node has flushed, and the items that have got a
      late consumer. */
  datatype Sys = Sys(f: Frame, j: D.Join, turn: map<NodeId, nat>, late: set<ItemId>)

  function Tagged(image: bool, streams: seq<StreamId>): seq<(bool, StreamId)> {
    seq(|streams|, k requires 0 <= k < |streams| => (image, streams[k]))
  }

  /** The order in which BaseNode::flush goes through the streams of a node. */
  function Work(p: NodePlan): seq<(bool, StreamId)> {
    Tagged(false, p.inMeta) + Tagged(true, p.inImage) + Tagged(false, p.outMeta) + Tagged(true, p.outImage)
  }

  /** What happens: the protocol moves, or a step of the frame that has nothing to do with them. */
  datatype Event =
    | SendRoot(node: NodeId, flush: bool)
    | Turn(node: NodeId, halAsk: Outcome, appAsk: Outcome)
    | Apply(node: NodeId, realTime: bool, alive: Alive)
    | CountEdge(node: NodeId, flush: bool)
    | Other(step: Step)

  ghost predicate WorldLetGo(s: Setup, f: Frame, n: NodeId) {
    forall i | i in f.w.items && n in Listers(s, i) :: LetGo(f, i, n)
  }

  /** The node has a stream to flush next, and the provider answers for it. */
  ghost predicate HasTurn(s: Setup, sys: Sys, n: NodeId, halAsk: Outcome, appAsk: Outcome) {
    && n in s.plan && n in sys.turn && sys.turn[n] < |Work(s.plan[n])|
    && halAsk.Answer? && appAsk.Answer?
    && Honest(halAsk, Work(s.plan[n])[sys.turn[n]].1) && Honest(appAsk, Work(s.plan[n])[sys.turn[n]].1)
  }

  ghost function AfterTurn(s: Setup, sys: Sys, n: NodeId, halAsk: Outcome, appAsk: Outcome): Sys
    requires HasTurn(s, sys, n, halAsk, appAsk)
  {
    var work := Work(s.plan[n])[sys.turn[n]];
    sys.(f := FlushStream(sys.f, work.0, work.1, n, halAsk, appAsk), turn := sys.turn[n := sys.turn[n] + 1])
  }

  /** The node has flushed all its streams or, if it was queued, has let go of everything in its own way. */
  ghost predicate IsThrough(s: Setup, sys: Sys, n: NodeId) {
    && n in s.plan && n in sys.turn
    && (if D.HandOff(n, true) in sys.j.log then sys.turn[n] == |Work(s.plan[n])| else WorldLetGo(s, sys.f, n))
  }

  /** A flushed node goes through its streams and then applies; a queued node applies once it has marked all its
      streams in its own way. The buffer provider is alive. */
  ghost predicate Can(s: Setup, g: D.Graph, sys: Sys, e: Event) {
    match e
    case SendRoot(n, flush) => D.Enabled(g, sys.j, D.SendRoot(n, flush))
    case Turn(n, halAsk, appAsk) =>
      && n in sys.j.phase && sys.j.phase[n].Held? && D.HandOff(n, true) in sys.j.log
      && HasTurn(s, sys, n, halAsk, appAsk)
    case Apply(n, _, _) =>
      D.Enabled(g, sys.j, D.Begin(n)) && IsThrough(s, sys, n)
    case CountEdge(n, flush) => D.Enabled(g, sys.j, D.CountEdge(n, flush))
    case Other(step) => Allowed(sys.f, step)
  }

  ghost function Do(s: Setup, g: D.Graph, sys: Sys, e: Event): Sys
    requires Can(s, g, sys, e) && D.EdgesOk(g) && sys.j.reqCnt.Keys == g.out.Keys
    requires Closed(sys.f) && KeysKnown(sys.f.w, sys.f.w.halKeys)
  {
    match e
    case SendRoot(n, flush) => sys.(j := D.Make(g, sys.j, D.SendRoot(n, flush)))
    case Turn(n, halAsk, appAsk) =>
      AfterTurn(s, sys, n, halAsk, appAsk)
    case Apply(n, realTime, alive) =>
      sys.(f := ApplyRelease(sys.f, n, realTime, alive), j := D.Make(g, sys.j, D.Begin(n)))
    case CountEdge(n, flush) => sys.(j := D.Make(g, sys.j, D.CountEdge(n, flush)))
    case Other(step) => sys.(f := Next(sys.f, step), late := sys.late + GetsConsumer(step))
  }

  ghost function Begun(s: Setup, g: D.Graph): Sys
    requires NodesKnown(s)
  {
    Sys(Configured(s), D.Start(g), map n | n in g.out :: 0, {})
  }

  /** The frame's graph is over the planned nodes, the nodes ahead are reached through edges, and every meta item
      was added with a buffer. */
  ghost predicate FlushSetupOk(s: Setup, g: D.Graph) {
    && SetupOk(s) && D.GraphOk(g) && g.out.Keys == s.plan.Keys
    && (forall v, p | v in g.out && v in s.ahead && p in s.ahead[v] :: Comes(s, g, p, v))
    && (forall e | e in s.items && IsMeta(e.0.kind) :: e.1.Some?)
  }

  ghost predicate Comes(s: Setup, g: D.Graph, p: NodeId, v: NodeId) {
    p in D.In(g, v) || exists m :: m in D.In(g, v) && m in s.ahead && p in s.ahead[m]
  }

  // ---------------------------------------------------------------- the invariant

  /** The users of an item are those of the plan, and late consumers if the item is in `late`. */
  ghost predicate Planned(s: Setup, f: Frame, late: set<ItemId>) {
    && (forall i | i in f.w.items :: LaterUsers(UsersOf(s, i), f.w.items[i].users, i in late))
    && (forall i | i in f.w.items && i !in f.w.mapped && f.w.items[i].users.active ::
          EarlierDone(UsersOf(s, i), f.w.items[i].users))
    && (forall i | i in f.w.items && IsMeta(i.kind) :: f.w.items[i].buffer.Some?)
    && (forall n, i | n in f.nodes && f.nodes[n].Lists(i) :: n in Listers(s, i))
    && f.w.items.Keys == ItemsOf(s).Keys
  }

  /** A node that has begun to dispatch has let go of everything it listed. */
  ghost predicate Cleared(s: Setup, f: Frame, n: NodeId) {
    WorldLetGo(s, f, n) && (n in f.nodes ==> f.nodes[n].AllEmpty())
  }

  ghost predicate TurnDone(f: Frame, work: seq<(bool, StreamId)>, n: NodeId, k: nat)
    requires k <= |work|
  {
    forall m, i | 0 <= m < k && i in f.w.items && i.stream == work[m].1 && IsImage(i.kind) == work[m].0 :: LetGo(f, i, n)
  }

  /** How far the nodes have come shows in the frame. */
  ghost predicate FlushOk(s: Setup, f: Frame, phase: map<NodeId, D.Phase>, turn: map<NodeId, nat>, late: set<ItemId>) {
    && RunOk(f, RosterOf(s), Given(s)) && Planned(s, f, late) && turn.Keys == phase.Keys
    && (forall n | n in phase && phase[n].Sending? :: Cleared(s, f, n))
    && (forall n | n in phase && n in s.plan ::
          turn[n] <= |Work(s.plan[n])| && TurnDone(f, Work(s.plan[n]), n, turn[n]))
  }

  ghost predicate SysOk(s: Setup, g: D.Graph, sys: Sys) {
    D.JoinOk(g, sys.j) && FlushOk(s, sys.f, sys.j.phase, sys.turn, sys.late)
  }

  lemma LaterPlanned(s: Setup, f: Frame, g: Frame, late: set<ItemId>, at: set<ItemId>)
    requires Planned(s, f, late) && Later(f, g, at)
    ensures Planned(s, g, late + at)
  {
    forall i | i in g.w.items
      ensures LaterUsers(UsersOf(s, i), g.w.items[i].users, i in late + at)
      ensures i !in g.w.mapped && g.w.items[i].users.active ==> EarlierDone(UsersOf(s, i), g.w.items[i].users)
    {
      var us, a, b := UsersOf(s, i), f.w.items[i].users, g.w.items[i].users;
      assert LaterUsers(us, a, i in late) && LaterUsers(a, b, i in at);
      if b.active {
        ExtendsTrans(us, a, b);
      }
    }
  }

  lemma LaterCleared(s: Setup, f: Frame, g: Frame, at: set<ItemId>, n: NodeId)
    requires Cleared(s, f, n) && Later(f, g, at)
    ensures Cleared(s, g, n)
  {
    forall i | i in g.w.items && n in Listers(s, i)
      ensures LetGo(g, i, n)
    {
      LetGoStays(f, g, at, i, n);
    }
    if n in g.nodes {
      assert forall i :: !f.nodes[n].Lists(i);
      NothingListed(g.nodes[n]);
    }
  }

  lemma LaterTurn(f: Frame, g: Frame, at: set<ItemId>, work: seq<(bool, StreamId)>, n: NodeId, k: nat)
    requires k <= |work| && TurnDone(f, work, n, k) && Later(f, g, at)
    ensures TurnDone(g, work, n, k)
  {
    forall m, i | 0 <= m < k && i in g.w.items && i.stream == work[m].1 && IsImage(i.kind) == work[m].0
      ensures LetGo(g, i, n)
    {
      LetGoStays(f, g, at, i, n);
    }
  }

  /** Any step of the frame keeps what the nodes have achieved. */
  lemma LaterFlush(s: Setup, f: Frame, phase: map<NodeId, D.Phase>, turn: map<NodeId, nat>, late: set<ItemId>,
                   r: Frame, at: set<ItemId>)
    requires FlushOk(s, f, phase, turn, late) && Later(f, r, at) && RunOk(r, RosterOf(s), Given(s))
    ensures FlushOk(s, r, phase, turn, late + at)
  {
    LaterPlanned(s, f, r, late, at);
    forall n | n in phase && phase[n].Sending?
      ensures Cleared(s, r, n)
    {
      LaterCleared(s, f, r, at, n);
    }
    forall n | n in phase && n in s.plan
      ensures TurnDone(r, Work(s.plan[n]), n, turn[n])
    {
      LaterTurn(f, r, at, Work(s.plan[n]), n, turn[n]);
    }
  }

  /** ... in particular a step that adds no consumer. */
  lemma LaterFlushSame(s: Setup, f: Frame, phase: map<NodeId, D.Phase>, turn: map<NodeId, nat>, late: set<ItemId>, r: Frame)
    requires FlushOk(s, f, phase, turn, late) && Later(f, r, {}) && RunOk(r, RosterOf(s), Given(s))
    ensures FlushOk(s, r, phase, turn, late)
  {
    LaterFlush(s, f, phase, turn, late, r, {});
    assert late + {} == late;
  }

  lemma ConfiguredItem(s: Setup, g: D.Graph, i: ItemId)
    requires FlushSetupOk(s, g) && i in Configured(s).w.items
    ensures var f := Configured(s);
            i in f.w.mapped && f.w.items[i].users == UsersOf(s, i) && (IsMeta(i.kind) ==> f.w.items[i].buffer.Some?)
  {
    AddAllLoads(s.items);
    var k := LoadedItem(AddAll(NoItems(), s.items), s.items, i);
    assert s.items[k] in s.items;
  }

  lemma ConfiguredPlanned(s: Setup, g: D.Graph)
    requires FlushSetupOk(s, g)
    ensures Planned(s, Configured(s), {})
  {
    var f := Configured(s);
    forall i | i in f.w.items
      ensures i in f.w.mapped && LaterUsers(UsersOf(s, i), f.w.items[i].users, false)
      ensures IsMeta(i.kind) ==> f.w.items[i].buffer.Some?
    {
      ConfiguredItem(s, g, i);
    }
    forall n, i | n in f.nodes && f.nodes[n].Lists(i)
      ensures n in Listers(s, i)
    {
      ConfiguredNodesOk(s);
      ConfiguredLists(s);
      assert KnownNode(f.w, f.nodes[n]);
    }
  }

  lemma BegunOk(s: Setup, g: D.Graph)
    requires FlushSetupOk(s, g)
    ensures SysOk(s, g, Begun(s, g))
  {
    ConfiguredOk(s);
    ConfiguredPlanned(s, g);
    D.StartOk(g);
  }

  // ---------------------------------------------------------------- flushing

  /** When a node gets the frame, every node ahead of it has begun to dispatch. */
  lemma {:induction false} AheadBegan(s: Setup, g: D.Graph, j: D.Join, k: nat, p: NodeId)
    requires FlushSetupOk(s, g) && D.CountsOk(g, j)
    requires k < |g.order| && g.order[k] in j.phase && !j.phase[g.order[k]].Waiting?
    requires g.order[k] in s.ahead && p in s.ahead[g.order[k]]
    ensures p in j.phase && j.phase[p].Sending?
    decreases k
  {
    var v := g.order[k];
    assert Comes(s, g, p, v);
    assert !D.IsRoot(g, v) && D.Counted(g, j, v) == D.In(g, v);
    if p in D.In(g, v) {
      assert p in D.Counted(g, j, v);
    } else {
      var m :| m in D.In(g, v) && m in s.ahead && p in s.ahead[m];
      assert m in D.Counted(g, j, v);
      assert m in g.order && D.Edge(g, m, v);
      var i :| 0 <= i < |g.order| && g.order[i] == m;
      assert i < k;
      AheadBegan(s, g, j, i, p);
    }
  }

  /** The item a node works on is one it uses. */
  lemma WorkIsListed(p: NodePlan, k: nat, i: ItemId)
    requires k < |Work(p)| && i.stream == Work(p)[k].1 && IsImage(i.kind) == Work(p)[k].0
    ensures p.Writes(i) || p.Reads(i)
  {
    var a := |p.inMeta|;
    var b := a + |p.inImage|;
    var c := b + |p.outMeta|;
    if k < a {
      assert Work(p)[k] == (false, p.inMeta[k]);
    } else if k < b {
      assert Work(p)[k] == (true, p.inImage[k - a]);
    } else if k < c {
      assert Work(p)[k] == (false, p.outMeta[k - b]);
    } else {
      assert Work(p)[k] == (true, p.outImage[k - c]);
    }
  }

  /** Every item a node uses is among the ones it works on. */
  lemma ListedIsWork(p: NodePlan, i: ItemId) returns (k: nat)
    requires p.Writes(i) || p.Reads(i)
    ensures k < |Work(p)| && i.stream == Work(p)[k].1 && IsImage(i.kind) == Work(p)[k].0
  {
    var a := |p.inMeta|;
    var b := a + |p.inImage|;
    var c := b + |p.outMeta|;
    if IsImage(i.kind) {
      if i.stream in p.outImage {
        var m :| 0 <= m < |p.outImage| && p.outImage[m] == i.stream;
        k := c + m;
      } else {
        var m :| 0 <= m < |p.inImage| && p.inImage[m] == i.stream;
        k := a + m;
      }
    } else {
      if i.stream in p.outMeta {
        var m :| 0 <= m < |p.outMeta| && p.outMeta[m] == i.stream;
        k := b + m;
      } else {
        var m :| 0 <= m < |p.inMeta| && p.inMeta[m] == i.stream;
        k := m;
      }
    }
  }

  /** All nodes ahead of `n` have let go of their items. */
  ghost predicate AheadLetGo(s: Setup, f: Frame, n: NodeId) {
    n in s.ahead ==> forall p | p in s.ahead[n] :: p in s.plan && WorldLetGo(s, f, p)
  }

  lemma AheadHasLetGo(s: Setup, g: D.Graph, f: Frame, j: D.Join, turn: map<NodeId, nat>, late: set<ItemId>, n: NodeId)
    requires FlushSetupOk(s, g) && D.CountsOk(g, j) && FlushOk(s, f, j.phase, turn, late)
    requires n in s.plan && j.phase[n].Held?
    ensures AheadLetGo(s, f, n)
  {
    forall p | n in s.ahead && p in s.ahead[n]
      ensures p in s.plan && WorldLetGo(s, f, p)
    {
      AheadHasBegun(s, g, j, n, p);
      assert Cleared(s, f, p);
    }
  }

  lemma AheadHasBegun(s: Setup, g: D.Graph, j: D.Join, n: NodeId, p: NodeId)
    requires FlushSetupOk(s, g) && D.CountsOk(g, j) && n in s.plan && j.phase[n].Held?
    requires n in s.ahead && p in s.ahead[n]
    ensures p in j.phase && j.phase[p].Sending?
  {
    assert n in g.order;
    var k :| 0 <= k < |g.order| && g.order[k] == n;
    AheadBegan(s, g, j, k, p);
  }

  lemma WorkIsFlushable(s: Setup, f: Frame, late: set<ItemId>, n: NodeId, i: ItemId, ask: Outcome)
    requires SetupOk(s) && ItemsOk(f.w) && Planned(s, f, late) && AheadLetGo(s, f, n)
    requires n in s.plan && i in f.w.items && n in Listers(s, i) && ask.Answer?
    ensures Flushable(f, i, n, ask)
  {
    var us := f.w.items[i].users;
    assert ItemOk(f.w, i);
    if us.active {
      assert LaterUsers(UsersOf(s, i), us, i in late);
      assert UsersOf(s, i).IsUser(n);
      forall p | p in s.ahead[n] && us.IsUser(p)
        ensures us.Done(p)
      {
        assert p in s.plan && p in UsersOf(s, i).prior;
        assert p in Listers(s, i);
        assert LetGo(f, i, p);
      }
    }
  }

  /** A plan's stream has one item in the frame. */
  lemma OneItem(s: Setup, f: Frame, i: ItemId, k: ItemId)
    requires SetupOk(s) && f.w.items.Keys == ItemsOf(s).Keys && i in f.w.items && k in f.w.items
    requires i.stream == k.stream && IsImage(i.kind) == IsImage(k.kind)
    ensures i == k
  {
    AddAllLoads(s.items);
    var a := LoadedItem(AddAll(NoItems(), s.items), s.items, k);
    OnlyItem(AddAll(NoItems(), s.items), s.items, a, i);
  }

  lemma TurnLetsGo(s: Setup, f: Frame, late: set<ItemId>, n: NodeId, k: nat, halAsk: Outcome, appAsk: Outcome, i: ItemId)
    requires SetupOk(s) && FrameOk(f, RosterOf(s)) && Planned(s, f, late) && AheadLetGo(s, f, n)
    requires n in s.plan && k < |Work(s.plan[n])| && halAsk.Answer? && appAsk.Answer?
    requires i in f.w.items && i.stream == Work(s.plan[n])[k].1 && IsImage(i.kind) == Work(s.plan[n])[k].0
    ensures var g := FlushStream(f, Work(s.plan[n])[k].0, Work(s.plan[n])[k].1, n, halAsk, appAsk);
            && LetGo(g, i, n) && i in g.w.items && (i in f.w.mapped ==> n in g.w.items[i].users.released)
  {
    var work := Work(s.plan[n])[k];
    WorkIsListed(s.plan[n], k, i);
    WorkIsFlushable(s, f, late, n, i, if i.kind == HalImage || i.kind == HalMeta then halAsk else appAsk);
    forall m | m in f.w.items && m.stream == work.1 && IsImage(m.kind) == work.0
      ensures m == i
    {
      OneItem(s, f, m, i);
    }
    FlushStreamLetsGo(f, work.0, work.1, n, halAsk, appAsk, i, RosterOf(s));
  }

  lemma OneMoreTurn(f: Frame, work: seq<(bool, StreamId)>, n: NodeId, k: nat)
    requires k < |work| && TurnDone(f, work, n, k)
    requires forall i | i in f.w.items && i.stream == work[k].1 && IsImage(i.kind) == work[k].0 :: LetGo(f, i, n)
    ensures TurnDone(f, work, n, k + 1)
  {}

  lemma CountTurn(s: Setup, f: Frame, phase: map<NodeId, D.Phase>, turn: map<NodeId, nat>, late: set<ItemId>,
                  n: NodeId, k: nat)
    requires FlushOk(s, f, phase, turn, late) && n in s.plan && n in turn && k == turn[n] && k < |Work(s.plan[n])|
    requires var work := Work(s.plan[n]);
             forall i | i in f.w.items && i.stream == work[k].1 && IsImage(i.kind) == work[k].0 :: LetGo(f, i, n)
    ensures FlushOk(s, f, phase, turn[n := k + 1], late)
  {
    OneMoreTurn(f, Work(s.plan[n]), n, k);
  }

  lemma TurnFrame(s: Setup, f: Frame, phase: map<NodeId, D.Phase>, turn: map<NodeId, nat>, late: set<ItemId>,
                  image: bool, st: StreamId, n: NodeId, halAsk: Outcome, appAsk: Outcome)
    requires FlushOk(s, f, phase, turn, late) && Honest(halAsk, st) && Honest(appAsk, st)
    ensures FlushOk(s, FlushStream(f, image, st, n, halAsk, appAsk), phase, turn, late)
  {
    FlushStreamRun(f, image, st, n, halAsk, appAsk, RosterOf(s), Given(s));
    LaterFlushSame(s, f, phase, turn, late, FlushStream(f, image, st, n, halAsk, appAsk));
  }

  lemma FlushStreamKeys(f: Frame, image: bool, st: StreamId, n: NodeId, halAsk: Outcome, appAsk: Outcome)
    ensures FlushStream(f, image, st, n, halAsk, appAsk).w.items.Keys == f.w.items.Keys
  {
    var hal, app := ItemId(if image then HalImage else HalMeta, st), ItemId(if image then AppImage else AppMeta, st);
    AcquireKeys(f, hal, n, halAsk);
    AcquireKeys(GetBuffer(f, hal, n, halAsk).f, app, n, appAsk);
  }

  lemma TurnLetsAllGo(s: Setup, f: Frame, late: set<ItemId>, n: NodeId, k: nat, halAsk: Outcome, appAsk: Outcome)
    requires SetupOk(s) && FrameOk(f, RosterOf(s)) && Planned(s, f, late) && AheadLetGo(s, f, n)
    requires n in s.plan && k < |Work(s.plan[n])| && halAsk.Answer? && appAsk.Answer?
    ensures var work := Work(s.plan[n])[k];
            var r := FlushStream(f, work.0, work.1, n, halAsk, appAsk);
            forall i | i in r.w.items && i.stream == work.1 && IsImage(i.kind) == work.0 :: LetGo(r, i, n)
  {
    var work := Work(s.plan[n])[k];
    FlushStreamKeys(f, work.0, work.1, n, halAsk, appAsk);
    forall i | i in f.w.items && i.stream == work.1 && IsImage(i.kind) == work.0
      ensures LetGo(FlushStream(f, work.0, work.1, n, halAsk, appAsk), i, n)
    {
      TurnLetsGo(s, f, late, n, k, halAsk, appAsk, i);
    }
  }

  lemma TurnOk(s: Setup, f: Frame, phase: map<NodeId, D.Phase>, turn: map<NodeId, nat>, late: set<ItemId>,
               n: NodeId, k: nat, halAsk: Outcome, appAsk: Outcome)
    requires SetupOk(s) && FlushOk(s, f, phase, turn, late) && AheadLetGo(s, f, n)
    requires n in s.plan && n in turn && k == turn[n] && k < |Work(s.plan[n])|
    requires halAsk.Answer? && appAsk.Answer?
    requires Honest(halAsk, Work(s.plan[n])[k].1) && Honest(appAsk, Work(s.plan[n])[k].1)
    ensures var work := Work(s.plan[n])[k];
            FlushOk(s, FlushStream(f, work.0, work.1, n, halAsk, appAsk), phase, turn[n := k + 1], late)
  {
    var work := Work(s.plan[n])[k];
    TurnLetsAllGo(s, f, late, n, k, halAsk, appAsk);
    TurnFrame(s, f, phase, turn, late, work.0, work.1, n, halAsk, appAsk);
    CountTurn(s, FlushStream(f, work.0, work.1, n, halAsk, appAsk), phase, turn, late, n, k);
  }

  /** A node that has let go of all its items lists nothing after it applies. */
  lemma ApplyEmpties(f: Frame, n: NodeId, realTime: bool, alive: Alive, roster: Roster)
    requires FrameOk(f, roster) && n in f.nodes
    requires forall i | f.nodes[n].Lists(i) :: LetGo(f, i, n)
    ensures ApplyRelease(f, n, realTime, alive).nodes[n].AllEmpty()
  {
    UpdateKeepsKeys(f, n);
    if f.preApplied {
      assert Busy(f.nodes) == {};
      assert n !in Busy(f.nodes);
    } else {
      assert KnownNode(f.w, f.nodes[n]) && SetsOk(f.nodes[n]);
      UpdateEmpties(f.w, n, f.nodes[n]);
    }
  }

  lemma UpdateEmpties(w: World, n: NodeId, ns: NodeStatus)
    requires WorldOk(w) && KnownNode(w, ns) && SetsOk(ns)
    requires forall i | ns.Lists(i) && i in w.items :: !Keeps(w.items[i].users, n)
    ensures UpdateNode(w, n, ns).ns.AllEmpty()
  {
    UpdateNodeEffect(w, n, ns);
    NothingListed(UpdateNode(w, n, ns).ns);
  }

  lemma ApplyClears(s: Setup, f: Frame, late: set<ItemId>, n: NodeId, realTime: bool, alive: Alive)
    requires RunOk(f, RosterOf(s), Given(s)) && Planned(s, f, late) && WorldLetGo(s, f, n)
    ensures Cleared(s, ApplyRelease(f, n, realTime, alive), n)
  {
    var r := ApplyRelease(f, n, realTime, alive);
    ApplyReleaseLater(f, n, realTime, alive, RosterOf(s));
    forall i | i in r.w.items && n in Listers(s, i)
      ensures LetGo(r, i, n)
    {
      LetGoStays(f, r, {}, i, n);
    }
    if n in f.nodes {
      ApplyEmpties(f, n, realTime, alive, RosterOf(s));
    }
  }

  lemma TurnsLetGo(s: Setup, f: Frame, n: NodeId)
    requires n in s.plan && TurnDone(f, Work(s.plan[n]), n, |Work(s.plan[n])|)
    ensures WorldLetGo(s, f, n)
  {
    forall i | i in f.w.items && n in Listers(s, i)
      ensures LetGo(f, i, n)
    {
      var k := ListedIsWork(s.plan[n], i);
    }
  }

  lemma ApplyFrame(s: Setup, f: Frame, phase: map<NodeId, D.Phase>, turn: map<NodeId, nat>, late: set<ItemId>,
                   n: NodeId, realTime: bool, alive: Alive)
    requires FlushOk(s, f, phase, turn, late) && WorldLetGo(s, f, n)
    ensures var r := ApplyRelease(f, n, realTime, alive); FlushOk(s, r, phase, turn, late) && Cleared(s, r, n)
  {
    ApplyReleaseRun(f, n, realTime, alive, RosterOf(s), Given(s));
    ApplyReleaseLater(f, n, realTime, alive, RosterOf(s));
    LaterFlushSame(s, f, phase, turn, late, ApplyRelease(f, n, realTime, alive));
    ApplyClears(s, f, late, n, realTime, alive);
  }

  lemma BeginFlush(s: Setup, f: Frame, phase: map<NodeId, D.Phase>, turn: map<NodeId, nat>, late: set<ItemId>, n: NodeId)
    requires FlushOk(s, f, phase, turn, late) && Cleared(s, f, n) && n in phase
    ensures FlushOk(s, f, phase[n := D.Sending(0)], turn, late)
  {}

  lemma ApplyOk(s: Setup, g: D.Graph, sys: Sys, n: NodeId, realTime: bool, alive: Alive)
    requires FlushOk(s, sys.f, sys.j.phase, sys.turn, sys.late) && IsThrough(s, sys, n) && n in sys.j.phase
    ensures FlushOk(s, ApplyRelease(sys.f, n, realTime, alive), sys.j.phase[n := D.Sending(0)], sys.turn, sys.late)
  {
    if D.HandOff(n, true) in sys.j.log {
      TurnsLetGo(s, sys.f, n);
    }
    ApplyFrame(s, sys.f, sys.j.phase, sys.turn, sys.late, n, realTime, alive);
    BeginFlush(s, ApplyRelease(sys.f, n, realTime, alive), sys.j.phase, sys.turn, sys.late, n);
  }

  /** Handing the frame on changes nothing for the nodes that have begun to dispatch. */
  lemma HandingOk(g: D.Graph, j: D.Join, m: D.Move, n: NodeId)
    requires D.EdgesOk(g) && D.CountsOk(g, j) && D.Enabled(g, j, m) && !m.Begin?
    ensures var r := D.Make(g, j, m);
            r.phase.Keys == j.phase.Keys && (n in r.phase && r.phase[n].Sending? ==> j.phase[n].Sending?)
  {}

  lemma HandingFlush(s: Setup, g: D.Graph, sys: Sys, m: D.Move)
    requires FlushOk(s, sys.f, sys.j.phase, sys.turn, sys.late)
    requires D.EdgesOk(g) && D.CountsOk(g, sys.j) && D.Enabled(g, sys.j, m) && !m.Begin?
    ensures FlushOk(s, sys.f, D.Make(g, sys.j, m).phase, sys.turn, sys.late)
  {
    forall n
      ensures D.Make(g, sys.j, m).phase.Keys == sys.j.phase.Keys
      ensures n in D.Make(g, sys.j, m).phase && D.Make(g, sys.j, m).phase[n].Sending? ==> sys.j.phase[n].Sending?
    {
      HandingOk(g, sys.j, m, n);
    }
  }

  lemma OtherOk(s: Setup, f: Frame, phase: map<NodeId, D.Phase>, turn: map<NodeId, nat>, late: set<ItemId>, step: Step)
    requires FlushOk(s, f, phase, turn, late) && Allowed(f, step)
    ensures FlushOk(s, Next(f, step), phase, turn, late + GetsConsumer(step))
  {
    NextRun(f, step, RosterOf(s), Given(s));
    NextLater(f, step, RosterOf(s), Given(s));
    LaterFlush(s, f, phase, turn, late, Next(f, step), GetsConsumer(step));
  }

  lemma HandOk(s: Setup, g: D.Graph, sys: Sys, m: D.Move)
    requires D.GraphOk(g) && SysOk(s, g, sys) && D.Enabled(g, sys.j, m) && !m.Begin?
    ensures SysOk(s, g, sys.(j := D.Make(g, sys.j, m)))
  {
    D.MakeOk(g, sys.j, m);
    HandingFlush(s, g, sys, m);
  }

  lemma TakeTurnOk(s: Setup, g: D.Graph, sys: Sys, n: NodeId, halAsk: Outcome, appAsk: Outcome)
    requires SetupOk(s) && SysOk(s, g, sys) && AheadLetGo(s, sys.f, n) && HasTurn(s, sys, n, halAsk, appAsk)
    ensures SysOk(s, g, AfterTurn(s, sys, n, halAsk, appAsk))
  {
    TurnOk(s, sys.f, sys.j.phase, sys.turn, sys.late, n, sys.turn[n], halAsk, appAsk);
  }

  /** Every event keeps the invariant of the system. */
  lemma DoOk(s: Setup, g: D.Graph, sys: Sys, e: Event)
    requires FlushSetupOk(s, g) && SysOk(s, g, sys) && Can(s, g, sys, e)
    ensures SysOk(s, g, Do(s, g, sys, e))
  {
    match e
    case SendRoot(n, flush) => HandOk(s, g, sys, D.SendRoot(n, flush));
    case Turn(n, halAsk, appAsk) =>
      AheadHasLetGo(s, g, sys.f, sys.j, sys.turn, sys.late, n);
      TakeTurnOk(s, g, sys, n, halAsk, appAsk);
    case Apply(n, realTime, alive) =>
      D.MakeOk(g, sys.j, D.Begin(n));
      ApplyOk(s, g, sys, n, realTime, alive);
    case CountEdge(n, flush) => HandOk(s, g, sys, D.CountEdge(n, flush));
    case Other(step) => OtherOk(s, sys.f, sys.j.phase, sys.turn, sys.late, step);
  }

  // ---------------------------------------------------------------- main results

  /** `states` is what the system goes through when `events` happen to a freshly configured frame. */
  ghost predicate IsFlushRun(s: Setup, g: D.Graph, states: seq<Sys>, events: seq<Event>)
    requires D.EdgesOk(g) && NodesKnown(s)
  {
    && |states| == |events| + 1 && states[0] == Begun(s, g)
    && forall k | 0 <= k < |events| ::
         && states[k].j.reqCnt.Keys == g.out.Keys && Closed(states[k].f)
         && KeysKnown(states[k].f.w, states[k].f.w.halKeys)
         && Can(s, g, states[k], events[k]) && states[k + 1] == Do(s, g, states[k], events[k])
  }

  lemma {:induction false} FlushRunOk(s: Setup, g: D.Graph, states: seq<Sys>, events: seq<Event>, k: nat)
    requires FlushSetupOk(s, g) && IsFlushRun(s, g, states, events) && k <= |events|
    ensures SysOk(s, g, states[k])
  {
    if k == 0 {
      BegunOk(s, g);
    } else {
      FlushRunOk(s, g, states, events, k - 1);
      DoOk(s, g, states[k - 1], events[k - 1]);
    }
  }

  /** No node lists anything, and everything that some node was to use has been released, unless it got a late
      consumer. */
  ghost predicate Drained(s: Setup, f: Frame, late: set<ItemId>) {
    && f.inFlight == 0
    && (forall n | n in f.nodes :: f.nodes[n].AllEmpty())
    && (forall i | i in f.w.items && Listers(s, i) != {} && i !in late :: i !in f.w.mapped)
  }

  lemma AllSentIsEmpty(s: Setup, f: Frame, late: set<ItemId>, phase: map<NodeId, D.Phase>)
    requires Planned(s, f, late) && phase.Keys == s.plan.Keys
    requires forall n | n in phase :: Cleared(s, f, n)
    ensures forall n | n in f.nodes :: f.nodes[n].AllEmpty()
  {
    forall n | n in f.nodes
      ensures f.nodes[n].AllEmpty()
    {
      if n in phase {
        assert Cleared(s, f, n);
      } else {
        forall i
          ensures !f.nodes[n].Lists(i)
        {
          assert n !in Listers(s, i);
        }
        NothingListed(f.nodes[n]);
      }
    }
  }

  lemma UsedIsReleased(s: Setup, f: Frame, late: set<ItemId>, i: ItemId)
    requires FrameOk(f, RosterOf(s)) && Planned(s, f, late) && f.inFlight == 0
    requires i in f.w.items && Listers(s, i) != {} && i !in late
    ensures i !in f.w.mapped
  {
    assert ItemOk(f.w, i);
    var us := f.w.items[i].users;
    if us.active {
      assert OnlyListedUsers(us, RosterOf(s)[i]) by {
        assert LaterUsers(UsersOf(s, i), us, false);
        UsersAreListers(s, i);
      }
      FrameDoneIsSound(f, RosterOf(s));
    }
  }

  lemma UsersAreListers(s: Setup, i: ItemId)
    ensures UsersOf(s, i).producers + UsersOf(s, i).consumers == Listers(s, i)
  {}

  lemma AllSentIsDrained(s: Setup, f: Frame, late: set<ItemId>, phase: map<NodeId, D.Phase>)
    requires FrameOk(f, RosterOf(s)) && Planned(s, f, late) && phase.Keys == s.plan.Keys
    requires forall n | n in phase :: Cleared(s, f, n)
    ensures Drained(s, f, late)
  {
    AllSentIsEmpty(s, f, late, phase);
    assert forall n | n in f.nodes :: n !in Busy(f.nodes);
    assert Busy(f.nodes) == {};
    forall i | i in f.w.items && Listers(s, i) != {} && i !in late
      ensures i !in f.w.mapped
    {
      UsedIsReleased(s, f, late, i);
    }
  }

  /** Flushing drains a frame: whatever was acquired, failed, added or interleaved on the way, once the frame has been
      handed through the whole graph, no node lists anything, the in-flight count is zero and every item that a
      node was to use, and that got no late consumer, has been released. */
  lemma FlushDrainsFrame(s: Setup, g: D.Graph, states: seq<Sys>, events: seq<Event>, k: nat)
    requires FlushSetupOk(s, g) && IsFlushRun(s, g, states, events) && k <= |events|
    requires D.Quiescent(g, states[k].j)
    ensures Drained(s, states[k].f, states[k].late)
  {
    FlushRunOk(s, g, states, events, k);
    var sys := states[k];
    D.QuietMeansAllSent(g, sys.j);
    AllSentIsDrained(s, sys.f, sys.late, sys.j.phase);
  }

  ghost predicate LateIsAdded(states: seq<Sys>, events: seq<Event>, k: nat, i: ItemId)
    requires k <= |events| && |states| == |events| + 1
  {
    i in states[k].late <==> Added(events[..k], i)
  }

  lemma {:induction false} LateOn(states: seq<Sys>, events: seq<Event>, k: nat, i: ItemId)
    requires k <= |events| && |states| == |events| + 1 && LateIsAdded(states, events, 0, i)
    requires forall j: nat | j < k && LateIsAdded(states, events, j, i) :: LateIsAdded(states, events, j + 1, i)
    ensures LateIsAdded(states, events, k, i)
  {
    if k > 0 {
      LateOn(states, events, k - 1, i);
      assert LateIsAdded(states, events, k - 1, i);
    }
  }

  /** The late items are exactly those for which a consumer was added during the run. */
  lemma LateWereAdded(s: Setup, g: D.Graph, states: seq<Sys>, events: seq<Event>, k: nat, i: ItemId)
    requires FlushSetupOk(s, g) && IsFlushRun(s, g, states, events) && k <= |events|
    ensures i in states[k].late <==> Added(events[..k], i)
  {
    NoneAtFirst(s, g, states, events, i);
    forall j: nat | j < k && LateIsAdded(states, events, j, i)
      ensures LateIsAdded(states, events, j + 1, i)
    {
      LateStep(s, g, states, events, j, i);
    }
    LateOn(states, events, k, i);
    assert LateIsAdded(states, events, k, i);
  }

  lemma NoneAtFirst(s: Setup, g: D.Graph, states: seq<Sys>, events: seq<Event>, i: ItemId)
    requires FlushSetupOk(s, g) && IsFlushRun(s, g, states, events)
    ensures i !in states[0].late && !Added(events[..0], i)
  {
    assert states[0] == Begun(s, g);
  }

  lemma LateStep(s: Setup, g: D.Graph, states: seq<Sys>, events: seq<Event>, k: nat, i: ItemId)
    requires FlushSetupOk(s, g) && IsFlushRun(s, g, states, events) && k < |events|
    requires i in states[k].late <==> Added(events[..k], i)
    ensures i in states[k + 1].late <==> Added(events[..k + 1], i)
  {
    LateGrows(s, g, states, events, k, i);
    AddedNext(events, k, i);
  }

  /** A consumer of the item is added somewhere. */
  predicate Added(events: seq<Event>, i: ItemId) {
    exists e :: e in events && AddsTo(e, i)
  }

  lemma AddedNext(events: seq<Event>, k: nat, i: ItemId)
    requires k < |events|
    ensures Added(events[..k + 1], i) <==> Added(events[..k], i) || AddsTo(events[k], i)
  {
    assert events[..k + 1] == events[..k] + [events[k]];
  }

  lemma LateGrows(s: Setup, g: D.Graph, states: seq<Sys>, events: seq<Event>, k: nat, i: ItemId)
    requires FlushSetupOk(s, g) && IsFlushRun(s, g, states, events) && k < |events|
    ensures i in states[k + 1].late <==> i in states[k].late || AddsTo(events[k], i)
  {
    DoLate(s, g, states[k], events[k], i);
  }

  lemma DoLate(s: Setup, g: D.Graph, sys: Sys, e: Event, i: ItemId)
    requires Can(s, g, sys, e) && D.EdgesOk(g) && sys.j.reqCnt.Keys == g.out.Keys
    requires Closed(sys.f) && KeysKnown(sys.f.w, sys.f.w.halKeys)
    ensures i in Do(s, g, sys, e).late <==> i in sys.late || AddsTo(e, i)
  {}

  predicate AddsTo(e: Event, i: ItemId) {
    e.Other? && e.step.AddConsumer? && e.step.item == i
  }

  predicate IsProtocol(e: Event) {
    !e.Other?
  }

  ghost function TurnsLeft(s: Setup, turn: map<NodeId, nat>): set<(NodeId, nat)> {
    set n, k | n in s.plan && n in turn && turn[n] <= k < |Work(s.plan[n])| :: (n, k)
  }

  /** The protocol moves still to come, if every node is flushed. */
  ghost function Distance(s: Setup, g: D.Graph, sys: Sys): nat {
    D.Todo(g, sys.j) + |TurnsLeft(s, sys.turn)|
  }

  lemma TurnCounts(s: Setup, turn: map<NodeId, nat>, n: NodeId)
    requires n in s.plan && n in turn && turn[n] < |Work(s.plan[n])|
    ensures |TurnsLeft(s, turn[n := turn[n] + 1])| == |TurnsLeft(s, turn)| - 1
  {
    assert TurnsLeft(s, turn[n := turn[n] + 1]) == TurnsLeft(s, turn) - {(n, turn[n])};
    assert (n, turn[n]) in TurnsLeft(s, turn);
  }

  /** Every protocol move takes one from the distance; other steps leave it alone. */
  lemma ProtocolMoves(s: Setup, g: D.Graph, sys: Sys, e: Event)
    requires D.EdgesOk(g) && D.CountsOk(g, sys.j) && Can(s, g, sys, e)
    requires Closed(sys.f) && KeysKnown(sys.f.w, sys.f.w.halKeys)
    ensures Distance(s, g, Do(s, g, sys, e)) == Distance(s, g, sys) - if IsProtocol(e) then 1 else 0
  {
    match e
    case SendRoot(n, flush) => D.EveryMoveCounts(g, sys.j, D.SendRoot(n, flush));
    case Turn(n, _, _) => TurnCounts(s, sys.turn, n);
    case Apply(n, _, _) => D.EveryMoveCounts(g, sys.j, D.Begin(n));
    case CountEdge(n, flush) => D.EveryMoveCounts(g, sys.j, D.CountEdge(n, flush));
    case Other(_) =>
  }

  /** A flush never gets stuck: as long as the frame has not been handed through the whole graph, and every node
      that holds it was flushed, some protocol move is possible. */
  lemma FlushMovesOn(s: Setup, g: D.Graph, sys: Sys)
    requires FlushSetupOk(s, g) && SysOk(s, g, sys) && !D.Quiescent(g, sys.j)
    requires forall n | n in g.out && sys.j.phase[n].Held? :: D.HandOff(n, true) in sys.j.log
    ensures exists e :: IsProtocol(e) && Can(s, g, sys, e)
  {
    var m :| D.Enabled(g, sys.j, m);
    match m
    case SendRoot(n, flush) => assert Can(s, g, sys, SendRoot(n, flush));
    case CountEdge(n, flush) => assert Can(s, g, sys, CountEdge(n, flush));
    case Begin(n) =>
      if sys.turn[n] < |Work(s.plan[n])| {
        assert Can(s, g, sys, Turn(n, Answer(false, None), Answer(false, None)));
      } else {
        assert Can(s, g, sys, Apply(n, false, Alive(true, true)));
      }
  }
}

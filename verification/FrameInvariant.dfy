/** The invariant of a configured frame: the counters, the notified flags and the lists agree. */
module FrameInvariant {
  import opened Users
  import opened Wrappers
  import opened FrameModel
  import opened WorldFacts

  /** The nodes that still list something: mInFlightNodeCount counts them. */
  ghost function Busy(nodes: map<NodeId, NodeStatus>): set<NodeId> {
    set n | n in nodes && !nodes[n].AllEmpty()
  }

  type Nodes = map<NodeId, NodeStatus>

  ghost predicate NodesOk(nodes: Nodes, inFlight: int, preApplied: bool) {
    && (forall n | n in nodes :: SetsOk(nodes[n]) && (nodes[n].AllEmpty() ==> AllNotified(nodes[n])))
    && inFlight == |Busy(nodes)|
    && (preApplied ==> inFlight == 0)
  }

  /** Which nodes listed an item when the frame was configured. */
  type Roster = map<ItemId, set<NodeId>>

  /** A listed user that is not done still lists its item. */
  ghost predicate WaitingUsersList(w: World, nodes: Nodes, roster: Roster) {
    forall i, u | i in w.items && i in roster && u in roster[i] && Keeps(w.items[i].users, u) ::
      u in nodes && nodes[u].Lists(i)
  }

  /** The users of the item are nodes that listed it from the start, and there is one. */
  ghost predicate OnlyListedUsers(us: Users, listers: set<NodeId>) {
    us.producers + us.consumers != {} && us.producers + us.consumers <= listers
  }

  ghost predicate ListedBySome(nodes: Nodes, i: ItemId) {
    exists n :: n in nodes && nodes[n].Lists(i)
  }

  /** A mapped item is still listed by some node. */
  ghost predicate MappedIsListed(w: World, nodes: Nodes, roster: Roster) {
    forall i | i in w.mapped && i in w.items && i in roster && OnlyListedUsers(w.items[i].users, roster[i]) ::
      ListedBySome(nodes, i)
  }

  ghost predicate RosterOk(w: World, roster: Roster) {
    forall i | i in w.items && i in roster && w.items[i].users.active :: roster[i] <= w.items[i].users.prior.Keys
  }

  ghost predicate ListsOk(w: World, nodes: Nodes, roster: Roster) {
    WaitingUsersList(w, nodes, roster) && MappedIsListed(w, nodes, roster) && RosterOk(w, roster)
  }

  ghost predicate FrameOk(f: Frame, roster: Roster) {
    && WorldOk(f.w) && Closed(f)
    && NodesOk(f.nodes, f.inFlight, f.preApplied)
    && ListsOk(f.w, f.nodes, roster)
  }

  // ---------------------------------------------------------------- the updater

  lemma BusyWith(nodes: map<NodeId, NodeStatus>, n: NodeId, ns: NodeStatus)
    requires n in nodes
    ensures |Busy(nodes[n := ns])| == |Busy(nodes)|
            + (if nodes[n].AllEmpty() then 0 else -1) + (if ns.AllEmpty() then 0 else 1)
  {
    var rest := Busy(nodes) - {n};
    assert Busy(nodes) == if nodes[n].AllEmpty() then rest else rest + {n};
    assert Busy(nodes[n := ns]) == if ns.AllEmpty() then rest else rest + {n};
  }

  /** One node's sets change: its emptying is counted once, at the visit that empties the last set. */
  lemma NodesOkWith(nodes: map<NodeId, NodeStatus>, inFlight: int, preApplied: bool,
                    n: NodeId, ns: NodeStatus, emptied: bool)
    requires NodesOk(nodes, inFlight, preApplied) && n in nodes && SetsOk(ns)
    requires ns.AllEmpty() ==> AllNotified(ns)
    requires nodes[n].AllEmpty() ==> ns.AllEmpty()
    requires emptied <==> AllNotifiedCount(ns) > AllNotifiedCount(nodes[n])
    ensures var left := if emptied && ns.AllEmpty() then inFlight - 1 else inFlight;
            NodesOk(nodes[n := ns], left, preApplied) && left <= inFlight
    ensures inFlight == 0 ==> !emptied
  {
    BusyWith(nodes, n, ns);
    if nodes[n].AllEmpty() {
      assert AllNotifiedCount(nodes[n]) == 4;
    } else {
      assert n in Busy(nodes);
    }
  }

  lemma RunUpdaterNodes(f: Frame, n: NodeId)
    requires WorldOk(f.w) && Closed(f) && NodesOk(f.nodes, f.inFlight, f.preApplied) && n in f.nodes
    ensures var r := RunUpdater(f, n);
            && NodesOk(r.f.nodes, r.f.inFlight, f.preApplied)
            && r.f.inFlight <= f.inFlight
            && (f.inFlight == 0 ==> !r.emptied)
  {
    UpdateNodeEffect(f.w, n, f.nodes[n]);
    var u := UpdateNode(f.w, n, f.nodes[n]);
    if f.nodes[n].AllEmpty() {
      assert forall i :: !f.nodes[n].Lists(i);
      NothingListed(u.ns);
    }
    NodesOkWith(f.nodes, f.inFlight, f.preApplied, n, u.ns, u.emptied);
  }

  lemma NothingListed(ns: NodeStatus)
    requires forall i :: !ns.Lists(i)
    ensures ns.AllEmpty()
  {
    if ns.outImage.ios != [] { assert ns.Lists(ns.outImage.ios[0]); }
    if ns.inImage.ios != [] { assert ns.Lists(ns.inImage.ios[0]); }
    if ns.outMeta.ios != [] { assert ns.Lists(ns.outMeta.ios[0]); }
    if ns.inMeta.ios != [] { assert ns.Lists(ns.inMeta.ios[0]); }
  }

  lemma Outside<T>(a: set<T>, b: set<T>) returns (u: T)
    requires !(a <= b)
    ensures u in a && u !in b
  {
    u :| u in a && u !in b;
  }

  lemma NotDoneUser(us: Users) returns (u: UserId)
    requires us.active && !us.AllDone()
    ensures us.IsUser(u) && !us.Done(u)
  {
    var done := us.released + us.preReleased;
    if !(us.producers <= done) {
      u := Outside(us.producers, done);
    } else {
      u := Outside(us.consumers, done);
    }
  }

  /** The node that visits lets go of an item only when it is done with it, and then either some listed user
      is not done yet and still lists the item, or the item leaves its map. */
  lemma VisitedListsOk(w: World, r: World, nodes: Nodes, n: NodeId, ns: NodeStatus, roster: Roster)
    requires ItemsOk(w) && n in nodes && ListsOk(w, nodes, roster) && Effect(w, r, n, Listed(nodes[n]))
    requires r.mapped <= r.items.Keys
    requires forall i :: ns.Lists(i) <==> nodes[n].Lists(i) && i in w.items && Keeps(w.items[i].users, n)
    ensures ListsOk(r, nodes[n := ns], roster)
  {
    UsersThrough(w, r, n, Listed(nodes[n]));
    ListedMembers(nodes[n]);
    var after := nodes[n := ns];
    forall i | i in r.mapped && i in r.items && i in roster && OnlyListedUsers(r.items[i].users, roster[i])
      ensures ListedBySome(after, i)
    {
      var us := w.items[i].users;
      assert ItemOk(w, i) && us == r.items[i].users;
      assert ListedBySome(nodes, i);
      var m :| m in nodes && nodes[m].Lists(i);
      if m == n && us.Done(n) {
        assert !Frees(us, n) && us.active;
        var u := NotDoneUser(us);
        assert u in roster[i] && Keeps(us, u);
        assert u in after && after[u].Lists(i);
      } else {
        assert m in after && after[m].Lists(i);
      }
    }
    forall i, u | i in r.items && i in roster && u in roster[i] && Keeps(r.items[i].users, u)
      ensures u in after && after[u].Lists(i)
    {
      assert Keeps(w.items[i].users, u);
    }
  }

  lemma RunUpdaterOk(f: Frame, n: NodeId, roster: Roster)
    requires FrameOk(f, roster)
    ensures var r := RunUpdater(f, n);
            && FrameOk(r.f, roster)
            && r.f.inFlight <= f.inFlight
            && (r.emptied ==> f.inFlight > 0)
  {
    if n in f.nodes {
      UpdateNodeEffect(f.w, n, f.nodes[n]);
      RunUpdaterNodes(f, n);
      var r := RunUpdater(f, n).f;
      VisitedListsOk(f.w, r.w, f.nodes, n, r.nodes[n], roster);
      forall m | m in r.nodes
        ensures KnownNode(r.w, r.nodes[m])
      {
        if m != n {
          assert KnownNode(f.w, f.nodes[m]);
        }
      }
    }
  }

  // ---------------------------------------------------------------- steps of a run

  /** What can happen to a configured frame. `ask` answers are those of the buffer provider. */
  datatype Step =
    | Mark(stream: StreamId, user: UserId, status: Status)
    | Get(image: bool, stream: StreamId, user: UserId, halAsk: Outcome, appAsk: Outcome)
    | MarkBuffer(item: ItemId, user: UserId, status: Status)
    | Release(node: NodeId, realTime: bool, alive: Alive)
    | PreRelease(node: NodeId, alive: Alive)
    | Transfer
    | AddConsumer(item: ItemId, user: UserId)
    | Keep(keepImage: bool, images: set<StreamId>, keepHalMeta: bool, halMetas: set<StreamId>, keepAppMeta: bool)

  /** A provider answers with a buffer of the stream it was asked for. */
  predicate Honest(ask: Outcome, s: StreamId) {
    ask.Answer? && ask.sb.Some? ==> ask.sb.value.stream == s
  }

  /** The buffer that a step hands a user belongs to an item, and the items are those of the frame. */
  predicate Allowed(f: Frame, step: Step) {
    match step
    case Get(_, s, _, halAsk, appAsk) => Honest(halAsk, s) && Honest(appAsk, s)
    case MarkBuffer(i, _, _) => i in f.w.items
    case AddConsumer(i, _) => i in f.w.items && IsImage(i.kind)
    case _ => true
  }

  function Next(f: Frame, step: Step): Frame
    requires Closed(f) && KeysKnown(f.w, f.w.halKeys) && Allowed(f, step)
  {
    match step
    case Mark(s, u, status) => MarkUserStatus(f, s, u, status)
    case Get(image, s, u, halAsk, appAsk) => GetStream(f, image, s, u, halAsk, appAsk).f
    case MarkBuffer(i, u, status) => MarkItem(f, i, u, status)
    case Release(n, realTime, alive) => ApplyRelease(f, n, realTime, alive)
    case PreRelease(n, alive) => ApplyPreRelease(f, n, alive)
    case Transfer => TransferImages(f)
    case AddConsumer(i, u) => f.(w := WithUsers(f.w, i, WithConsumer(f.w.items[i].users, u)))
    case Keep(keepImage, images, keepHalMeta, halMetas, keepAppMeta) =>
      ConfigureKeeping(f, keepImage, images, keepHalMeta, halMetas, keepAppMeta)
  }

  // ---------------------------------------------------------------- marking and acquiring

  /** Items change in users, buffer and acquisition only; nothing leaves a map. */
  ghost predicate Refined(w: World, r: World) {
    && r.mapped == w.mapped && r.counts == w.counts && r.halKeys == w.halKeys
    && r.collector == w.collector && r.items.Keys == w.items.Keys
    && (forall i | i in w.items ::
          && r.items[i].released == w.items[i].released
          && r.items[i].producersReleased == w.items[i].producersReleased
          && Grows(w.items[i].users, r.items[i].users))
  }

  lemma SameBooks(w: World, r: World)
    requires WorldOk(w) && r.mapped == w.mapped && r.counts == w.counts && r.halKeys == w.halKeys
    requires r.collector == w.collector && r.items.Keys == w.items.Keys
    requires forall i | i in w.items :: ItemOk(r, i)
    requires forall i | i in w.items && !IsImage(i.kind) ::
               Produced(r.items[i]) == Produced(w.items[i]) &&
               r.items[i].producersReleased == w.items[i].producersReleased
    ensures WorldOk(r)
  {
    assert Outstanding(r, AppMeta) == Outstanding(w, AppMeta);
    assert Outstanding(r, HalMeta) == Outstanding(w, HalMeta);
    forall k: Kind
      ensures r.counts.At(k) == |OfKind(r.mapped, k)|
    {
      assert w.counts.At(k) == |OfKind(w.mapped, k)|;
    }
  }

  lemma ClosedSame(w: World, r: World, nodes: Nodes)
    requires ClosedIn(w, nodes) && r.items.Keys == w.items.Keys
    ensures ClosedIn(r, nodes)
  {
    forall n | n in nodes
      ensures KnownNode(r, nodes[n])
    {
      assert KnownNode(w, nodes[n]);
    }
  }

  lemma RefinedOk(w: World, r: World, nodes: Nodes, roster: Roster)
    requires WorldOk(w) && ListsOk(w, nodes, roster) && Refined(w, r)
    requires forall i | i in w.items :: ItemOk(r, i)
    ensures WorldOk(r) && ListsOk(r, nodes, roster)
  {
    forall i | i in w.items
      ensures Grows(w.items[i].users, r.items[i].users)
    {}
    SameBooks(w, r);
    forall i, u | i in r.items && i in roster && u in roster[i] && Keeps(r.items[i].users, u)
      ensures u in nodes && nodes[u].Lists(i)
    {
      assert Keeps(w.items[i].users, u);
    }
    forall i | i in r.mapped && i in r.items && i in roster && OnlyListedUsers(r.items[i].users, roster[i])
      ensures ListedBySome(nodes, i)
    {
      assert OnlyListedUsers(w.items[i].users, roster[i]);
    }
  }

  function SetItem(w: World, i: ItemId, item: Item): World {
    w.(items := w.items[i := item])
  }

  /** One item is changed without touching its RELEASE and PRODUCERS_RELEASE bits. */
  lemma SetItemOk(w: World, i: ItemId, item: Item, nodes: Nodes, roster: Roster)
    requires WorldOk(w) && ClosedIn(w, nodes) && ListsOk(w, nodes, roster) && i in w.items
    requires item.released == w.items[i].released && item.producersReleased == w.items[i].producersReleased
    requires Grows(w.items[i].users, item.users)
    requires item.acquired <==> item.buffer.Some?
    requires !(item.acquired && item.acquireFailed)
    requires item.buffer.Some? ==> item.buffer.value.stream == i.stream
    ensures var r := SetItem(w, i, item);
            Refined(w, r) && WorldOk(r) && ClosedIn(r, nodes) && ListsOk(r, nodes, roster)
  {
    var r := SetItem(w, i, item);
    forall j | j in w.items
      ensures ItemOk(r, j)
    {
      assert ItemOk(w, j);
    }
    RefinedOk(w, r, nodes, roster);
    ClosedSame(w, r, nodes);
  }

  lemma MarkItemOk(f: Frame, i: ItemId, u: UserId, s: Status, roster: Roster)
    requires FrameOk(f, roster) && i in f.w.items
    ensures FrameOk(MarkItem(f, i, u, s), roster) && Refined(f.w, MarkItem(f, i, u, s).w)
  {
    assert ItemOk(f.w, i);
    var item := f.w.items[i];
    SetItemOk(f.w, i, item.(users := item.users.Mark(u, s)), f.nodes, roster);
  }

  lemma AcquireOk(f: Frame, i: ItemId, u: UserId, ask: Outcome, roster: Roster)
    requires FrameOk(f, roster) && Honest(ask, i.stream)
    ensures FrameOk(Acquire(f, i, u, ask).f, roster) && Refined(f.w, Acquire(f, i, u, ask).f.w)
  {
    if f.w.counts.At(i.kind) != 0 && i in f.w.mapped && i in f.w.items {
      assert ItemOk(f.w, i);
      var item := f.w.items[i];
      if !item.acquired && item.acquireFailed {
        MarkItemOk(f, i, u, RELEASE, roster);
      } else if !item.acquired && IsImage(i.kind) {
        if ask.Gone? {
          SetItemOk(f.w, i, item.(buffer := None), f.nodes, roster);
        } else if ask.ok && ask.sb.Some? {
          SetItemOk(f.w, i, item.(buffer := ask.sb, acquired := true), f.nodes, roster);
        } else {
          var failed := item.(buffer := None, acquireFailed := true);
          SetItemOk(f.w, i, failed, f.nodes, roster);
          var g := f.(w := SetItem(f.w, i, failed), out := f.out.(requests := f.out.requests + [i]));
          MarkItemOk(g, i, u, RELEASE, roster);
          RefinedTrans(f.w, g.w, MarkItem(g, i, u, RELEASE).w);
        }
      }
    }
  }

  lemma RefinedTrans(w: World, m: World, r: World)
    requires Refined(w, m) && Refined(m, r)
    ensures Refined(w, r)
  {
    forall i | i in w.items
      ensures Grows(w.items[i].users, r.items[i].users)
    {
      assert Grows(w.items[i].users, m.items[i].users) && Grows(m.items[i].users, r.items[i].users);
    }
  }

  lemma GetBufferOk(f: Frame, i: ItemId, u: UserId, ask: Outcome, roster: Roster)
    requires FrameOk(f, roster) && Honest(ask, i.stream)
    ensures FrameOk(GetBuffer(f, i, u, ask).f, roster) && Refined(f.w, GetBuffer(f, i, u, ask).f.w)
  {
    AcquireOk(f, i, u, ask, roster);
    GetBufferFrame(f, i, u, ask);
  }

  lemma GetBufferFrame(f: Frame, i: ItemId, u: UserId, ask: Outcome)
    ensures GetBuffer(f, i, u, ask).f == Acquire(f, i, u, ask).f
  {}

  lemma GetStreamOk(f: Frame, image: bool, s: StreamId, u: UserId, halAsk: Outcome, appAsk: Outcome, roster: Roster)
    requires FrameOk(f, roster) && Honest(halAsk, s) && Honest(appAsk, s)
    ensures FrameOk(GetStream(f, image, s, u, halAsk, appAsk).f, roster)
    ensures Refined(f.w, GetStream(f, image, s, u, halAsk, appAsk).f.w)
  {
    var hal := ItemId(if image then HalImage else HalMeta, s);
    GetBufferOk(f, hal, u, halAsk, roster);
    var g := GetBuffer(f, hal, u, halAsk);
    SecondLook(f, g, ItemId(if image then AppImage else AppMeta, s), u, appAsk, roster);
  }

  lemma SecondLook(f: Frame, g: Got, i: ItemId, u: UserId, ask: Outcome, roster: Roster)
    requires FrameOk(f, roster) && Refined(f.w, g.f.w) && FrameOk(g.f, roster) && Honest(ask, i.stream)
    ensures var r := GetBuffer(g.f, i, u, ask).f; FrameOk(r, roster) && Refined(f.w, r.w)
  {
    GetBufferOk(g.f, i, u, ask, roster);
    RefinedTrans(f.w, g.f.w, GetBuffer(g.f, i, u, ask).f.w);
  }

  // ---------------------------------------------------------------- applying

  lemma {:induction false} ReleaseDoneImagesOk(w: World, keys: seq<StreamId>)
    requires WorldOk(w) && KeysKnown(w, keys)
    ensures var r := ReleaseDoneImages(w, keys);
            && WorldOk(r) && r.halKeys == w.halKeys && r.mapped <= w.mapped
            && (forall i | i in w.items :: SameButBits(w.items[i], r.items[i]))
            && (forall i | i in w.mapped :: i in r.mapped || (i.kind == HalImage && w.items[i].users.AllReleased()))
  {
    if keys != [] {
      var front := keys[..|keys| - 1];
      assert forall s | s in front :: s in keys;
      ReleaseDoneImagesOk(w, front);
      var w1 := ReleaseDoneImages(w, front);
      var i := ItemId(HalImage, keys[|keys| - 1]);
      assert SameButBits(w.items[i], w1.items[i]);
      if i in w1.mapped && w1.items[i].users.AllReleased() {
        AllUsersReleasedOk(w1, i);
        AllUsersReleasedEffect(w1, i);
        forall j | j in w.items
          ensures SameButBits(w.items[j], AllUsersReleased(w1, i).items[j])
        {
          assert SameButBits(w.items[j], w1.items[j]);
        }
      }
    }
  }

  /** Fewer mapped items, same users and nodes. */
  lemma UnmapOk(w: World, r: World, nodes: Nodes, roster: Roster)
    requires ClosedIn(w, nodes) && ListsOk(w, nodes, roster)
    requires r.items.Keys == w.items.Keys && r.mapped <= w.mapped
    requires forall i | i in w.items :: SameButBits(w.items[i], r.items[i])
    ensures ClosedIn(r, nodes) && ListsOk(r, nodes, roster)
  {
    forall i | i in r.items
      ensures r.items[i].users == w.items[i].users
    {
      assert SameButBits(w.items[i], r.items[i]);
    }
    ClosedSame(w, r, nodes);
    forall i | i in r.mapped && i in r.items && i in roster && OnlyListedUsers(r.items[i].users, roster[i])
      ensures ListedBySome(nodes, i)
    {
      assert OnlyListedUsers(w.items[i].users, roster[i]);
    }
  }

  lemma DrainedOk(w: World)
    requires WorldOk(w)
    ensures WorldOk(w.(collector := w.collector.Drained()))
  {
    var r := w.(collector := w.collector.Drained());
    forall i | i in r.items
      ensures ItemOk(r, i)
    {
      assert ItemOk(w, i);
    }
    assert forall k: Kind :: r.counts.At(k) == w.counts.At(k);
    assert Outstanding(r, AppMeta) == Outstanding(w, AppMeta);
    assert Outstanding(r, HalMeta) == Outstanding(w, HalMeta);
  }

  lemma DrainFrameOk(f: Frame, roster: Roster)
    requires FrameOk(f, roster)
    ensures FrameOk(f.(w := f.w.(collector := f.w.collector.Drained())), roster)
  {
    DrainedOk(f.w);
    UnmapOk(f.w, f.w.(collector := f.w.collector.Drained()), f.nodes, roster);
  }

  lemma UpdateForReleaseOk(f: Frame, n: NodeId, roster: Roster)
    requires FrameOk(f, roster)
    ensures FrameOk(UpdateForRelease(f, n).f, roster)
  {
    RunUpdaterOk(f, n, roster);
  }

  lemma AiawbReleaseOk(f: Frame, n: NodeId, roster: Roster)
    requires FrameOk(f, roster) && KeysKnown(f.w, f.w.halKeys)
    ensures FrameOk(AiawbRelease(f, n), roster)
  {
    ReleaseDoneImagesOk(f.w, f.w.halKeys);
    UnmapOk(f.w, ReleaseDoneImages(f.w, f.w.halKeys), f.nodes, roster);
  }

  lemma ApplyReleaseOk(f: Frame, n: NodeId, realTime: bool, alive: Alive, roster: Roster)
    requires FrameOk(f, roster)
    ensures FrameOk(ApplyRelease(f, n, realTime, alive), roster)
    ensures ApplyRelease(f, n, realTime, alive).w.collector.IsDrained()
  {
    UpdateKeepsKeys(f, n);
    var r := UpdateForRelease(f, n);
    UpdateForReleaseOk(f, n, roster);
    AiawbReleaseOk(r.f, n, roster);
    DrainFrameOk(AiawbRelease(r.f, n), roster);
  }

  lemma ApplyPreReleaseOk(f: Frame, n: NodeId, alive: Alive, roster: Roster)
    requires FrameOk(f, roster)
    ensures FrameOk(ApplyPreRelease(f, n, alive), roster)
    ensures ApplyPreRelease(f, n, alive).w.collector.IsDrained()
  {
    RunUpdaterOk(f, n, roster);
    DrainFrameOk(RunUpdater(f, n).f, roster);
  }

  lemma AddConsumerBooks(w: World, i: ItemId, u: UserId)
    requires WorldOk(w) && i in w.items && IsImage(i.kind)
    ensures WorldOk(WithUsers(w, i, WithConsumer(w.items[i].users, u)))
  {
    var r := WithUsers(w, i, WithConsumer(w.items[i].users, u));
    forall j | j in r.items
      ensures ItemOk(r, j)
    {
      assert ItemOk(w, j);
    }
    SameBooks(w, r);
  }

  /** A newcomer was not among the listed users, so nothing is promised for its item from now on. */
  lemma AddConsumerLists(w: World, i: ItemId, u: UserId, nodes: Nodes, roster: Roster)
    requires ItemsOk(w) && ListsOk(w, nodes, roster) && i in w.items
    ensures ListsOk(WithUsers(w, i, WithConsumer(w.items[i].users, u)), nodes, roster)
  {
    var us := w.items[i].users;
    var r := WithUsers(w, i, WithConsumer(us, u));
    forall j, v | j in r.items && j in roster && v in roster[j] && Keeps(r.items[j].users, v)
      ensures v in nodes && nodes[v].Lists(j)
    {
      assert Keeps(w.items[j].users, v);
    }
    forall j | j in r.mapped && j in r.items && j in roster && OnlyListedUsers(r.items[j].users, roster[j])
      ensures ListedBySome(nodes, j)
    {
      assert OnlyListedUsers(w.items[j].users, roster[j]);
    }
  }

  lemma AddConsumerOk(f: Frame, i: ItemId, u: UserId, roster: Roster)
    requires FrameOk(f, roster) && i in f.w.items && IsImage(i.kind)
    ensures FrameOk(Next(f, AddConsumer(i, u)), roster)
  {
    AddConsumerBooks(f.w, i, u);
    AddConsumerLists(f.w, i, u, f.nodes, roster);
    ClosedSame(f.w, WithUsers(f.w, i, WithConsumer(f.w.items[i].users, u)), f.nodes);
  }

  // ---------------------------------------------------------------- main results

  /** The in-flight count is the number of nodes with something left to release, and when it is zero every
      item whose users are all listed nodes has been released. */
  lemma FrameDoneIsSound(f: Frame, roster: Roster)
    requires FrameOk(f, roster) && f.inFlight == 0
    ensures forall n | n in f.nodes :: f.nodes[n].AllEmpty()
    ensures forall i | i in f.w.items && i in roster && OnlyListedUsers(f.w.items[i].users, roster[i]) ::
              i !in f.w.mapped
  {
    assert Busy(f.nodes) == {};
    forall n | n in f.nodes
      ensures f.nodes[n].AllEmpty()
    {
      assert n !in Busy(f.nodes);
    }
    forall i | i in f.w.items && i in roster && OnlyListedUsers(f.w.items[i].users, roster[i])
      ensures i !in f.w.mapped
    {
      assert !ListedBySome(f.nodes, i);
    }
  }

  /** ... and then mNonReleasedNum is zero in all four maps. */
  lemma FrameDoneReleasesAll(f: Frame, roster: Roster)
    requires FrameOk(f, roster) && f.inFlight == 0
    requires forall i | i in f.w.items :: i in roster && OnlyListedUsers(f.w.items[i].users, roster[i])
    ensures f.w.mapped == {} && f.w.counts == Counts(0, 0, 0, 0)
  {
    FrameDoneIsSound(f, roster);
    assert f.w.mapped == {};
    forall k: Kind
      ensures f.w.counts.At(k) == 0
    {
      assert OfKind(f.w.mapped, k) == {};
    }
    assert f.w.counts.At(AppImage) == 0 && f.w.counts.At(AppMeta) == 0;
    assert f.w.counts.At(HalImage) == 0 && f.w.counts.At(HalMeta) == 0;
  }
}

/** The frame as an object that its calls change in place (PipelineBufferSetFrameControlImp), proved to do what
    FrameModel says. `Frame()` is the value the fields stand for. */
module FrameControl {
  import opened Users
  import opened SortedKeys
  import opened Wrappers
  import opened FrameModel
  import opened FrameConfiguration

  // ---------------------------------------------------------------- visits leave users and items alone

  lemma VisitUsers(w: World, n: NodeId, i: ItemId)
    requires i in w.items
    ensures Visit(w, n, i).items.Keys == w.items.Keys
    ensures forall j | j in w.items :: Visit(w, n, i).items[j].users == w.items[j].users
  {
    ProducersReleasedUsers(w, n, i);
    var m := ProducersReleased(ProducersReleasedByNode(w, n, i), i);
    AllUsersReleasedUsers(w, i);
    AllUsersReleasedUsers(m, i);
  }

  lemma ProducersReleasedUsers(w: World, n: NodeId, i: ItemId)
    requires i in w.items
    ensures var r := ProducersReleased(ProducersReleasedByNode(w, n, i), i);
            && r.items.Keys == w.items.Keys
            && forall j | j in w.items :: r.items[j].users == w.items[j].users
  {
    assert ProducersReleasedByNode(w, n, i).items == w.items;
  }

  lemma AllUsersReleasedUsers(w: World, i: ItemId)
    requires i in w.items
    ensures AllUsersReleased(w, i).items.Keys == w.items.Keys
    ensures forall j | j in w.items :: AllUsersReleased(w, i).items[j].users == w.items[j].users
  {}

  /** One more item in front of the place where the loop stands. */
  lemma OneMoreVisited(w: World, m: World, n: NodeId, ios: seq<ItemId>, seen: nat)
    requires Known(w, ios) && seen < |ios| && m == VisitAll(w, n, ios[..seen])
    ensures ios[seen] in m.items && m.items[ios[seen]].users == w.items[ios[seen]].users
    ensures VisitAll(w, n, ios[..seen + 1]) == Visit(m, n, ios[seen])
    ensures Kept(w.items, n, ios[..seen + 1]) ==
            Kept(w.items, n, ios[..seen]) + if Keeps(w.items[ios[seen]].users, n) then [ios[seen]] else []
  {
    assert ios[seen] in ios && ios[..seen + 1][..seen] == ios[..seen];
    VisitAllUsers(w, n, ios[..seen]);
  }

  lemma {:induction false} VisitAllUsers(w: World, n: NodeId, ios: seq<ItemId>)
    requires Known(w, ios)
    ensures forall j | j in w.items :: VisitAll(w, n, ios).items[j].users == w.items[j].users
  {
    if ios != [] {
      VisitAllUsers(w, n, ios[..|ios| - 1]);
      VisitUsers(VisitAll(w, n, ios[..|ios| - 1]), n, ios[|ios| - 1]);
    }
  }

  /** Erasing or stepping over the element at the end of the kept part. */
  lemma EraseOrKeep(kept: seq<ItemId>, ios: seq<ItemId>, seen: nat)
    requires seen < |ios|
    ensures var all, it := kept + ios[seen..], |kept|;
            && all[it] == ios[seen]
            && all == (kept + [ios[seen]]) + ios[seen + 1..]
            && all[..it] + all[it + 1..] == (kept + []) + ios[seen + 1..]
  {}

  class FrameControl {
    var items: map<ItemId, Item>
    var mapped: set<ItemId>
    var counts: Counts
    var halKeys: seq<StreamId>
    var collector: Collector
    var nodes: map<NodeId, NodeStatus>
    var inFlightNodeCount: int
    var alreadyApplyPreRelease: bool
    var pendingHalImage: Pending
    var pendingHalMeta: Pending
    var pendingAppMeta: Pending
    var out: Outbox

    ghost function Maps(): World
      reads this
    {
      World(items, mapped, counts, halKeys, collector)
    }

    ghost function State(): Frame
      reads this
    {
      Frame(Maps(), nodes, inFlightNodeCount, alreadyApplyPreRelease,
            pendingHalImage, pendingHalMeta, pendingAppMeta, out)
    }

    constructor (f: Frame)
      ensures State() == f
    {
      items, mapped, counts, halKeys, collector := f.w.items, f.w.mapped, f.w.counts, f.w.halKeys, f.w.collector;
      nodes, inFlightNodeCount, alreadyApplyPreRelease := f.nodes, f.inFlight, f.preApplied;
      pendingHalImage, pendingHalMeta, pendingAppMeta, out :=
        f.pendingImage, f.pendingHalMeta, f.pendingAppMeta, f.out;
    }

    // -------------------------------------------------------------- items

    method HandleAllUsersReleased(i: ItemId)
      requires i in items
      modifies `items, `mapped, `counts, `collector
      ensures Maps() == AllUsersReleased(old(Maps()), i)
    {
      var item := items[i];
      if !item.released {
        items := items[i := item.(released := true)];
        if i in mapped {
          collector := CollectFree(collector, i.kind, item);
          counts := counts.Plus(i.kind, -1);
          mapped := mapped - {i};
        }
      }
    }

    method HandleProducersReleasedByNodeId(n: NodeId, i: ItemId)
      requires i in items
      modifies `collector
      ensures Maps() == ProducersReleasedByNode(old(Maps()), n, i)
    {
      var item := items[i];
      if !item.producersReleased && Produced(item) && item.buffer.Some? {
        if i.kind == AppMeta {
          collector := collector.(appByNode := AppendFor(collector.appByNode, n, item.buffer.value));
        } else if i.kind == HalMeta {
          collector := collector.(halByNode := AppendFor(collector.halByNode, n, item.buffer.value));
        }
      }
    }

    method HandleProducersReleased(i: ItemId)
      requires i in items
      modifies `items, `collector
      ensures Maps() == ProducersReleased(old(Maps()), i)
    {
      var item := items[i];
      if !item.producersReleased {
        items := items[i := item.(producersReleased := true)];
        collector := CollectProduced(collector, i.kind, item);
      }
    }

    // -------------------------------------------------------------- NodeStatusUpdater

    /** One turn of the loop of updateNodeStatus; the item is to be erased from the set unless it is kept. */
    method VisitItem(n: NodeId, i: ItemId) returns (keep: bool)
      requires i in items
      modifies `items, `mapped, `counts, `collector
      ensures Maps() == Visit(old(Maps()), n, i)
      ensures keep == Keeps(old(items[i].users), n)
    {
      var us := items[i].users;
      if !us.active {
        return false;
      }
      if us.ProducersDone() {
        HandleProducersReleasedByNodeId(n, i);
        HandleProducersReleased(i);
      }
      if !us.Done(n) {
        return true;
      }
      if us.AllDone() {
        HandleAllUsersReleased(i);
      }
      return false;
    }

    method VisitNext(n: NodeId, i: ItemId, ghost w: World, ghost ios: seq<ItemId>, ghost seen: nat) returns (keep: bool)
      requires Known(w, ios) && seen < |ios| && ios[seen] == i && Maps() == VisitAll(w, n, ios[..seen])
      modifies `items, `mapped, `counts, `collector
      ensures Maps() == VisitAll(w, n, ios[..seen + 1])
      ensures Kept(w.items, n, ios[..seen + 1]) == Kept(w.items, n, ios[..seen]) + if keep then [i] else []
    {
      OneMoreVisited(w, Maps(), n, ios, seen);
      keep := VisitItem(n, i);
    }

    /** updateNodeStatus: the set shrinks in place. */
    method UpdateNodeStatus(n: NodeId, s: IOSet) returns (r: IOSet, emptied: bool)
      requires Known(Maps(), s.ios)
      modifies `items, `mapped, `counts, `collector
      ensures SetUpdate(Maps(), r, emptied) == UpdateSet(old(Maps()), n, s)
    {
      if s.notified {
        return s, false;
      }
      ghost var w := Maps();
      var ios := s.ios;
      var it := 0;
      ghost var seen: nat := 0;
      ghost var kept := [];
      while it < |ios|
        invariant seen <= |s.ios| && it == |kept| && ios == kept + s.ios[seen..]
        invariant kept == Kept(w.items, n, s.ios[..seen])
        invariant Maps() == VisitAll(w, n, s.ios[..seen])
        decreases |s.ios| - seen
      {
        EraseOrKeep(kept, s.ios, seen);
        var keep := VisitNext(n, ios[it], w, s.ios, seen);
        kept := kept + if keep then [s.ios[seen]] else [];
        if keep {
          it := it + 1;
        } else {
          ios := ios[..it] + ios[it + 1..];
        }
        seen := seen + 1;
      }
      assert s.ios[..|s.ios|] == s.ios;
      if ios == [] {
        return IOSet(ios, true), true;
      }
      return IOSet(ios, false), false;
    }

    /** NodeStatusUpdater::run. */
    method RunNodeStatusUpdater(n: NodeId) returns (anyUpdate: bool, outImage: bool, outMeta: bool)
      requires Closed(State())
      modifies `items, `mapped, `counts, `collector, `nodes, `inFlightNodeCount
      ensures RunResult(State(), anyUpdate, outImage, outMeta) == RunUpdater(old(State()), n)
    {
      if n !in nodes {
        return false, false, false;
      }
      var ns := nodes[n];
      ghost var w := Maps();
      assert KnownNode(w, ns);
      var oi, oie := UpdateNodeStatus(n, ns.outImage);
      SameKeys(w, n, ns.outImage);
      ghost var w1 := Maps();
      var ii, iie := UpdateNodeStatus(n, ns.inImage);
      SameKeys(w1, n, ns.inImage);
      ghost var w2 := Maps();
      var om, ome := UpdateNodeStatus(n, ns.outMeta);
      SameKeys(w2, n, ns.outMeta);
      var im, ime := UpdateNodeStatus(n, ns.inMeta);
      nodes := nodes[n := NodeStatus(oi, ii, om, im)];
      anyUpdate, outImage, outMeta := oie || iie || ome || ime, oie, ome;
      if anyUpdate && oi.ios == [] && ii.ios == [] && om.ios == [] && im.ios == [] {
        inFlightNodeCount := inFlightNodeCount - 1;
      }
    }

    lemma SameKeys(w: World, n: NodeId, s: IOSet)
      requires Known(w, s.ios)
      ensures UpdateSet(w, n, s).w.items.Keys == w.items.Keys
    {}

    // -------------------------------------------------------------- handing buffers out

    /** tryKeepPendingReleaseBuffers: with targets, kept buffers leave null entries in the list. */
    method TryKeepPendingReleaseBuffers(list: seq<Option<Buffer>>, p: Pending) returns (r: KeepResult)
      ensures r == TryKeep(list, p)
    {
      if !p.keep {
        return KeepResult(list, p);
      }
      var kept := p;
      if p.target == {} {
        assert Somes([]) == [];
        for k := 0 to |list|
          invariant kept == p.(buffers := p.buffers + Somes(list[..k]))
        {
          assert list[..k + 1][..k] == list[..k];
          if list[k].Some? {
            kept := kept.(buffers := kept.buffers + [list[k].value]);
          }
        }
        assert list[..|list|] == list;
        return KeepResult([], kept);
      }
      var left := list;
      for k := 0 to |list|
        invariant |left| == |list|
        invariant KeepTargets(list[..k], p) == KeepResult(left[..k], kept)
        invariant left[k..] == list[k..]
        invariant kept.target == p.target
      {
        assert list[..k + 1][..k] == list[..k];
        assert left[k] == list[k];
        ghost var before := left;
        if left[k].Some? && left[k].value.stream in kept.target {
          kept := kept.(buffers := kept.buffers + [left[k].value]);
          left := left[k := None];
        }
        assert left[..k + 1] == before[..k] + [left[k]];
      }
      assert list[..|list|] == list && left[..|list|] == left;
      return KeepResult(left, kept);
    }

    /** handleReturnResult: null entries are left out of the meta lists but not of the image list. */
    method HandleReturnResult(processor: bool, images: seq<Option<Buffer>>, halMetas: seq<Option<Buffer>>,
                              appMetas: seq<Option<Buffer>>, destroyed: bool)
      modifies `out
      ensures out == ReturnResult(old(out), processor, images, halMetas, appMetas, destroyed)
    {
      if processor {
        var hal := WithoutNulls(halMetas);
        var app := WithoutNulls(appMetas);
        out := out.(sent := out.sent + [Sent(images, hal, app, destroyed)]);
      } else {
        var gone := WithoutNulls(images);
        var goneHal := WithoutNulls(halMetas);
        var goneApp := WithoutNulls(appMetas);
        out := out.(lost := out.lost + gone, lostHalMetas := out.lostHalMetas + goneHal,
                    lostAppMetas := out.lostAppMetas + goneApp);
      }
    }

    method WithoutNulls(list: seq<Option<Buffer>>) returns (r: seq<Buffer>)
      ensures r == Somes(list)
    {
      r := [];
      for k := 0 to |list|
        invariant r == Somes(list[..k])
      {
        assert list[..k + 1][..k] == list[..k];
        if list[k].Some? {
          r := r + [list[k].value];
        }
      }
      assert list[..|list|] == list;
    }

    method TellApplication(c: Collector, user: NodeId, callback: bool, realTime: bool)
      modifies `out
      ensures out == Report(old(out), c, user, callback, realTime)
    {
      if callback {
        if c.appImages != [] {
          out := out.(appImages := out.appImages + [c.appImages]);
        }
        out := out.(updates := out.updates + [Update(user, c.appLeft, c.appMetasO, c.halLeft, c.halMetasO,
                                                     c.appByNode, c.halByNode, false, realTime)]);
      }
    }

    /** handleReleasedBuffers. */
    method HandleReleasedBuffers(user: NodeId, callback: bool, realTime: bool, processor: bool)
      modifies `collector, `pendingHalImage, `pendingHalMeta, `pendingAppMeta, `out
      ensures State() == HandleReleased(old(State()), user, callback, realTime, processor)
    {
      var c := collector;
      collector := c.Drained();
      TellApplication(c, user, callback, realTime);
      var app := TryKeepPendingReleaseBuffers(Wrap(c.appMetasO), pendingAppMeta);
      pendingAppMeta := app.pending;
      var image := TryKeepPendingReleaseBuffers(Wrap(c.halImages), pendingHalImage);
      pendingHalImage := image.pending;
      var hal := TryKeepPendingReleaseBuffers(Wrap(c.halMetas), pendingHalMeta);
      pendingHalMeta := hal.pending;
      HandleReturnResult(processor, image.list, hal.list, app.list, false);
    }

    // -------------------------------------------------------------- applying

    method NotifyListeners(n: NodeId, outMeta: bool, outImage: bool, released: bool)
      modifies `out
      ensures State() == Notify(old(State()), Notices(n, outMeta, outImage) + if released then [FrameReleased] else [])
    {
      if outMeta {
        out := out.(notices := out.notices + [NodeNotice(n, ALL_OUT_META_BUFFERS_RELEASED)]);
      }
      if outImage {
        out := out.(notices := out.notices + [NodeNotice(n, ALL_OUT_IMAGE_BUFFERS_RELEASED)]);
      }
      if released {
        out := out.(notices := out.notices + [FrameReleased]);
      }
      assert out.notices == old(out.notices) + (Notices(n, outMeta, outImage) + if released then [FrameReleased] else []);
    }

    /** The loop over the Hal images for the users of AIAWB. */
    method ReleaseDone()
      requires KeysKnown(Maps(), halKeys)
      modifies `items, `mapped, `counts, `collector
      ensures Maps() == ReleaseDoneImages(old(Maps()), old(halKeys))
    {
      ghost var w := Maps();
      for k := 0 to |halKeys|
        invariant halKeys == w.halKeys
        invariant forall s | s in halKeys[..k] :: s in halKeys
        invariant Maps() == ReleaseDoneImages(w, w.halKeys[..k])
      {
        assert w.halKeys[..k + 1][..k] == w.halKeys[..k];
        var i := ItemId(HalImage, halKeys[k]);
        assert halKeys[k] in halKeys;
        if i in mapped && items[i].users.AllReleased() {
          HandleAllUsersReleased(i);
        }
      }
      assert w.halKeys[..|w.halKeys|] == w.halKeys;
    }

    method UpdateForRelease(n: NodeId) returns (ghost anyUpdate: bool, outImage: bool, outMeta: bool)
      requires Closed(State())
      modifies `items, `mapped, `counts, `collector, `nodes, `inFlightNodeCount, `alreadyApplyPreRelease
      ensures RunResult(State(), anyUpdate, outImage, outMeta) == FrameModel.UpdateForRelease(old(State()), n)
    {
      if alreadyApplyPreRelease {
        return false, false, false;
      }
      var any;
      any, outImage, outMeta := RunNodeStatusUpdater(n);
      if any && inFlightNodeCount == 0 {
        alreadyApplyPreRelease := true;
      }
      anyUpdate := any;
    }

    method ReleaseForAiawb(n: NodeId)
      requires KeysKnown(Maps(), halKeys)
      modifies `items, `mapped, `counts, `collector
      ensures State() == AiawbRelease(old(State()), n)
    {
      if IsAiawb(n) && counts.halImage > 0 {
        ReleaseDone();
      }
    }

    method ApplyRelease(n: NodeId, realTime: bool, alive: Alive)
      requires Closed(State()) && KeysKnown(Maps(), halKeys)
      modifies this
      ensures State() == FrameModel.ApplyRelease(old(State()), n, realTime, alive)
    {
      UpdateKeepsKeys(State(), n);
      var callback := !alreadyApplyPreRelease && alive.appCallback;
      ghost var any;
      var outImage, outMeta;
      any, outImage, outMeta := UpdateForRelease(n);
      ReleaseForAiawb(n);
      HandleReleasedBuffers(n, callback, realTime, alive.processor);
      NotifyListeners(n, outMeta, outImage, false);
      assert Notices(n, outMeta, outImage) + [] == Notices(n, outMeta, outImage);
    }

    method ApplyPreRelease(n: NodeId, alive: Alive)
      requires Closed(State())
      modifies this
      ensures State() == FrameModel.ApplyPreRelease(old(State()), n, alive)
    {
      var anyUpdate, outImage, outMeta := RunNodeStatusUpdater(n);
      var done := anyUpdate && inFlightNodeCount == 0;
      if done {
        alreadyApplyPreRelease := true;
      }
      var c := collector;
      collector := c.Drained();
      TellApplication(c, n, alive.appCallback, false);
      out := out.(dropped := out.dropped + c.halImages, droppedHalMetas := out.droppedHalMetas + c.halMetas,
                  droppedAppMetas := out.droppedAppMetas + c.appMetasO);
      NotifyListeners(n, outMeta, outImage, done);
    }

    // -------------------------------------------------------------- configuration

    /** TItemMap::add. */
    method AddItem(i: ItemId, buffer: Option<Buffer>)
      modifies `items, `mapped, `counts, `halKeys
      ensures Maps() == Add(old(Maps()), i, buffer)
    {
      items := items[i := Item(buffer, NoUsers(), buffer.Some?, false, false, false)];
      mapped := mapped + {i};
      counts := counts.Plus(i.kind, 1);
      if i.kind == HalImage {
        halKeys := InsertKey(halKeys, i.stream);
      }
    }

    /** The loop of ReleasedCollector::finishConfiguration over one map. */
    method CountProduced(k: Kind) returns (n: nat)
      ensures n == |ProducedOf(items, k)|
    {
      n := 0;
      var todo := items.Keys;
      ghost var found: set<ItemId> := {};
      while todo != {}
        invariant todo <= items.Keys && n == |found|
        invariant forall i :: i in found <==> i in ProducedOf(items, k) && i !in todo
        decreases |todo|
      {
        var i := Pick(todo);
        todo := todo - {i};
        if i.kind == k && Produced(items[i]) {
          assert i !in found;
          found := found + {i};
          n := n + 1;
        }
      }
      assert found == ProducedOf(items, k);
    }

    /** The loop over the nodes of the frame. */
    method SetUpNodes(order: seq<NodeId>, plan: map<NodeId, NodePlan>)
      requires nodes == map[] && inFlightNodeCount == 0
      requires forall j, k | 0 <= j < k < |order| :: order[j] != order[k]
      requires forall n | n in order :: n in plan
      modifies `nodes, `inFlightNodeCount
      ensures nodes == NodesFor(mapped, order, plan) && inFlightNodeCount == |nodes|
    {
      for k := 0 to |order|
        invariant nodes == NodesFor(mapped, order[..k], plan) && inFlightNodeCount == |nodes|
        invariant forall n | n in nodes :: n in order[..k]
      {
        assert order[..k + 1][..k] == order[..k];
        var n := order[k];
        assert n !in order[..k];
        var ns := StatusFor(mapped, plan[n]);
        if !ns.AllEmpty() {
          nodes := nodes[n := ns];
          inFlightNodeCount := inFlightNodeCount + 1;
        }
      }
      assert order[..|order|] == order;
    }

    /** finishConfigurationLocked. */
    method FinishConfiguration(order: seq<NodeId>, plan: map<NodeId, NodePlan>)
      requires nodes == map[] && inFlightNodeCount == 0
      requires forall j, k | 0 <= j < k < |order| :: order[j] != order[k]
      requires forall n | n in order :: n in plan
      modifies `collector, `nodes, `inFlightNodeCount
      ensures var f := Finish(old(Maps()), order, plan);
              Maps() == f.w && nodes == f.nodes && inFlightNodeCount == f.inFlight
    {
      var app := CountProduced(AppMeta);
      var hal := CountProduced(HalMeta);
      collector := collector.(appLeft := app, halLeft := hal);
      SetUpNodes(order, plan);
    }

    // -------------------------------------------------------------- users and buffers

    method MarkUser(i: ItemId, u: UserId, s: Status)
      requires i in items
      modifies `items
      ensures State() == MarkItem(old(State()), i, u, s)
    {
      items := items[i := items[i].(users := items[i].users.Mark(u, s))];
    }

    /** markUserStatus. */
    method MarkUserStatus(s: StreamId, u: UserId, status: Status)
      modifies `items
      ensures State() == FrameModel.MarkUserStatus(old(State()), s, u, status)
    {
      var i := FindItem(World(items, mapped, counts, halKeys, collector), s);
      if i.Some? && i.value in mapped && i.value in items {
        MarkUser(i.value, u, status);
      }
    }

    /** getBufferLockedImp; `ask` is what the provider answers if it is asked. */
    method GetBufferLockedImp(i: ItemId, u: UserId, ask: Outcome) returns (found: Option<ItemId>)
      modifies `items, `out
      ensures Got(State(), found) == Acquire(old(State()), i, u, ask)
    {
      if counts.At(i.kind) == 0 || i !in mapped || i !in items {
        return None;
      }
      if !items[i].acquired {
        if items[i].acquireFailed {
          MarkUser(i, u, RELEASE);
          return None;
        }
        if IsImage(i.kind) {
          if ask.Gone? {
            items := items[i := items[i].(buffer := None)];
            return None;
          }
          out := out.(requests := out.requests + [i]);
          if ask.ok && ask.sb.Some? {
            items := items[i := items[i].(buffer := ask.sb, acquired := true)];
            return Some(i);
          }
          items := items[i := items[i].(buffer := None, acquireFailed := true)];
          MarkUser(i, u, RELEASE);
          return None;
        }
      }
      return if items[i].buffer.Some? then Some(i) else None;
    }

    /** getBufferLocked. */
    method GetBufferLocked(i: ItemId, u: UserId, ask: Outcome) returns (found: Option<ItemId>)
      modifies `items, `out
      ensures Got(State(), found) == GetBuffer(old(State()), i, u, ask)
    {
      found := GetBufferLockedImp(i, u, ask);
      if found.Some? && i in items {
        if items[i].users.AllReleased() {
          return None;
        }
        if !items[i].users.MayAcquire(u) {
          return None;
        }
      }
    }

    /** getImageBuffer and getMetaBuffer. */
    method GetStreamBuffer(image: bool, s: StreamId, u: UserId, halAsk: Outcome, appAsk: Outcome)
      returns (found: Option<ItemId>)
      modifies `items, `out
      ensures Got(State(), found) == GetStream(old(State()), image, s, u, halAsk, appAsk)
    {
      found := GetBufferLocked(ItemId(if image then HalImage else HalMeta, s), u, halAsk);
      if found.None? {
        found := GetBufferLocked(ItemId(if image then AppImage else AppMeta, s), u, appAsk);
      }
    }

    // -------------------------------------------------------------- leaving the frame

    /** configureInformationKeeping. */
    method ConfigureInformationKeeping(keepTimestamp: bool, keepHalImage: bool, targetHalImage: set<StreamId>,
                                       keepHalMeta: bool, targetHalMeta: set<StreamId>, keepAppMeta: bool)
      modifies `pendingHalImage, `pendingHalMeta, `pendingAppMeta
      ensures State() == ConfigureKeeping(old(State()), keepHalImage, targetHalImage, keepHalMeta, targetHalMeta,
                                          keepAppMeta || keepTimestamp)
    {
      pendingHalImage := pendingHalImage.(keep := keepHalImage);
      if keepHalImage && targetHalImage != {} {
        pendingHalImage := pendingHalImage.(target := targetHalImage);
      }
      pendingHalMeta := pendingHalMeta.(keep := keepHalMeta);
      if keepHalMeta && targetHalMeta != {} {
        pendingHalMeta := pendingHalMeta.(target := targetHalMeta);
      }
      pendingAppMeta := pendingAppMeta.(keep := keepAppMeta || keepTimestamp);
    }

    /** transferPendingReleaseBuffers: the users of each buffer are reset before it changes hands. */
    method TransferPendingReleaseBuffers() returns (given: seq<Buffer>)
      modifies `items, `pendingHalImage, `out
      ensures State() == TransferImages(old(State()))
      ensures given == old(pendingHalImage.buffers)
    {
      given := pendingHalImage.buffers;
      pendingHalImage := pendingHalImage.(buffers := []);
      for k := 0 to |given|
        invariant items == ResetUsers(old(items), given[..k])
        modifies `items
      {
        assert given[..k + 1][..k] == given[..k];
        var i := ItemId(HalImage, given[k].stream);
        if i in items && items[i].buffer == Some(given[k]) {
          items := items[i := items[i].(users := items[i].users.Reset())];
        }
      }
      assert given[..|given|] == given;
      out := out.(transferred := out.transferred + given);
    }

    /** The loop of forceReleaseHalImage. */
    method CollectLeftImages() returns (left: seq<Buffer>)
      requires KeysKnown(Maps(), halKeys)
      ensures left == LeftImages(Maps(), halKeys)
    {
      left := [];
      for k := 0 to |halKeys|
        invariant forall s | s in halKeys[..k] :: s in halKeys
        invariant left == LeftImages(Maps(), halKeys[..k])
      {
        assert halKeys[..k + 1][..k] == halKeys[..k] && halKeys[k] in halKeys;
        var i := ItemId(HalImage, halKeys[k]);
        if i in mapped && items[i].buffer.Some? {
          left := left + [items[i].buffer.value];
        }
      }
      assert halKeys[..|halKeys|] == halKeys;
    }

    method ReturnPendingBuffers(processor: bool)
      modifies `pendingHalImage, `pendingHalMeta, `out
      ensures out == ReturnPending(old(State()), processor)
      ensures pendingHalImage == old(pendingHalImage).(buffers := [])
      ensures pendingHalMeta == old(pendingHalMeta).(buffers := [])
    {
      var images, metas := pendingHalImage.buffers, pendingHalMeta.buffers;
      pendingHalImage := pendingHalImage.(buffers := []);
      pendingHalMeta := pendingHalMeta.(buffers := []);
      if images != [] || metas != [] {
        HandleReturnResult(processor, Wrap(images), Wrap(metas), [], false);
      }
    }

    method ForceReleaseHalImages(processor: bool)
      requires KeysKnown(Maps(), halKeys)
      modifies `counts, `out
      ensures out == ReturnLeft(old(Maps()), old(out), processor)
      ensures counts == if old(counts).halImage > 0 then old(counts).(halImage := 0) else old(counts)
    {
      if counts.halImage > 0 {
        var left := CollectLeftImages();
        HandleReturnResult(processor, Wrap(left), [], [], false);
        counts := counts.(halImage := 0);
      }
    }

    /** onLastStrongRef. */
    method OnLastStrongRef(alive: Alive)
      requires KeysKnown(Maps(), halKeys)
      modifies `counts, `pendingHalImage, `pendingHalMeta, `out
      ensures State() == Destroy(old(State()), alive)
    {
      ReturnPendingBuffers(alive.processor);
      ForceReleaseHalImages(alive.processor);
      if alive.appCallback {
        out := out.(updates := out.updates + [FRAME_END]);
      }
      out := out.(notices := out.notices + [FrameReleased]);
      HandleReturnResult(alive.processor, [], [], [], true);
    }
  }
}

/** One pipeline frame and what each call on it does to it (PipelineBufferSetFrameControlImp.{h,cpp}).

    A frame holds items (a stream buffer, or the right to ask for one) and, for every node, four sets of
    items the node reads or writes. Users mark how far they have come; a node then applies its release,
    which shrinks its sets and collects what became free. The functions here are the specification that
    the methods of FrameControl.dfy are proved against. */
module FrameModel {
  import opened Users
  import opened SortedKeys
  import opened Wrappers

  type StreamId = int
  type NodeId = UserId

  datatype Kind = AppImage | AppMeta | HalImage | HalMeta

  datatype ItemId = ItemId(kind: Kind, stream: StreamId)

  datatype Buffer = Buffer(stream: StreamId, serial: nat)

  /** An item with its status bits ACQUIRE, ACQUIRE_FAILED, RELEASE and PRODUCERS_RELEASE. */
  datatype Item = Item(
    buffer: Option<Buffer>,
    users: Users,
    acquired: bool,
    acquireFailed: bool,
    released: bool,
    producersReleased: bool)

  /** `mNonReleasedNum` of the four item maps. */
  datatype Counts = Counts(appImage: int, appMeta: int, halImage: int, halMeta: int) {
    function At(k: Kind): int {
      match k
      case AppImage => appImage
      case AppMeta => appMeta
      case HalImage => halImage
      case HalMeta => halMeta
    }

    function Plus(k: Kind, d: int): Counts {
      match k
      case AppImage => this.(appImage := appImage + d)
      case AppMeta => this.(appMeta := appMeta + d)
      case HalImage => this.(halImage := halImage + d)
      case HalMeta => this.(halMeta := halMeta + d)
    }
  }

  /** ReleasedCollector: what became free during one apply, and how many produced metas are outstanding. */
  datatype Collector = Collector(
    appImages: seq<Buffer>,
    halImages: seq<Buffer>,
    halMetas: seq<Buffer>,
    appMetasO: seq<Buffer>,
    appLeft: int,
    halMetasO: seq<Buffer>,
    halLeft: int,
    appByNode: map<NodeId, seq<Buffer>>,
    halByNode: map<NodeId, seq<Buffer>>)
  {
    function Drained(): Collector {
      Collector([], [], [], [], appLeft, [], halLeft, map[], map[])
    }

    predicate IsDrained() {
      this == Drained()
    }
  }

  /** The item maps with their collector. `mapped` holds the items whose map entry is not null;
      `halKeys` lists the streams of the Hal image map in map order. */
  datatype World = World(
    items: map<ItemId, Item>,
    mapped: set<ItemId>,
    counts: Counts,
    halKeys: seq<StreamId>,
    collector: Collector)

  // ---------------------------------------------------------------- item maps

  /** TItemMap::add: a keyed vector replaces an entry whose key it already holds. */
  function Add(w: World, i: ItemId, buffer: Option<Buffer>): World {
    w.(items := w.items[i := Item(buffer, NoUsers(), buffer.Some?, false, false, false)],
       mapped := w.mapped + {i},
       counts := w.counts.Plus(i.kind, 1),
       halKeys := if i.kind == HalImage then InsertKey(w.halKeys, i.stream) else w.halKeys)
  }

  predicate Produced(item: Item) {
    item.users.active && item.users.producers != {}
  }

  function AppendFor(m: map<NodeId, seq<Buffer>>, n: NodeId, b: Buffer): map<NodeId, seq<Buffer>> {
    m[n := (if n in m then m[n] else []) + [b]]
  }

  /** Item::handleProducersReleasedByNodeId. */
  function ProducersReleasedByNode(w: World, n: NodeId, i: ItemId): World
    requires i in w.items
  {
    var item := w.items[i];
    if item.producersReleased || !Produced(item) || item.buffer.None? then w
    else if i.kind == AppMeta then
      w.(collector := w.collector.(appByNode := AppendFor(w.collector.appByNode, n, item.buffer.value)))
    else if i.kind == HalMeta then
      w.(collector := w.collector.(halByNode := AppendFor(w.collector.halByNode, n, item.buffer.value)))
    else w
  }

  /** ReleasedCollector::onProducersReleased. */
  function CollectProduced(c: Collector, k: Kind, item: Item): Collector {
    if !Produced(item) then c
    else
      var bs := if item.buffer.Some? then [item.buffer.value] else [];
      if k == AppMeta then c.(appLeft := c.appLeft - 1, appMetasO := c.appMetasO + bs)
      else if k == HalMeta then c.(halLeft := c.halLeft - 1, halMetasO := c.halMetasO + bs)
      else c
  }

  /** Item::handleProducersReleased. */
  function ProducersReleased(w: World, i: ItemId): World
    requires i in w.items
  {
    var item := w.items[i];
    if item.producersReleased then w
    else w.(items := w.items[i := item.(producersReleased := true)],
            collector := CollectProduced(w.collector, i.kind, item))
  }

  /** ReleasedCollector::onAllUsersReleased. */
  function CollectFree(c: Collector, k: Kind, item: Item): Collector {
    if item.buffer.None? then c
    else match k
      case AppImage => c.(appImages := c.appImages + [item.buffer.value])
      case HalImage => c.(halImages := c.halImages + [item.buffer.value])
      case HalMeta => c.(halMetas := c.halMetas + [item.buffer.value])
      case AppMeta => c
  }

  /** Item::handleAllUsersReleased with TItemMap::onAllUsersReleased. */
  function AllUsersReleased(w: World, i: ItemId): World
    requires i in w.items
  {
    var item := w.items[i];
    if item.released then w
    else
      var w1 := w.(items := w.items[i := item.(released := true)]);
      if i !in w.mapped then w1
      else w1.(collector := CollectFree(w.collector, i.kind, item),
               counts := w.counts.Plus(i.kind, -1),
               mapped := w.mapped - {i})
  }

  // ---------------------------------------------------------------- one node's sets

  datatype IOSet = IOSet(ios: seq<ItemId>, notified: bool)

  datatype NodeStatus = NodeStatus(outImage: IOSet, inImage: IOSet, outMeta: IOSet, inMeta: IOSet) {
    predicate AllEmpty() {
      outImage.ios == [] && inImage.ios == [] && outMeta.ios == [] && inMeta.ios == []
    }

    predicate Lists(i: ItemId) {
      i in outImage.ios || i in inImage.ios || i in outMeta.ios || i in inMeta.ios
    }
  }

  /** Node `n` keeps listing an item with these users. */
  predicate Keeps(us: Users, n: NodeId) {
    us.active && !us.Done(n)
  }

  /** What one turn of the loop in updateNodeStatus does to the maps. */
  function Visit(w: World, n: NodeId, i: ItemId): World
    requires i in w.items
  {
    var us := w.items[i].users;
    if !us.active then w
    else
      var w1 := if us.ProducersDone() then ProducersReleased(ProducersReleasedByNode(w, n, i), i) else w;
      if us.Done(n) && us.AllDone() then AllUsersReleased(w1, i) else w1
  }

  predicate Known(w: World, ios: seq<ItemId>) {
    forall i | i in ios :: i in w.items
  }

  function VisitAll(w: World, n: NodeId, ios: seq<ItemId>): (r: World)
    requires Known(w, ios)
    ensures r.items.Keys == w.items.Keys
  {
    if ios == [] then w
    else Visit(VisitAll(w, n, ios[..|ios| - 1]), n, ios[|ios| - 1])
  }

  /** The items that stay listed. */
  function Kept(items: map<ItemId, Item>, n: NodeId, ios: seq<ItemId>): seq<ItemId>
    requires forall i | i in ios :: i in items
  {
    if ios == [] then []
    else
      var last := ios[|ios| - 1];
      var front := Kept(items, n, ios[..|ios| - 1]);
      if Keeps(items[last].users, n) then front + [last] else front
  }

  /** NodeStatusUpdater::updateNodeStatus; `emptied` says that the set was found empty, and so notified, just now. */
  datatype SetUpdate = SetUpdate(w: World, ios: IOSet, emptied: bool)

  function UpdateSet(w: World, n: NodeId, s: IOSet): SetUpdate
    requires Known(w, s.ios)
  {
    if s.notified then SetUpdate(w, s, false)
    else
      var kept := Kept(w.items, n, s.ios);
      SetUpdate(VisitAll(w, n, s.ios), IOSet(kept, kept == []), kept == [])
  }

  predicate KnownNode(w: World, ns: NodeStatus) {
    && Known(w, ns.outImage.ios) && Known(w, ns.inImage.ios)
    && Known(w, ns.outMeta.ios) && Known(w, ns.inMeta.ios)
  }

  datatype NodeUpdate = NodeUpdate(w: World, ns: NodeStatus, emptied: bool, outImageEmptied: bool, outMetaEmptied: bool)

  function UpdateNode(w: World, n: NodeId, ns: NodeStatus): NodeUpdate
    requires KnownNode(w, ns)
  {
    var oi := UpdateSet(w, n, ns.outImage);
    var ii := UpdateSet(oi.w, n, ns.inImage);
    var om := UpdateSet(ii.w, n, ns.outMeta);
    var im := UpdateSet(om.w, n, ns.inMeta);
    NodeUpdate(im.w, NodeStatus(oi.ios, ii.ios, om.ios, im.ios),
               oi.emptied || ii.emptied || om.emptied || im.emptied, oi.emptied, om.emptied)
  }

  // ---------------------------------------------------------------- the frame

  /** PendingReleaseSet. */
  datatype Pending = Pending(keep: bool, target: set<StreamId>, buffers: seq<Buffer>)

  /** One call of returnResult; a kept Hal image leaves a null entry behind. */
  datatype Sent = Sent(images: seq<Option<Buffer>>, halMetas: seq<Buffer>, appMetas: seq<Buffer>, destroyed: bool)

  /** One call of updateFrame. */
  datatype Update = Update(
    user: NodeId,
    appLeft: int, appMetas: seq<Buffer>,
    halLeft: int, halMetas: seq<Buffer>,
    appByNode: map<NodeId, seq<Buffer>>, halByNode: map<NodeId, seq<Buffer>>,
    frameEnd: bool, realTime: bool)

  datatype Message = ALL_OUT_META_BUFFERS_RELEASED | ALL_OUT_IMAGE_BUFFERS_RELEASED

  /** One call of a frame listener. */
  datatype Notice = NodeNotice(node: NodeId, message: Message) | FrameReleased

  /** Every call the frame has made so far, and the buffers that left it another way: `transferred` to a
      caller, dropped by a pre-release, or lost because the result processor was gone. */
  datatype Outbox = Outbox(
    sent: seq<Sent>,
    updates: seq<Update>,
    appImages: seq<seq<Buffer>>,
    notices: seq<Notice>,
    requests: seq<ItemId>,
    transferred: seq<Buffer>,
    dropped: seq<Buffer>,
    lost: seq<Buffer>,
    droppedHalMetas: seq<Buffer>,
    lostHalMetas: seq<Buffer>,
    droppedAppMetas: seq<Buffer>,
    lostAppMetas: seq<Buffer>)

  datatype Frame = Frame(
    w: World,
    nodes: map<NodeId, NodeStatus>,
    inFlight: int,
    preApplied: bool,
    pendingImage: Pending,
    pendingHalMeta: Pending,
    pendingAppMeta: Pending,
    out: Outbox)

  /** Which weak references can still be promoted. */
  datatype Alive = Alive(appCallback: bool, processor: bool)

  predicate ClosedIn(w: World, nodes: map<NodeId, NodeStatus>) {
    forall n | n in nodes :: KnownNode(w, nodes[n])
  }

  predicate Closed(f: Frame) {
    ClosedIn(f.w, f.nodes)
  }

  datatype RunResult = RunResult(f: Frame, emptied: bool, outImageEmptied: bool, outMetaEmptied: bool)

  /** NodeStatusUpdater::run. */
  function RunUpdater(f: Frame, n: NodeId): RunResult
    requires Closed(f)
  {
    if n !in f.nodes then RunResult(f, false, false, false)
    else
      var u := UpdateNode(f.w, n, f.nodes[n]);
      RunResult(f.(w := u.w,
                   nodes := f.nodes[n := u.ns],
                   inFlight := if u.emptied && u.ns.AllEmpty() then f.inFlight - 1 else f.inFlight),
                u.emptied, u.outImageEmptied, u.outMetaEmptied)
  }

  const AIAWB_BEGIN: NodeId := 0x100
  const AIAWB_END: NodeId := 0x103

  predicate IsAiawb(n: NodeId) {
    AIAWB_BEGIN <= n < AIAWB_END
  }

  predicate KeysKnown(w: World, keys: seq<StreamId>) {
    forall s | s in keys :: ItemId(HalImage, s) in w.items
  }

  /** The loop that lets go of every Hal image all of whose users have released it. */
  function ReleaseDoneImages(w: World, keys: seq<StreamId>): (r: World)
    requires KeysKnown(w, keys)
    ensures r.items.Keys == w.items.Keys
  {
    if keys == [] then w
    else
      var w1 := ReleaseDoneImages(w, keys[..|keys| - 1]);
      var i := ItemId(HalImage, keys[|keys| - 1]);
      if i in w1.mapped && w1.items[i].users.AllReleased() then AllUsersReleased(w1, i) else w1
  }

  function Somes(list: seq<Option<Buffer>>): seq<Buffer> {
    if list == [] then []
    else
      var last := list[|list| - 1];
      Somes(list[..|list| - 1]) + if last.Some? then [last.value] else []
  }

  function Wrap(list: seq<Buffer>): seq<Option<Buffer>> {
    seq(|list|, i requires 0 <= i < |list| => Some(list[i]))
  }

  datatype KeepResult = KeepResult(list: seq<Option<Buffer>>, pending: Pending)

  /** The branch of tryKeepPendingReleaseBuffers that keeps the target streams only. */
  function KeepTargets(list: seq<Option<Buffer>>, p: Pending): (r: KeepResult)
    ensures |r.list| == |list|
  {
    if list == [] then KeepResult([], p)
    else
      var r := KeepTargets(list[..|list| - 1], p);
      var last := list[|list| - 1];
      if last.Some? && last.value.stream in p.target
      then KeepResult(r.list + [None], r.pending.(buffers := r.pending.buffers + [last.value]))
      else KeepResult(r.list + [last], r.pending)
  }

  /** tryKeepPendingReleaseBuffers. */
  function TryKeep(list: seq<Option<Buffer>>, p: Pending): KeepResult {
    if !p.keep then KeepResult(list, p)
    else if p.target == {} then KeepResult([], p.(buffers := p.buffers + Somes(list)))
    else KeepTargets(list, p)
  }

  /** An empty target leaves the old one in place. */
  function Configure(p: Pending, keep: bool, target: set<StreamId>): Pending {
    p.(keep := keep, target := if keep && target != {} then target else p.target)
  }

  /** configureInformationKeeping; App metas have no target. */
  function ConfigureKeeping(f: Frame, keepImage: bool, images: set<StreamId>, keepHalMeta: bool, halMetas: set<StreamId>,
                            keepAppMeta: bool): Frame {
    f.(pendingImage := Configure(f.pendingImage, keepImage, images),
       pendingHalMeta := Configure(f.pendingHalMeta, keepHalMeta, halMetas),
       pendingAppMeta := f.pendingAppMeta.(keep := keepAppMeta))
  }

  /** handleReturnResult: without a processor the lists are destroyed with their owner. */
  function ReturnResult(out: Outbox, processor: bool, images: seq<Option<Buffer>>,
                        halMetas: seq<Option<Buffer>>, appMetas: seq<Option<Buffer>>, destroyed: bool): Outbox {
    if processor then out.(sent := out.sent + [Sent(images, Somes(halMetas), Somes(appMetas), destroyed)])
    else out.(lost := out.lost + Somes(images), lostHalMetas := out.lostHalMetas + Somes(halMetas),
              lostAppMetas := out.lostAppMetas + Somes(appMetas))
  }

  /** The callbacks to the application that report what the collector holds. */
  function Report(out: Outbox, c: Collector, user: NodeId, callback: bool, realTime: bool): Outbox {
    if !callback then out
    else out.(appImages := if c.appImages == [] then out.appImages else out.appImages + [c.appImages],
              updates := out.updates + [Update(user, c.appLeft, c.appMetasO, c.halLeft, c.halMetasO,
                                               c.appByNode, c.halByNode, false, realTime)])
  }

  /** handleReleasedBuffers. */
  function HandleReleased(f: Frame, user: NodeId, callback: bool, realTime: bool, processor: bool): Frame {
    var c := f.w.collector;
    var app := TryKeep(Wrap(c.appMetasO), f.pendingAppMeta);
    var image := TryKeep(Wrap(c.halImages), f.pendingImage);
    var hal := TryKeep(Wrap(c.halMetas), f.pendingHalMeta);
    f.(w := f.w.(collector := c.Drained()),
       pendingAppMeta := app.pending,
       pendingImage := image.pending,
       pendingHalMeta := hal.pending,
       out := ReturnResult(Report(f.out, c, user, callback, realTime), processor,
                           image.list, hal.list, app.list, false))
  }

  function Notices(n: NodeId, outMeta: bool, outImage: bool): seq<Notice> {
    (if outMeta then [NodeNotice(n, ALL_OUT_META_BUFFERS_RELEASED)] else []) +
    (if outImage then [NodeNotice(n, ALL_OUT_IMAGE_BUFFERS_RELEASED)] else [])
  }

  function Notify(f: Frame, notices: seq<Notice>): Frame {
    f.(out := f.out.(notices := f.out.notices + notices))
  }

  /** The part of applyRelease that updates the node, with the flag for a frame that is done. */
  function UpdateForRelease(f: Frame, n: NodeId): RunResult
    requires Closed(f)
  {
    if f.preApplied then RunResult(f, false, false, false)
    else
      var r := RunUpdater(f, n);
      if r.emptied && r.f.inFlight == 0 then r.(f := r.f.(preApplied := true)) else r
  }

  function AiawbRelease(f: Frame, n: NodeId): Frame
    requires KeysKnown(f.w, f.w.halKeys)
  {
    if IsAiawb(n) && f.w.counts.halImage > 0 then f.(w := ReleaseDoneImages(f.w, f.w.halKeys)) else f
  }

  /** applyRelease. */
  function ApplyRelease(f: Frame, n: NodeId, realTime: bool, alive: Alive): Frame
    requires Closed(f) && KeysKnown(f.w, f.w.halKeys)
  {
    var r := UpdateForRelease(f, n);
    UpdateKeepsKeys(f, n);
    var callback := !f.preApplied && alive.appCallback;
    Notify(HandleReleased(AiawbRelease(r.f, n), n, callback, realTime, alive.processor),
           Notices(n, r.outMetaEmptied, r.outImageEmptied))
  }

  /** applyPreRelease: the free Hal buffers and the reported App metas are taken out of the collector and dropped. */
  function ApplyPreRelease(f: Frame, n: NodeId, alive: Alive): Frame
    requires Closed(f)
  {
    var r := RunUpdater(f, n);
    var done := r.emptied && r.f.inFlight == 0;
    var c := r.f.w.collector;
    var out := Report(r.f.out, c, n, alive.appCallback, false);
    Notify(r.f.(w := r.f.w.(collector := c.Drained()),
                preApplied := r.f.preApplied || done,
                out := out.(dropped := out.dropped + c.halImages,
                            droppedHalMetas := out.droppedHalMetas + c.halMetas,
                            droppedAppMetas := out.droppedAppMetas + c.appMetasO)),
           Notices(n, r.outMetaEmptied, r.outImageEmptied) + if done then [FrameReleased] else [])
  }

  /** Each buffer that changes hands has its users reset. */
  function ResetUsers(items: map<ItemId, Item>, buffers: seq<Buffer>): map<ItemId, Item> {
    if buffers == [] then items
    else
      var r, b := ResetUsers(items, buffers[..|buffers| - 1]), buffers[|buffers| - 1];
      var i := ItemId(HalImage, b.stream);
      if i in r && r[i].buffer == Some(b) then r[i := r[i].(users := r[i].users.Reset())] else r
  }

  /** transferPendingReleaseBuffers for images: the buffers leave, and their users are forgotten. */
  function TransferImages(f: Frame): Frame {
    f.(w := f.w.(items := ResetUsers(f.w.items, f.pendingImage.buffers)),
       pendingImage := f.pendingImage.(buffers := []),
       out := f.out.(transferred := f.out.transferred + f.pendingImage.buffers))
  }

  /** The Hal images still mapped when the frame dies. */
  function LeftImages(w: World, keys: seq<StreamId>): seq<Buffer>
    requires KeysKnown(w, keys)
  {
    if keys == [] then []
    else
      var i := ItemId(HalImage, keys[|keys| - 1]);
      LeftImages(w, keys[..|keys| - 1]) +
      if i in w.mapped && w.items[i].buffer.Some? then [w.items[i].buffer.value] else []
  }

  /** The callback that says the frame has ended. */
  const FRAME_END := Update(0, 0, [], 0, [], map[], map[], true, false)

  function ReturnPending(f: Frame, processor: bool): Outbox {
    if f.pendingImage.buffers == [] && f.pendingHalMeta.buffers == [] then f.out
    else ReturnResult(f.out, processor, Wrap(f.pendingImage.buffers), Wrap(f.pendingHalMeta.buffers), [], false)
  }

  function ReturnLeft(w: World, out: Outbox, processor: bool): Outbox
    requires KeysKnown(w, w.halKeys)
  {
    if w.counts.halImage > 0 then ReturnResult(out, processor, Wrap(LeftImages(w, w.halKeys)), [], [], false) else out
  }

  function TellEnd(out: Outbox, callback: bool): Outbox {
    out.(updates := out.updates + if callback then [FRAME_END] else [], notices := out.notices + [FrameReleased])
  }

  /** onLastStrongRef: what was pending and what was never released goes back, and all are told of the end. */
  function Destroy(f: Frame, alive: Alive): Frame
    requires KeysKnown(f.w, f.w.halKeys)
  {
    var out := TellEnd(ReturnLeft(f.w, ReturnPending(f, alive.processor), alive.processor), alive.appCallback);
    f.(w := f.w.(counts := if f.w.counts.halImage > 0 then f.w.counts.(halImage := 0) else f.w.counts),
       pendingImage := f.pendingImage.(buffers := []),
       pendingHalMeta := f.pendingHalMeta.(buffers := []),
       out := ReturnResult(out, alive.processor, [], [], [], true))
  }

  // ---------------------------------------------------------------- users and buffers

  function WithUsers(w: World, i: ItemId, us: Users): World
    requires i in w.items
  {
    w.(items := w.items[i := w.items[i].(users := us)])
  }

  /** A user marks its status on an item. */
  function MarkItem(f: Frame, i: ItemId, u: UserId, s: Status): Frame
    requires i in f.w.items
  {
    f.(w := WithUsers(f.w, i, f.w.items[i].users.Mark(u, s)))
  }

  /** markUserStatus: the four maps are searched for the stream in this order. */
  function FindItem(w: World, s: StreamId): Option<ItemId> {
    if ItemId(AppImage, s) in w.items then Some(ItemId(AppImage, s))
    else if ItemId(AppMeta, s) in w.items then Some(ItemId(AppMeta, s))
    else if ItemId(HalImage, s) in w.items then Some(ItemId(HalImage, s))
    else if ItemId(HalMeta, s) in w.items then Some(ItemId(HalMeta, s))
    else None
  }

  function MarkUserStatus(f: Frame, s: StreamId, u: UserId, status: Status): Frame {
    var i := FindItem(f.w, s);
    if i.Some? && i.value in f.w.mapped && i.value in f.w.items then MarkItem(f, i.value, u, status) else f
  }

  /** The answer of requestStreamBuffer, or no provider to ask. */
  datatype Outcome = Gone | Answer(ok: bool, sb: Option<Buffer>)

  datatype Got = Got(f: Frame, item: Option<ItemId>)

  predicate IsImage(k: Kind) {
    k == HalImage || k == AppImage
  }

  /** getBufferLockedImp: `item` is the item whose buffer is returned. */
  function Acquire(f: Frame, i: ItemId, u: UserId, ask: Outcome): Got {
    if f.w.counts.At(i.kind) == 0 || i !in f.w.mapped || i !in f.w.items then Got(f, None)
    else
      var item := f.w.items[i];
      if !item.acquired && item.acquireFailed then Got(MarkItem(f, i, u, RELEASE), None)
      else if !item.acquired && IsImage(i.kind) then
        if ask.Gone? then
          Got(f.(w := f.w.(items := f.w.items[i := item.(buffer := None)])), None)
        else
          var asked := f.(out := f.out.(requests := f.out.requests + [i]));
          if ask.ok && ask.sb.Some? then
            Got(asked.(w := f.w.(items := f.w.items[i := item.(buffer := ask.sb, acquired := true)])), Some(i))
          else
            Got(MarkItem(asked.(w := f.w.(items := f.w.items[i := item.(buffer := None, acquireFailed := true)])),
                         i, u, RELEASE), None)
      else Got(f, if item.buffer.Some? then Some(i) else None)
  }

  /** getBufferLocked. */
  function GetBuffer(f: Frame, i: ItemId, u: UserId, ask: Outcome): Got {
    var g := Acquire(f, i, u, ask);
    if g.item.None? || i !in g.f.w.items then g
    else
      var us := g.f.w.items[i].users;
      if us.AllReleased() || !us.MayAcquire(u) then g.(item := None) else g
  }

  /** getMetaBuffer and getImageBuffer look for a Hal buffer first, then for an App buffer. */
  function GetStream(f: Frame, image: bool, s: StreamId, u: UserId, halAsk: Outcome, appAsk: Outcome): Got {
    var hal := GetBuffer(f, ItemId(if image then HalImage else HalMeta, s), u, halAsk);
    if hal.item.Some? then hal
    else GetBuffer(hal.f, ItemId(if image then AppImage else AppMeta, s), u, appAsk)
  }

  lemma UpdateKeepsKeys(f: Frame, n: NodeId)
    requires Closed(f) && KeysKnown(f.w, f.w.halKeys)
    ensures var g := UpdateForRelease(f, n).f; KeysKnown(g.w, g.w.halKeys)
  {
    if !f.preApplied && n in f.nodes {
      var ns := f.nodes[n];
      UpdateSetKeepsKeys(f.w, n, ns.outImage);
      var w1 := UpdateSet(f.w, n, ns.outImage).w;
      UpdateSetKeepsKeys(w1, n, ns.inImage);
      var w2 := UpdateSet(w1, n, ns.inImage).w;
      UpdateSetKeepsKeys(w2, n, ns.outMeta);
      UpdateSetKeepsKeys(UpdateSet(w2, n, ns.outMeta).w, n, ns.inMeta);
    }
  }

  lemma UpdateSetKeepsKeys(w: World, n: NodeId, s: IOSet)
    requires Known(w, s.ios)
    ensures UpdateSet(w, n, s).w.halKeys == w.halKeys
    ensures UpdateSet(w, n, s).w.items.Keys == w.items.Keys
  {
    VisitAllKeepsKeys(w, n, s.ios);
  }

  lemma {:induction false} VisitAllKeepsKeys(w: World, n: NodeId, ios: seq<ItemId>)
    requires Known(w, ios)
    ensures VisitAll(w, n, ios).halKeys == w.halKeys
  {
    if ios != [] {
      VisitAllKeepsKeys(w, n, ios[..|ios| - 1]);
    }
  }
}

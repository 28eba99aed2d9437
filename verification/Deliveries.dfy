/** Where the buffers that leave a frame go: App images to the application, Hal images, Hal metas and reported App metas
    to the result processor or to their pending set. Conservation has the Hal images; this adds the other kinds. */
module Deliveries {
  import opened Users
  import opened Wrappers
  import opened FrameModel
  import opened WorldFacts
  import opened FrameInvariant
  import opened Conservation
  import opened MetaReport

  // ---------------------------------------------------------------- places

  function Collected(c: Collector, k: Kind): seq<Buffer> {
    match k
    case AppImage => c.appImages
    case AppMeta => c.appMetasO
    case HalImage => c.halImages
    case HalMeta => c.halMetas
  }

  /** The item that has this buffer is no longer mapped. */
  ghost predicate Unmapped(w: World, k: Kind, b: Buffer) {
    var i := ItemId(k, b.stream);
    i in w.items && w.items[i].buffer == Some(b) && i !in w.mapped
  }

  /** The buffer has come free; an App meta is returned as soon as its producers were seen to be done. */
  ghost predicate HasLeft(w: World, k: Kind, b: Buffer) {
    if k == AppMeta then Seen(w, k, b) else Unmapped(w, k, b)
  }

  /** Every buffer that has come free is collected or in `handed`, once, and nothing else is in either. */
  ghost predicate Placed(w: World, k: Kind, handed: multiset<Buffer>) {
    forall b: Buffer :: Count(Collected(w.collector, k), b) + handed[b] == if HasLeft(w, k, b) then 1 else 0
  }

  /** All images the application was told to be free. */
  ghost function ImagesTold(lists: seq<seq<Buffer>>): multiset<Buffer> {
    if lists == [] then multiset{} else ImagesTold(lists[..|lists| - 1]) + multiset(lists[|lists| - 1])
  }

  /** The list of one kind in a call of returnResult. */
  function SentOf(s: Sent, k: Kind): seq<Buffer> {
    match k
    case HalImage => Somes(s.images)
    case HalMeta => s.halMetas
    case AppMeta => s.appMetas
    case AppImage => []
  }

  ghost function Returned(sent: seq<Sent>, k: Kind): multiset<Buffer> {
    if sent == [] then multiset{} else Returned(sent[..|sent| - 1], k) + multiset(SentOf(sent[|sent| - 1], k))
  }

  /** The kinds that go to the result processor. */
  predicate IsReturned(k: Kind) {
    k != AppImage
  }

  function PendingOf(f: Frame, k: Kind): Pending
    requires IsReturned(k)
  {
    if k == HalImage then f.pendingImage else if k == HalMeta then f.pendingHalMeta else f.pendingAppMeta
  }

  function LostOf(out: Outbox, k: Kind): seq<Buffer>
    requires IsReturned(k)
  {
    if k == HalImage then out.lost else if k == HalMeta then out.lostHalMetas else out.lostAppMetas
  }

  function DroppedOf(out: Outbox, k: Kind): seq<Buffer>
    requires IsReturned(k)
  {
    if k == HalImage then out.dropped else if k == HalMeta then out.droppedHalMetas else out.droppedAppMetas
  }

  /** Every place outside the maps where a buffer of the kind can be. */
  ghost function Handed(f: Frame, k: Kind): multiset<Buffer> {
    if k == AppImage then ImagesTold(f.out.appImages)
    else if k == HalImage then Elsewhere(f)
    else
      multiset(PendingOf(f, k).buffers) + Returned(f.out.sent, k) + multiset(LostOf(f.out, k))
      + multiset(DroppedOf(f.out, k))
  }

  lemma {:induction false} ReturnedImages(sent: seq<Sent>)
    ensures Returned(sent, HalImage) == ImagesSent(sent)
  {
    if sent != [] {
      ReturnedImages(sent[..|sent| - 1]);
    }
  }

  lemma ImagesArePlaced(f: Frame)
    ensures Conserved(f) <==> Placed(f.w, HalImage, Handed(f, HalImage))
  {
    forall b: Buffer
      ensures (multiset(f.w.collector.halImages) + Elsewhere(f))[b] ==
              Count(Collected(f.w.collector, HalImage), b) + Handed(f, HalImage)[b]
      ensures Freed(f.w, b) == HasLeft(f.w, HalImage, b)
    {}
  }

  // ---------------------------------------------------------------- visits

  lemma AllUsersReleasedPlaces(w: World, i: ItemId, k: Kind, handed: multiset<Buffer>)
    requires ItemsOk(w) && i in w.items && k != AppMeta && Placed(w, k, handed)
    ensures Placed(AllUsersReleased(w, i), k, handed)
  {
    var r := AllUsersReleased(w, i);
    assert ItemOk(w, i);
    AllUsersReleasedEffect(w, i);
    forall b: Buffer
      ensures Count(Collected(r.collector, k), b) + handed[b] == if Unmapped(r, k, b) then 1 else 0
    {
      assert Count(Collected(w.collector, k), b) + handed[b] == if HasLeft(w, k, b) then 1 else 0;
      if !w.items[i].released && i.kind == k && w.items[i].buffer.Some? {
        assert Collected(r.collector, k) == Collected(w.collector, k) + [w.items[i].buffer.value];
        CountPlusOne(Collected(w.collector, k), w.items[i].buffer.value, b);
      } else {
        assert Collected(r.collector, k) == Collected(w.collector, k);
      }
    }
  }

  lemma VisitPlaces(w: World, n: NodeId, i: ItemId, k: Kind, handed: multiset<Buffer>)
    requires ItemsOk(w) && i in w.items && k != AppMeta && Placed(w, k, handed)
    ensures Placed(Visit(w, n, i), k, handed)
  {
    var us := w.items[i].users;
    if us.active {
      var m := if us.ProducersDone() then ProducersReleased(ProducersReleasedByNode(w, n, i), i) else w;
      assert ItemsOk(m) && Placed(m, k, handed) by {
        SeenPlaces(w, n, i, k, handed);
      }
      if Frees(us, n) {
        AllUsersReleasedPlaces(m, i, k, handed);
      }
    }
  }

  /** Nothing of the kind left a map, and the list of the kind is as before. */
  lemma SamePlaces(w: World, r: World, k: Kind, handed: multiset<Buffer>)
    requires Placed(w, k, handed) && Collected(r.collector, k) == Collected(w.collector, k)
    requires forall b: Buffer :: HasLeft(r, k, b) == HasLeft(w, k, b)
    ensures Placed(r, k, handed)
  {
    forall b: Buffer
      ensures Count(Collected(r.collector, k), b) + handed[b] == if HasLeft(r, k, b) then 1 else 0
    {
      assert Count(Collected(w.collector, k), b) + handed[b] == if HasLeft(w, k, b) then 1 else 0;
    }
  }

  lemma SeenPlaces(w: World, n: NodeId, i: ItemId, k: Kind, handed: multiset<Buffer>)
    requires ItemsOk(w) && i in w.items && k != AppMeta && Placed(w, k, handed)
    ensures var r := if w.items[i].users.ProducersDone() then ProducersReleased(ProducersReleasedByNode(w, n, i), i) else w;
            ItemsOk(r) && Placed(r, k, handed)
  {
    if w.items[i].users.ProducersDone() {
      SeenEffect(w, n, i);
      SeenCollects(w, n, i, k);
      SamePlaces(w, ProducersReleased(ProducersReleasedByNode(w, n, i), i), k, handed);
    }
  }

  lemma SeenCollects(w: World, n: NodeId, i: ItemId, k: Kind)
    requires i in w.items && k != AppMeta
    ensures var r := ProducersReleased(ProducersReleasedByNode(w, n, i), i);
            Collected(r.collector, k) == Collected(w.collector, k)
  {}

  lemma {:induction false} VisitAllPlaces(w: World, n: NodeId, ios: seq<ItemId>, k: Kind, handed: multiset<Buffer>)
    requires WorldOk(w) && Known(w, ios) && k != AppMeta && Placed(w, k, handed)
    ensures Placed(VisitAll(w, n, ios), k, handed)
  {
    if ios != [] {
      var front := ios[..|ios| - 1];
      VisitAllEffect(w, n, front);
      VisitAllPlaces(w, n, front, k, handed);
      VisitPlaces(VisitAll(w, n, front), n, ios[|ios| - 1], k, handed);
    }
  }

  lemma UpdateNodePlaces(w: World, n: NodeId, ns: NodeStatus, k: Kind, handed: multiset<Buffer>)
    requires WorldOk(w) && KnownNode(w, ns) && SetsOk(ns) && k != AppMeta && Placed(w, k, handed)
    ensures Placed(UpdateNode(w, n, ns).w, k, handed)
  {
    UpdateSetEffect(w, n, ns.outImage);
    VisitAllPlaces(w, n, ns.outImage.ios, k, handed);
    var w1 := UpdateSet(w, n, ns.outImage).w;
    UpdateSetEffect(w1, n, ns.inImage);
    VisitAllPlaces(w1, n, ns.inImage.ios, k, handed);
    var w2 := UpdateSet(w1, n, ns.inImage).w;
    UpdateSetEffect(w2, n, ns.outMeta);
    VisitAllPlaces(w2, n, ns.outMeta.ios, k, handed);
    var w3 := UpdateSet(w2, n, ns.outMeta).w;
    VisitAllPlaces(w3, n, ns.inMeta.ios, k, handed);
  }

  lemma PlacedMetas(w: World, n: NodeId, handed: multiset<Buffer>)
    requires w.collector.IsDrained() && Placed(w, AppMeta, handed)
    ensures MetasOk(w, AppMeta, n, handed)
  {
    forall b: Buffer
      ensures Count(Flat(w.collector, AppMeta), b) + handed[b] == if Seen(w, AppMeta, b) then 1 else 0
    {
      assert Count(Collected(w.collector, AppMeta), b) + handed[b] == if HasLeft(w, AppMeta, b) then 1 else 0;
    }
  }

  lemma MetasPlaced(w: World, n: NodeId, handed: multiset<Buffer>)
    requires MetasOk(w, AppMeta, n, handed)
    ensures Placed(w, AppMeta, handed)
  {
    forall b: Buffer
      ensures Count(Collected(w.collector, AppMeta), b) + handed[b] == if HasLeft(w, AppMeta, b) then 1 else 0
    {
      assert Count(Flat(w.collector, AppMeta), b) + handed[b] == if Seen(w, AppMeta, b) then 1 else 0;
    }
  }

  /** Updating a node's sets collects what comes free, each buffer in the list of its own kind. */
  lemma RunUpdaterPlaces(f: Frame, n: NodeId, roster: Roster, k: Kind, handed: multiset<Buffer>)
    requires FrameOk(f, roster) && f.w.collector.IsDrained() && Placed(f.w, k, handed)
    ensures Placed(RunUpdater(f, n).f.w, k, handed)
  {
    if n in f.nodes {
      if k == AppMeta {
        PlacedMetas(f.w, n, handed);
        RunUpdaterMetas(f, n, roster, AppMeta, handed);
        MetasPlaced(RunUpdater(f, n).f.w, n, handed);
      } else {
        UpdateNodePlaces(f.w, n, f.nodes[n], k, handed);
      }
    }
  }

  lemma {:induction false} ReleaseDonePlaces(w: World, keys: seq<StreamId>, k: Kind, handed: multiset<Buffer>)
    requires WorldOk(w) && KeysKnown(w, keys) && k != AppMeta && Placed(w, k, handed)
    ensures Placed(ReleaseDoneImages(w, keys), k, handed)
  {
    if keys != [] {
      var front := keys[..|keys| - 1];
      assert forall s | s in front :: s in keys;
      ReleaseDoneImagesOk(w, front);
      ReleaseDonePlaces(w, front, k, handed);
      AllUsersReleasedPlaces(ReleaseDoneImages(w, front), ItemId(HalImage, keys[|keys| - 1]), k, handed);
    }
  }

  lemma ReleaseDoneMetas(w: World, keys: seq<StreamId>, handed: multiset<Buffer>)
    requires KeysKnown(w, keys) && Placed(w, AppMeta, handed)
    ensures Placed(ReleaseDoneImages(w, keys), AppMeta, handed)
  {
    ReleaseDoneImagesLists(w, keys, AppMeta);
    ReleaseDoneImagesSeen(w, keys);
    SamePlaces(w, ReleaseDoneImages(w, keys), AppMeta, handed);
  }

  // ---------------------------------------------------------------- one call

  /** The frame right before handleReleasedBuffers. */
  function Collecting(f: Frame, n: NodeId): Frame
    requires Closed(f) && KeysKnown(f.w, f.w.halKeys)
  {
    UpdateKeepsKeys(f, n);
    AiawbRelease(UpdateForRelease(f, n).f, n)
  }

  lemma CollectingOut(f: Frame, n: NodeId, k: Kind)
    requires Closed(f) && KeysKnown(f.w, f.w.halKeys)
    ensures var a := Collecting(f, n);
            && a.out == f.out && a.pendingImage == f.pendingImage && a.pendingHalMeta == f.pendingHalMeta
            && a.pendingAppMeta == f.pendingAppMeta && Handed(a, k) == Handed(f, k)
  {
    UpdateKeepsKeys(f, n);
  }

  lemma CollectingPlaces(f: Frame, n: NodeId, roster: Roster, k: Kind, handed: multiset<Buffer>)
    requires FrameOk(f, roster) && f.w.collector.IsDrained() && Placed(f.w, k, handed)
    ensures Placed(Collecting(f, n).w, k, handed)
  {
    UpdateKeepsKeys(f, n);
    UpdateForReleaseOk(f, n, roster);
    var r := UpdateForRelease(f, n).f;
    assert Placed(r.w, k, handed) by {
      RunUpdaterPlaces(f, n, roster, k, handed);
    }
    if k == AppMeta {
      ReleaseDoneMetas(r.w, r.w.halKeys, handed);
    } else {
      ReleaseDonePlaces(r.w, r.w.halKeys, k, handed);
    }
  }

  /** The buffer comes free on the way from `w` to `r`. */
  ghost predicate ComesFree(w: World, r: World, k: Kind, b: Buffer) {
    HasLeft(r, k, b) && !HasLeft(w, k, b)
  }

  /** The collector holds exactly what came free in this call. */
  lemma CollectsNew(f: Frame, a: Frame, k: Kind)
    requires f.w.collector.IsDrained() && Placed(f.w, k, Handed(f, k)) && Placed(a.w, k, Handed(f, k))
    ensures forall b: Buffer :: Count(Collected(a.w.collector, k), b) == if ComesFree(f.w, a.w, k, b) then 1 else 0
    ensures forall b: Buffer | HasLeft(f.w, k, b) :: HasLeft(a.w, k, b)
  {
    forall b: Buffer
      ensures Count(Collected(a.w.collector, k), b) == if ComesFree(f.w, a.w, k, b) then 1 else 0
      ensures HasLeft(f.w, k, b) ==> HasLeft(a.w, k, b)
    {
      assert Count(Collected(f.w.collector, k), b) + Handed(f, k)[b] == if HasLeft(f.w, k, b) then 1 else 0;
      assert Count(Collected(a.w.collector, k), b) + Handed(f, k)[b] == if HasLeft(a.w, k, b) then 1 else 0;
    }
  }

  lemma ReturnedAppend(sent: seq<Sent>, s: Sent, k: Kind)
    ensures Returned(sent + [s], k) == Returned(sent, k) + multiset(SentOf(s, k))
  {
    assert (sent + [s])[..|sent|] == sent;
  }

  /** The list that handleReleasedBuffers returns for a kind: what was collected and is not wanted. */
  function ToReturn(f: Frame, k: Kind): seq<Buffer>
    requires IsReturned(k)
  {
    Picked(Collected(f.w.collector, k), PendingOf(f, k), false)
  }

  lemma TryKeepCollected(list: seq<Buffer>, p: Pending)
    ensures var r := TryKeep(Wrap(list), p);
            && r.pending == p.(buffers := p.buffers + Picked(list, p, true))
            && Somes(r.list) == Picked(list, p, false)
  {
    TryKeepExact(Wrap(list), p);
    SomesWrap(list);
  }

  /** handleReleasedBuffers: for each kind the wanted buffers go to the pending set of that kind, and the others to the
      list of that kind in one call of the processor, or are lost with their lists. */
  lemma HandleReleasedReturns(f: Frame, user: NodeId, callback: bool, realTime: bool, processor: bool, k: Kind)
    requires IsReturned(k)
    ensures var g := HandleReleased(f, user, callback, realTime, processor);
            && PendingOf(g, k) == PendingOf(f, k).(buffers := PendingOf(f, k).buffers +
                                    Picked(Collected(f.w.collector, k), PendingOf(f, k), true))
            && DroppedOf(g.out, k) == DroppedOf(f.out, k) && g.out.transferred == f.out.transferred
            && (processor ==>
                  && |g.out.sent| == |f.out.sent| + 1 && g.out.sent[..|f.out.sent|] == f.out.sent
                  && SentOf(g.out.sent[|f.out.sent|], k) == ToReturn(f, k) && !g.out.sent[|f.out.sent|].destroyed
                  && LostOf(g.out, k) == LostOf(f.out, k))
            && (!processor ==> g.out.sent == f.out.sent && LostOf(g.out, k) == LostOf(f.out, k) + ToReturn(f, k))
  {
    TryKeepCollected(f.w.collector.appMetasO, f.pendingAppMeta);
    TryKeepCollected(f.w.collector.halImages, f.pendingImage);
    TryKeepCollected(f.w.collector.halMetas, f.pendingHalMeta);
  }

  lemma HandleReleasedPlaces(f: Frame, user: NodeId, callback: bool, realTime: bool, processor: bool, k: Kind)
    requires IsMeta(k)
    ensures var g := HandleReleased(f, user, callback, realTime, processor);
            forall b: Buffer :: Handed(g, k)[b] == Count(Collected(f.w.collector, k), b) + Handed(f, k)[b]
  {
    var g := HandleReleased(f, user, callback, realTime, processor);
    var list, p := Collected(f.w.collector, k), PendingOf(f, k);
    HandleReleasedReturns(f, user, callback, realTime, processor, k);
    if processor {
      ReturnedAppend(f.out.sent, g.out.sent[|f.out.sent|], k);
      assert g.out.sent == f.out.sent + [g.out.sent[|f.out.sent|]];
    }
    forall b: Buffer
      ensures Handed(g, k)[b] == Count(list, b) + Handed(f, k)[b]
    {
      PickedMembers(list, p, true, b);
      PickedMembers(list, p, false, b);
      CountAppend(p.buffers, Picked(list, p, true), b);
      CountAppend(LostOf(f.out, k), ToReturn(f, k), b);
    }
  }

  /** Draining the collector hands over what it held. */
  lemma DrainedPlaces(w: World, k: Kind, before: multiset<Buffer>, after: multiset<Buffer>)
    requires Placed(w, k, before)
    requires forall b: Buffer :: after[b] == Count(Collected(w.collector, k), b) + before[b]
    ensures Placed(w.(collector := w.collector.Drained()), k, after)
  {
    var r := w.(collector := w.collector.Drained());
    assert Collected(r.collector, k) == [];
    forall b: Buffer
      ensures Count(Collected(r.collector, k), b) + after[b] == if HasLeft(r, k, b) then 1 else 0
    {
      assert Count(Collected(w.collector, k), b) + before[b] == if HasLeft(w, k, b) then 1 else 0;
      assert HasLeft(r, k, b) == HasLeft(w, k, b);
    }
  }

  /** applyRelease passes on the metas that come free, each once and to the place of its kind. */
  lemma ApplyReleasePlaces(f: Frame, n: NodeId, realTime: bool, alive: Alive, roster: Roster, k: Kind)
    requires FrameOk(f, roster) && f.w.collector.IsDrained() && IsMeta(k) && Placed(f.w, k, Handed(f, k))
    ensures var g := ApplyRelease(f, n, realTime, alive); Placed(g.w, k, Handed(g, k))
  {
    var a := Collecting(f, n);
    CollectingPlaces(f, n, roster, k, Handed(f, k));
    CollectingOut(f, n, k);
    var callback := !f.preApplied && alive.appCallback;
    HandleReleasedPlaces(a, n, callback, realTime, alive.processor, k);
    var h := HandleReleased(a, n, callback, realTime, alive.processor);
    DrainedPlaces(a.w, k, Handed(f, k), Handed(h, k));
    assert Handed(ApplyRelease(f, n, realTime, alive), k) == Handed(h, k);
  }

  lemma ApplyPreReleasePlaces(f: Frame, n: NodeId, alive: Alive, roster: Roster, k: Kind)
    requires FrameOk(f, roster) && f.w.collector.IsDrained() && IsMeta(k) && Placed(f.w, k, Handed(f, k))
    ensures var g := ApplyPreRelease(f, n, alive); Placed(g.w, k, Handed(g, k))
  {
    var r, g := RunUpdater(f, n).f, ApplyPreRelease(f, n, alive);
    RunUpdaterPlaces(f, n, roster, k, Handed(f, k));
    forall b: Buffer
      ensures Handed(g, k)[b] == Count(Collected(r.w.collector, k), b) + Handed(f, k)[b]
    {
      CountAppend(DroppedOf(f.out, k), Collected(r.w.collector, k), b);
    }
    DrainedPlaces(r.w, k, Handed(f, k), Handed(g, k));
  }

  // ---------------------------------------------------------------- App images

  lemma ImagesToldAppend(lists: seq<seq<Buffer>>, list: seq<Buffer>)
    ensures ImagesTold(lists + [list]) == ImagesTold(lists) + multiset(list)
  {
    assert (lists + [list])[..|lists|] == lists;
  }

  lemma ReportTellsImages(out: Outbox, c: Collector, user: NodeId, callback: bool, realTime: bool)
    ensures ImagesTold(Report(out, c, user, callback, realTime).appImages) ==
            ImagesTold(out.appImages) + if callback then multiset(c.appImages) else multiset{}
  {
    if callback && c.appImages != [] {
      ImagesToldAppend(out.appImages, c.appImages);
    }
  }

  lemma {:induction false} ReleaseDoneCollects(w: World, keys: seq<StreamId>)
    requires KeysKnown(w, keys)
    ensures ReleaseDoneImages(w, keys).collector.appImages == w.collector.appImages
  {
    if keys != [] {
      var front := keys[..|keys| - 1];
      assert forall s | s in front :: s in keys;
      ReleaseDoneCollects(w, front);
    }
  }

  /** What was not reported because nobody listened joins `missed`. */
  function Missed(missed: multiset<Buffer>, list: seq<Buffer>, callback: bool): multiset<Buffer> {
    if callback then missed else missed + multiset(list)
  }

  lemma ReportPlaces(w: World, out: Outbox, user: NodeId, callback: bool, realTime: bool, missed: multiset<Buffer>)
    requires Placed(w, AppImage, ImagesTold(out.appImages) + missed)
    ensures var told := ImagesTold(Report(out, w.collector, user, callback, realTime).appImages);
            Placed(w.(collector := w.collector.Drained()), AppImage,
                   told + Missed(missed, w.collector.appImages, callback))
  {
    var told := ImagesTold(Report(out, w.collector, user, callback, realTime).appImages);
    ReportTellsImages(out, w.collector, user, callback, realTime);
    DrainedPlaces(w, AppImage, ImagesTold(out.appImages) + missed, told + Missed(missed, w.collector.appImages, callback));
  }

  lemma PreAppliedCollects(f: Frame, n: NodeId)
    requires Closed(f) && KeysKnown(f.w, f.w.halKeys) && f.preApplied && f.w.collector.IsDrained()
    ensures Collecting(f, n).w.collector.appImages == []
  {
    ReleaseDoneCollects(f.w, f.w.halKeys);
  }

  /** applyRelease tells the application of the App images that come free, each once, if it listens. */
  lemma ApplyReleaseTellsImages(f: Frame, n: NodeId, realTime: bool, alive: Alive, roster: Roster, missed: multiset<Buffer>)
    returns (missed': multiset<Buffer>)
    requires FrameOk(f, roster) && f.w.collector.IsDrained()
    requires Placed(f.w, AppImage, ImagesTold(f.out.appImages) + missed)
    ensures var g := ApplyRelease(f, n, realTime, alive);
            Placed(g.w, AppImage, ImagesTold(g.out.appImages) + missed')
    ensures alive.appCallback ==> missed' == missed
  {
    var a := Collecting(f, n);
    var callback := !f.preApplied && alive.appCallback;
    CollectingPlaces(f, n, roster, AppImage, ImagesTold(f.out.appImages) + missed);
    CollectingOut(f, n, AppImage);
    ReportPlaces(a.w, a.out, n, callback, realTime, missed);
    missed' := Missed(missed, a.w.collector.appImages, callback);
    if f.preApplied {
      PreAppliedCollects(f, n);
    }
  }

  lemma ApplyPreReleaseTellsImages(f: Frame, n: NodeId, alive: Alive, roster: Roster, missed: multiset<Buffer>)
    returns (missed': multiset<Buffer>)
    requires FrameOk(f, roster) && f.w.collector.IsDrained()
    requires Placed(f.w, AppImage, ImagesTold(f.out.appImages) + missed)
    ensures var g := ApplyPreRelease(f, n, alive);
            Placed(g.w, AppImage, ImagesTold(g.out.appImages) + missed')
    ensures alive.appCallback ==> missed' == missed
  {
    var r := RunUpdater(f, n).f;
    RunUpdaterPlaces(f, n, roster, AppImage, ImagesTold(f.out.appImages) + missed);
    ReportPlaces(r.w, r.out, n, alive.appCallback, false, missed);
    missed' := Missed(missed, r.w.collector.appImages, alive.appCallback);
  }
}

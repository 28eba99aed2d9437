/** What the application is told about output metadata: each produced buffer once, the same buffers per node
    as in the flat list, and how many streams are still outstanding. */
module MetaReport {
  import opened Users
  import opened Wrappers
  import opened FrameModel
  import opened WorldFacts
  import opened FrameInvariant
  import opened Conservation

  predicate IsMeta(k: Kind) {
    k == AppMeta || k == HalMeta
  }

  function Flat(c: Collector, k: Kind): seq<Buffer> {
    if k == AppMeta then c.appMetasO else c.halMetasO
  }

  function ByNode(c: Collector, k: Kind): map<NodeId, seq<Buffer>> {
    if k == AppMeta then c.appByNode else c.halByNode
  }

  function Left(c: Collector, k: Kind): int {
    if k == AppMeta then c.appLeft else c.halLeft
  }

  /** A produced meta buffer whose producers an apply has seen to be done. */
  ghost predicate Seen(w: World, k: Kind, b: Buffer) {
    var i := ItemId(k, b.stream);
    i in w.items && w.items[i].buffer == Some(b) && Produced(w.items[i]) && w.items[i].producersReleased
  }

  ghost function Told(updates: seq<Update>, k: Kind): multiset<Buffer> {
    if updates == [] then multiset{}
    else
      var u := updates[|updates| - 1];
      Told(updates[..|updates| - 1], k) + multiset(if k == AppMeta then u.appMetas else u.halMetas)
  }

  ghost predicate OnceIn(w: World, k: Kind, told: multiset<Buffer>) {
    forall b: Buffer :: Count(Flat(w.collector, k), b) + told[b] == if Seen(w, k, b) then 1 else 0
  }

  /** The per-node lists hold the flat list, all of it under the node that applies. */
  ghost predicate SameByNode(c: Collector, k: Kind, n: NodeId) {
    ByNode(c, k) == if Flat(c, k) == [] then map[] else map[n := Flat(c, k)]
  }

  /** Producers that were seen to be done are done. */
  ghost predicate SeenIsDone(w: World) {
    forall i | i in w.items && IsMeta(i.kind) && w.items[i].producersReleased && w.items[i].users.active ::
      w.items[i].users.ProducersDone()
  }

  ghost predicate MetasOk(w: World, k: Kind, n: NodeId, told: multiset<Buffer>) {
    OnceIn(w, k, told) && SameByNode(w.collector, k, n)
  }

  // ---------------------------------------------------------------- visits

  lemma AllUsersReleasedMetas(w: World, i: ItemId, k: Kind, n: NodeId, told: multiset<Buffer>)
    requires MetasOk(w, k, n, told) && i in w.items
    ensures MetasOk(AllUsersReleased(w, i), k, n, told)
  {
    var r := AllUsersReleased(w, i);
    CollectFreeMetas(w.collector, i.kind, w.items[i], k);
    forall b: Buffer
      ensures Count(Flat(r.collector, k), b) + told[b] == if Seen(r, k, b) then 1 else 0
    {
      assert Seen(r, k, b) == Seen(w, k, b);
      assert Count(Flat(w.collector, k), b) + told[b] == if Seen(w, k, b) then 1 else 0;
    }
  }

  lemma CollectFreeMetas(c: Collector, from: Kind, item: Item, k: Kind)
    ensures var r := CollectFree(c, from, item); Flat(r, k) == Flat(c, k) && ByNode(r, k) == ByNode(c, k)
  {}

  /** The buffers that a visit adds to the report for kind `k`. */
  ghost function News(w: World, i: ItemId, k: Kind): seq<Buffer>
    requires i in w.items
  {
    var item := w.items[i];
    if item.producersReleased || !Produced(item) || item.buffer.None? || i.kind != k then [] else [item.buffer.value]
  }

  lemma ProducersReleasedLists(w: World, i: ItemId, k: Kind, n: NodeId)
    requires i in w.items && IsMeta(k)
    ensures var r, news := ProducersReleased(ProducersReleasedByNode(w, n, i), i), News(w, i, k);
            && Flat(r.collector, k) == Flat(w.collector, k) + news
            && ByNode(r.collector, k) ==
                 if news == [] then ByNode(w.collector, k) else AppendFor(ByNode(w.collector, k), n, news[0])
  {}

  lemma AppendKeepsSame(flat: seq<Buffer>, lists: map<NodeId, seq<Buffer>>, n: NodeId, b: Buffer)
    requires lists == if flat == [] then map[] else map[n := flat]
    ensures AppendFor(lists, n, b) == map[n := flat + [b]]
  {
    if flat == [] {
      assert [] + [b] == flat + [b];
    }
  }

  lemma ProducersReleasedMetas(w: World, i: ItemId, k: Kind, n: NodeId, told: multiset<Buffer>)
    requires ItemsOk(w) && MetasOk(w, k, n, told) && i in w.items && IsMeta(k)
    ensures MetasOk(ProducersReleased(ProducersReleasedByNode(w, n, i), i), k, n, told)
  {
    var r := ProducersReleased(ProducersReleasedByNode(w, n, i), i);
    var news := News(w, i, k);
    ProducersReleasedLists(w, i, k, n);
    if news == [] {
      assert Flat(w.collector, k) + news == Flat(w.collector, k);
    } else {
      AppendKeepsSame(Flat(w.collector, k), ByNode(w.collector, k), n, news[0]);
    }
    NewsAreSeen(w, i, k, n);
    forall b: Buffer
      ensures Count(Flat(r.collector, k), b) + told[b] == if Seen(r, k, b) then 1 else 0
    {
      assert Count(Flat(w.collector, k), b) + told[b] == if Seen(w, k, b) then 1 else 0;
      CountAppend(Flat(w.collector, k), news, b);
    }
  }

  lemma NewsAreSeen(w: World, i: ItemId, k: Kind, n: NodeId)
    requires ItemsOk(w) && i in w.items && IsMeta(k)
    ensures var r := ProducersReleased(ProducersReleasedByNode(w, n, i), i);
            forall b: Buffer :: (Seen(r, k, b) <==> Seen(w, k, b) || b in News(w, i, k)) &&
                                !(Seen(w, k, b) && b in News(w, i, k))
  {
    assert ItemOk(w, i);
  }

  lemma VisitMetas(w: World, n: NodeId, i: ItemId, k: Kind, told: multiset<Buffer>)
    requires ItemsOk(w) && MetasOk(w, k, n, told) && i in w.items && IsMeta(k)
    ensures MetasOk(Visit(w, n, i), k, n, told)
  {
    var us := w.items[i].users;
    if us.active {
      ProducersReleasedMetas(w, i, k, n, told);
      var w1 := if us.ProducersDone() then ProducersReleased(ProducersReleasedByNode(w, n, i), i) else w;
      AllUsersReleasedMetas(w1, i, k, n, told);
    }
  }

  lemma {:induction false} VisitAllMetas(w: World, n: NodeId, ios: seq<ItemId>, k: Kind, told: multiset<Buffer>)
    requires WorldOk(w) && Known(w, ios) && MetasOk(w, k, n, told) && IsMeta(k)
    ensures MetasOk(VisitAll(w, n, ios), k, n, told)
  {
    if ios != [] {
      var front := ios[..|ios| - 1];
      VisitAllEffect(w, n, front);
      VisitAllMetas(w, n, front, k, told);
      VisitMetas(VisitAll(w, n, front), n, ios[|ios| - 1], k, told);
    }
  }

  lemma UpdateNodeMetas(w: World, n: NodeId, ns: NodeStatus, k: Kind, told: multiset<Buffer>)
    requires WorldOk(w) && KnownNode(w, ns) && SetsOk(ns) && MetasOk(w, k, n, told) && IsMeta(k)
    ensures MetasOk(UpdateNode(w, n, ns).w, k, n, told)
  {
    UpdateSetEffect(w, n, ns.outImage);
    VisitAllMetas(w, n, ns.outImage.ios, k, told);
    var w1 := UpdateSet(w, n, ns.outImage).w;
    UpdateSetEffect(w1, n, ns.inImage);
    VisitAllMetas(w1, n, ns.inImage.ios, k, told);
    var w2 := UpdateSet(w1, n, ns.inImage).w;
    UpdateSetEffect(w2, n, ns.outMeta);
    VisitAllMetas(w2, n, ns.outMeta.ios, k, told);
    var w3 := UpdateSet(w2, n, ns.outMeta).w;
    VisitAllMetas(w3, n, ns.inMeta.ios, k, told);
  }

  lemma RunUpdaterMetas(f: Frame, n: NodeId, roster: Roster, k: Kind, told: multiset<Buffer>)
    requires FrameOk(f, roster) && MetasOk(f.w, k, n, told) && IsMeta(k)
    ensures MetasOk(RunUpdater(f, n).f.w, k, n, told)
  {
    if n in f.nodes {
      UpdateNodeMetas(f.w, n, f.nodes[n], k, told);
    }
  }

  lemma {:induction false} ReleaseDoneImagesMetas(w: World, keys: seq<StreamId>, k: Kind, n: NodeId, told: multiset<Buffer>)
    requires KeysKnown(w, keys) && MetasOk(w, k, n, told)
    ensures MetasOk(ReleaseDoneImages(w, keys), k, n, told)
    ensures Flat(ReleaseDoneImages(w, keys).collector, k) == Flat(w.collector, k)
  {
    if keys != [] {
      var front := keys[..|keys| - 1];
      assert forall s | s in front :: s in keys;
      ReleaseDoneImagesMetas(w, front, k, n, told);
      AllUsersReleasedMetas(ReleaseDoneImages(w, front), ItemId(HalImage, keys[|keys| - 1]), k, n, told);
    }
  }

  // ---------------------------------------------------------------- whole calls

  lemma ToldAppend(updates: seq<Update>, u: Update, k: Kind)
    ensures Told(updates + [u], k) == Told(updates, k) + multiset(if k == AppMeta then u.appMetas else u.halMetas)
  {
    assert (updates + [u])[..|updates|] == updates;
  }

  /** One report agrees with the collector, and afterwards the collector is empty. */
  lemma ReportMetas(w: World, out: Outbox, n: NodeId, k: Kind, callback: bool, realTime: bool)
    requires MetasOk(w, k, n, Told(out.updates, k)) && IsMeta(k)
    requires !callback ==> Flat(w.collector, k) == []
    ensures var r := Report(out, w.collector, n, callback, realTime);
            OnceIn(w.(collector := w.collector.Drained()), k, Told(r.updates, k))
  {
    var r := Report(out, w.collector, n, callback, realTime);
    var d := w.(collector := w.collector.Drained());
    if callback {
      ToldAppend(out.updates, r.updates[|r.updates| - 1], k);
    }
    forall b: Buffer
      ensures Count(Flat(d.collector, k), b) + Told(r.updates, k)[b] == if Seen(d, k, b) then 1 else 0
    {
      assert Count(Flat(w.collector, k), b) + Told(out.updates, k)[b] == if Seen(w, k, b) then 1 else 0;
    }
  }

  /** Between calls: every produced meta buffer that was seen has been told exactly once, no other ever. */
  ghost predicate ToldOnce(f: Frame, k: Kind) {
    forall b: Buffer :: Told(f.out.updates, k)[b] == if Seen(f.w, k, b) then 1 else 0
  }

  lemma StartOfApply(f: Frame, n: NodeId, k: Kind)
    requires f.w.collector.IsDrained() && ToldOnce(f, k)
    ensures MetasOk(f.w, k, n, Told(f.out.updates, k))
  {
    forall b: Buffer
      ensures Count(Flat(f.w.collector, k), b) + Told(f.out.updates, k)[b] == if Seen(f.w, k, b) then 1 else 0
    {
      assert Told(f.out.updates, k)[b] == if Seen(f.w, k, b) then 1 else 0;
      assert Flat(f.w.collector, k) == [];
    }
  }

  lemma DrainedIsTold(f: Frame, k: Kind, w: World)
    requires OnceIn(w, k, Told(f.out.updates, k)) && w.collector.IsDrained() && w.items == f.w.items
    ensures ToldOnce(f, k)
  {
    forall b: Buffer
      ensures Told(f.out.updates, k)[b] == if Seen(f.w, k, b) then 1 else 0
    {
      assert Count(Flat(w.collector, k), b) + Told(f.out.updates, k)[b] == if Seen(w, k, b) then 1 else 0;
      assert Flat(w.collector, k) == [];
    }
  }

  /** The state right before handleReleasedBuffers. */
  lemma BeforeReport(f: Frame, n: NodeId, roster: Roster, k: Kind)
    requires FrameOk(f, roster) && f.w.collector.IsDrained() && ToldOnce(f, k) && IsMeta(k)
    requires var r := UpdateForRelease(f, n).f; KeysKnown(r.w, r.w.halKeys)
    ensures var a := AiawbRelease(UpdateForRelease(f, n).f, n);
            && MetasOk(a.w, k, n, Told(a.out.updates, k)) && a.out == f.out
            && (f.preApplied ==> Flat(a.w.collector, k) == [])
  {
    StartOfApply(f, n, k);
    RunUpdaterMetas(f, n, roster, k, Told(f.out.updates, k));
    var r := UpdateForRelease(f, n).f;
    ReleaseDoneImagesMetas(r.w, r.w.halKeys, k, n, Told(f.out.updates, k));
  }

  /** applyRelease reports every produced meta buffer it sees, and no buffer twice over the frame's life. */
  lemma ApplyReleaseReports(f: Frame, n: NodeId, realTime: bool, alive: Alive, roster: Roster, k: Kind)
    requires FrameOk(f, roster) && f.w.collector.IsDrained() && ToldOnce(f, k) && IsMeta(k)
    requires alive.appCallback
    ensures ToldOnce(ApplyRelease(f, n, realTime, alive), k)
  {
    UpdateKeepsKeys(f, n);
    BeforeReport(f, n, roster, k);
    var a := AiawbRelease(UpdateForRelease(f, n).f, n);
    ReportMetas(a.w, a.out, n, k, !f.preApplied, realTime);
    DrainedIsTold(ApplyRelease(f, n, realTime, alive), k, a.w.(collector := a.w.collector.Drained()));
  }

  lemma ApplyPreReleaseReports(f: Frame, n: NodeId, alive: Alive, roster: Roster, k: Kind)
    requires FrameOk(f, roster) && f.w.collector.IsDrained() && ToldOnce(f, k) && IsMeta(k)
    requires alive.appCallback
    ensures ToldOnce(ApplyPreRelease(f, n, alive), k)
  {
    StartOfApply(f, n, k);
    RunUpdaterMetas(f, n, roster, k, Told(f.out.updates, k));
    var r := RunUpdater(f, n).f;
    ReportMetas(r.w, r.out, n, k, true, false);
    DrainedIsTold(ApplyPreRelease(f, n, alive), k, r.w.(collector := r.w.collector.Drained()));
  }

  // ---------------------------------------------------------------- single callbacks

  ghost function SeenBuffers(w: World, k: Kind): set<Buffer> {
    set i | i in w.items && i.kind == k && w.items[i].buffer.Some? && Seen(w, k, w.items[i].buffer.value) ::
      w.items[i].buffer.value
  }

  lemma SeenAreSeen(w: World, k: Kind)
    ensures forall b: Buffer :: b in SeenBuffers(w, k) <==> Seen(w, k, b)
  {
    forall b: Buffer
      ensures b in SeenBuffers(w, k) <==> Seen(w, k, b)
    {
      var i := ItemId(k, b.stream);
      if Seen(w, k, b) {
        assert i in w.items && w.items[i].buffer.value == b;
      }
    }
  }

  /** Whatever was told before, an apply starts as if exactly the buffers seen so far had been. */
  lemma StartOfAny(w: World, n: NodeId, k: Kind)
    requires w.collector.IsDrained()
    ensures MetasOk(w, k, n, multiset(SeenBuffers(w, k)))
  {
    SeenAreSeen(w, k);
    assert Flat(w.collector, k) == [];
  }

  /** The flat list of a callback holds, once each, the produced metas that this apply is the first to see done. */
  ghost predicate IsNews(flat: seq<Buffer>, k: Kind, w: World, r: World) {
    forall b: Buffer :: Count(flat, b) == if Seen(r, k, b) && !Seen(w, k, b) then 1 else 0
  }

  /** The report of a world that began drained: once in the flat list, and per node the same. */
  lemma NewsOf(w: World, r: World, n: NodeId, k: Kind)
    requires w.collector.IsDrained() && MetasOk(r, k, n, multiset(SeenBuffers(w, k)))
    requires forall b: Buffer :: Seen(w, k, b) ==> Seen(r, k, b)
    ensures IsNews(Flat(r.collector, k), k, w, r)
  {
    SeenAreSeen(w, k);
    forall b: Buffer
      ensures Count(Flat(r.collector, k), b) == if Seen(r, k, b) && !Seen(w, k, b) then 1 else 0
    {
      assert Count(Flat(r.collector, k), b) + multiset(SeenBuffers(w, k))[b] == if Seen(r, k, b) then 1 else 0;
    }
  }

  /** What one callback of node `n` says, between the items as they were before the call and after it: the node
      lists hold exactly the flat lists, these hold exactly the news, and `left` counts the streams of that kind
      whose producers no apply has seen to be done. */
  ghost predicate UpdateOk(u: Update, n: NodeId, realTime: bool, w: World, r: World) {
    && u.user == n && u.realTime == realTime && !u.frameEnd
    && u.appByNode == (if u.appMetas == [] then map[] else map[n := u.appMetas])
    && u.halByNode == (if u.halMetas == [] then map[] else map[n := u.halMetas])
    && IsNews(u.appMetas, AppMeta, w, r) && IsNews(u.halMetas, HalMeta, w, r)
    && u.appLeft == |Outstanding(r, AppMeta)| && u.halLeft == |Outstanding(r, HalMeta)|
  }

  /** A call makes one callback that is in order, or none. */
  ghost predicate Tells(before: seq<Update>, after: seq<Update>, told: bool, n: NodeId, realTime: bool, w: World, r: World) {
    if !told then after == before
    else |after| == |before| + 1 && after[..|before|] == before && UpdateOk(after[|before|], n, realTime, w, r)
  }

  /** The collector of `r`, right before it is reported. */
  ghost predicate Reportable(w: World, r: World, n: NodeId) {
    && LeftOk(r)
    && (forall k | IsMeta(k) :: SameByNode(r.collector, k, n) && IsNews(Flat(r.collector, k), k, w, r))
  }

  lemma ReportTells(w: World, r: World, out: Outbox, n: NodeId, callback: bool, realTime: bool)
    requires Reportable(w, r, n)
    ensures Tells(out.updates, Report(out, r.collector, n, callback, realTime).updates, callback, n, realTime, w, r)
  {
    if callback {
      assert SameByNode(r.collector, AppMeta, n) && SameByNode(r.collector, HalMeta, n);
      assert IsNews(Flat(r.collector, AppMeta), AppMeta, w, r) && IsNews(Flat(r.collector, HalMeta), HalMeta, w, r);
    }
  }

  /** Draining the collector does not change what is seen or outstanding. */
  lemma DrainedTells(before: seq<Update>, after: seq<Update>, told: bool, n: NodeId, realTime: bool, w: World, r: World,
                     d: World)
    requires Tells(before, after, told, n, realTime, w, r) && d.items == r.items
    ensures Tells(before, after, told, n, realTime, w, d)
  {
    assert Outstanding(d, AppMeta) == Outstanding(r, AppMeta) && Outstanding(d, HalMeta) == Outstanding(r, HalMeta);
    forall k: Kind, b: Buffer
      ensures Seen(d, k, b) == Seen(r, k, b)
    {}
  }

  lemma RunUpdaterSees(f: Frame, n: NodeId, roster: Roster, k: Kind, b: Buffer)
    requires FrameOk(f, roster) && Seen(f.w, k, b)
    ensures Seen(RunUpdater(f, n).f.w, k, b)
  {
    if n in f.nodes {
      UpdateNodeEffect(f.w, n, f.nodes[n]);
      assert SameButBits(f.w.items[ItemId(k, b.stream)], RunUpdater(f, n).f.w.items[ItemId(k, b.stream)]);
    }
  }

  lemma RunUpdaterReportable(f: Frame, n: NodeId, roster: Roster)
    requires FrameOk(f, roster) && f.w.collector.IsDrained()
    ensures Reportable(f.w, RunUpdater(f, n).f.w, n)
  {
    RunUpdaterOk(f, n, roster);
    var r := RunUpdater(f, n).f.w;
    forall k | IsMeta(k)
      ensures SameByNode(r.collector, k, n) && IsNews(Flat(r.collector, k), k, f.w, r)
    {
      StartOfAny(f.w, n, k);
      RunUpdaterMetas(f, n, roster, k, multiset(SeenBuffers(f.w, k)));
      forall b: Buffer | Seen(f.w, k, b)
        ensures Seen(r, k, b)
      {
        RunUpdaterSees(f, n, roster, k, b);
      }
      NewsOf(f.w, r, n, k);
    }
  }

  /** Freeing Hal images has nothing to do with metas. */
  lemma {:induction false} ReleaseDoneImagesSeen(w: World, keys: seq<StreamId>)
    requires KeysKnown(w, keys)
    ensures var r := ReleaseDoneImages(w, keys);
            forall i | i in w.items :: r.items[i] == w.items[i].(released := r.items[i].released)
  {
    if keys != [] {
      var front := keys[..|keys| - 1];
      assert forall s | s in front :: s in keys;
      ReleaseDoneImagesSeen(w, front);
    }
  }

  lemma AiawbReportable(w: World, f: Frame, n: NodeId, roster: Roster)
    requires FrameOk(f, roster) && KeysKnown(f.w, f.w.halKeys) && Reportable(w, f.w, n)
    ensures Reportable(w, AiawbRelease(f, n).w, n)
  {
    AiawbReleaseOk(f, n, roster);
    var r := ReleaseDoneImages(f.w, f.w.halKeys);
    ReleaseDoneImagesSeen(f.w, f.w.halKeys);
    forall k | IsMeta(k)
      ensures SameByNode(r.collector, k, n) && IsNews(Flat(r.collector, k), k, w, r)
    {
      assert SameByNode(f.w.collector, k, n) && IsNews(Flat(f.w.collector, k), k, w, f.w);
      ReleaseDoneImagesLists(f.w, f.w.halKeys, k);
      forall b: Buffer
        ensures Seen(r, k, b) == Seen(f.w, k, b)
      {}
    }
  }

  lemma {:induction false} ReleaseDoneImagesLists(w: World, keys: seq<StreamId>, k: Kind)
    requires KeysKnown(w, keys)
    ensures var r := ReleaseDoneImages(w, keys);
            Flat(r.collector, k) == Flat(w.collector, k) && ByNode(r.collector, k) == ByNode(w.collector, k)
  {
    if keys != [] {
      var front := keys[..|keys| - 1];
      assert forall s | s in front :: s in keys;
      ReleaseDoneImagesLists(w, front, k);
      var m, i := ReleaseDoneImages(w, front), ItemId(HalImage, keys[|keys| - 1]);
      CollectFreeMetas(m.collector, i.kind, m.items[i], k);
    }
  }

  /** Nothing is reported by a frame that was pre-released, so nothing has to be said about it. */
  lemma SameReportable(f: Frame, n: NodeId, roster: Roster)
    requires FrameOk(f, roster) && f.w.collector.IsDrained()
    ensures Reportable(f.w, f.w, n)
  {
    forall k | IsMeta(k)
      ensures SameByNode(f.w.collector, k, n) && IsNews(Flat(f.w.collector, k), k, f.w, f.w)
    {}
  }

  /** applyRelease makes a callback exactly if the frame was not pre-released and the application is there; the
      callback holds the news, the same per node as in the flat list, and a number of outstanding streams that is
      never negative. It does not matter whether earlier callbacks were heard. */
  lemma ApplyReleaseUpdateOk(f: Frame, n: NodeId, realTime: bool, alive: Alive, roster: Roster)
    requires FrameOk(f, roster) && f.w.collector.IsDrained()
    ensures var g := ApplyRelease(f, n, realTime, alive);
            Tells(f.out.updates, g.out.updates, !f.preApplied && alive.appCallback, n, realTime, f.w, g.w)
  {
    UpdateKeepsKeys(f, n);
    UpdateForReleaseOk(f, n, roster);
    var r := UpdateForRelease(f, n).f;
    assert Reportable(f.w, r.w, n) by {
      RunUpdaterReportable(f, n, roster);
      SameReportable(f, n, roster);
    }
    AiawbReportable(f.w, r, n, roster);
    var a := AiawbRelease(r, n);
    var callback := !f.preApplied && alive.appCallback;
    ReportTells(f.w, a.w, f.out, n, callback, realTime);
    DrainedTells(f.out.updates, Report(f.out, a.w.collector, n, callback, realTime).updates, callback, n, realTime,
                 f.w, a.w, ApplyRelease(f, n, realTime, alive).w);
  }

  /** So does applyPreRelease, which calls whenever the application is there. */
  lemma ApplyPreReleaseUpdateOk(f: Frame, n: NodeId, alive: Alive, roster: Roster)
    requires FrameOk(f, roster) && f.w.collector.IsDrained()
    ensures var g := ApplyPreRelease(f, n, alive);
            Tells(f.out.updates, g.out.updates, alive.appCallback, n, false, f.w, g.w)
  {
    RunUpdaterReportable(f, n, roster);
    var r := RunUpdater(f, n).f;
    ReportTells(f.w, r.w, f.out, n, alive.appCallback, false);
    DrainedTells(f.out.updates, Report(f.out, r.w.collector, n, alive.appCallback, false).updates, alive.appCallback, n,
                 false, f.w, r.w, ApplyPreRelease(f, n, alive).w);
  }

  // ---------------------------------------------------------------- what `left` is worth

  /** The streams of a kind whose producers are not all done. */
  ghost function NotDone(w: World, k: Kind): set<ItemId> {
    set i | i in w.items && i.kind == k && Produced(w.items[i]) && !w.items[i].users.ProducersDone()
  }

  /** The apply of node `n` sees the item, or an earlier one did. */
  ghost predicate SeenBy(f: Frame, n: NodeId, i: ItemId)
    requires i in f.w.items
  {
    f.w.items[i].producersReleased || (n in f.nodes && f.nodes[n].Lists(i))
  }

  /** The streams that are done but that neither this apply nor an earlier one sees. */
  ghost function Overlooked(f: Frame, n: NodeId, k: Kind): set<ItemId> {
    set i | i in f.w.items && i.kind == k && Produced(f.w.items[i]) && f.w.items[i].users.ProducersDone() &&
            !SeenBy(f, n, i)
  }

  /** The streams that are done, were not seen to be and are not among those visited. */
  ghost function Unvisited(w: World, ios: seq<ItemId>, k: Kind): set<ItemId> {
    set i | i in w.items && i.kind == k && Produced(w.items[i]) && w.items[i].users.ProducersDone() &&
            !w.items[i].producersReleased && i !in ios
  }

  lemma EffectLeft(w: World, r: World, n: NodeId, ios: seq<ItemId>, k: Kind)
    requires Effect(w, r, n, ios) && SeenIsDone(w) && IsMeta(k)
    ensures Outstanding(r, k) == NotDone(w, k) + Unvisited(w, ios, k)
  {
    UsersThrough(w, r, n, ios);
  }

  lemma RunUpdaterLeft(f: Frame, n: NodeId, roster: Roster, k: Kind)
    requires FrameOk(f, roster) && SeenIsDone(f.w) && IsMeta(k)
    ensures Outstanding(RunUpdater(f, n).f.w, k) == NotDone(f.w, k) + Overlooked(f, n, k)
  {
    UnvisitedIsOverlooked(f, n, k);
    if n in f.nodes {
      UpdateNodeEffect(f.w, n, f.nodes[n]);
      EffectLeft(f.w, UpdateNode(f.w, n, f.nodes[n]).w, n, Listed(f.nodes[n]), k);
    } else {
      EffectLeft(f.w, f.w, n, [], k);
    }
  }

  lemma UnvisitedIsOverlooked(f: Frame, n: NodeId, k: Kind)
    ensures Unvisited(f.w, if n in f.nodes then Listed(f.nodes[n]) else [], k) == Overlooked(f, n, k)
  {
    if n in f.nodes {
      ListedMembers(f.nodes[n]);
    }
  }

  lemma ReleaseLeft(f: Frame, n: NodeId, realTime: bool, alive: Alive, roster: Roster, k: Kind)
    requires FrameOk(f, roster) && SeenIsDone(f.w) && IsMeta(k) && !f.preApplied
    ensures Outstanding(ApplyRelease(f, n, realTime, alive).w, k) == NotDone(f.w, k) + Overlooked(f, n, k)
  {
    UpdateKeepsKeys(f, n);
    RunUpdaterLeft(f, n, roster, k);
    AiawbLeft(UpdateForRelease(f, n).f, n, k);
  }

  lemma AiawbLeft(f: Frame, n: NodeId, k: Kind)
    requires KeysKnown(f.w, f.w.halKeys)
    ensures forall c :: Outstanding(AiawbRelease(f, n).w.(collector := c), k) == Outstanding(f.w, k)
  {
    ReleaseDoneImagesSeen(f.w, f.w.halKeys);
    forall c
      ensures Outstanding(AiawbRelease(f, n).w.(collector := c), k) == Outstanding(f.w, k)
    {}
  }

  function LeftIn(u: Update, k: Kind): int {
    if k == AppMeta then u.appLeft else u.halLeft
  }

  lemma LeftCounts(f: Frame, n: NodeId, k: Kind, left: set<ItemId>)
    requires left == NotDone(f.w, k) + Overlooked(f, n, k)
    ensures |left| == |NotDone(f.w, k)| + |Overlooked(f, n, k)|
    ensures Overlooked(f, n, k) == {} <==> AllSeen(f, n, k)
  {
    assert NotDone(f.w, k) !! Overlooked(f, n, k);
    if AllSeen(f, n, k) {
      assert Overlooked(f, n, k) == {};
    } else {
      var i :| i in f.w.items && i.kind == k && Produced(f.w.items[i]) && f.w.items[i].users.ProducersDone() &&
               !SeenBy(f, n, i);
      assert i in Overlooked(f, n, k);
    }
  }

  /** Every stream that is done when the call begins was seen to be, or is listed by the calling node. */
  ghost predicate AllSeen(f: Frame, n: NodeId, k: Kind) {
    forall i | i in f.w.items && i.kind == k && Produced(f.w.items[i]) && f.w.items[i].users.ProducersDone() ::
      SeenBy(f, n, i)
  }

  /** The number of outstanding streams in a callback of applyRelease is never too small, and it is the number of
      streams whose producers are not done if and only if every stream that is done when the call begins was seen
      to be, or is listed by the calling node. */
  lemma LeftIsExactIff(f: Frame, n: NodeId, realTime: bool, alive: Alive, roster: Roster, k: Kind)
    requires FrameOk(f, roster) && f.w.collector.IsDrained() && SeenIsDone(f.w) && IsMeta(k)
    requires !f.preApplied && alive.appCallback
    ensures |ApplyRelease(f, n, realTime, alive).out.updates| == |f.out.updates| + 1
    ensures var u := ApplyRelease(f, n, realTime, alive).out.updates[|f.out.updates|];
            && LeftIn(u, k) == |NotDone(f.w, k)| + |Overlooked(f, n, k)|
            && (LeftIn(u, k) == |NotDone(f.w, k)| <==> AllSeen(f, n, k))
  {
    ApplyReleaseUpdateOk(f, n, realTime, alive, roster);
    ReleaseLeft(f, n, realTime, alive, roster, k);
    LeftCounts(f, n, k, Outstanding(ApplyRelease(f, n, realTime, alive).w, k));
  }

  lemma PreReleaseLeftIsExactIff(f: Frame, n: NodeId, alive: Alive, roster: Roster, k: Kind)
    requires FrameOk(f, roster) && f.w.collector.IsDrained() && SeenIsDone(f.w) && IsMeta(k) && alive.appCallback
    ensures |ApplyPreRelease(f, n, alive).out.updates| == |f.out.updates| + 1
    ensures var u := ApplyPreRelease(f, n, alive).out.updates[|f.out.updates|];
            && LeftIn(u, k) == |NotDone(f.w, k)| + |Overlooked(f, n, k)|
            && (LeftIn(u, k) == |NotDone(f.w, k)| <==> AllSeen(f, n, k))
  {
    ApplyPreReleaseUpdateOk(f, n, alive, roster);
    RunUpdaterLeft(f, n, roster, k);
    assert Outstanding(ApplyPreRelease(f, n, alive).w, k) == Outstanding(RunUpdater(f, n).f.w, k);
    LeftCounts(f, n, k, Outstanding(RunUpdater(f, n).f.w, k));
  }
}

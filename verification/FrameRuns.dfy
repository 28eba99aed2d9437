/** Every run of a configured frame: what holds after any number of steps, in any order, by any users. */
module FrameRuns {
  import opened Users
  import opened Wrappers
  import opened FrameModel
  import opened WorldFacts
  import opened FrameInvariant
  import opened Conservation
  import opened MetaReport

  /** The provider was asked once for each image that has been acquired or has failed, and for nothing else.
      `given` holds the images that had a buffer from the start. */
  ghost predicate AskedOnce(f: Frame, given: set<ItemId>) {
    && (forall i | i in f.w.items && i in given :: f.w.items[i].acquired)
    && (forall i: ItemId :: multiset(f.out.requests)[i] ==
          if i in f.w.items && IsImage(i.kind) && i !in given &&
             (f.w.items[i].acquired || f.w.items[i].acquireFailed) then 1 else 0)
  }

  predicate Notified(ns: NodeStatus, m: Message) {
    if m == ALL_OUT_META_BUFFERS_RELEASED then ns.outMeta.notified else ns.outImage.notified
  }

  /** Each node is announced once per output set, exactly when that set has been found empty; the frame is
      announced at most once before it dies, and only when no node has anything left. */
  ghost predicate NoticesOk(notices: seq<Notice>, nodes: Nodes, inFlight: int) {
    && (forall n, m :: multiset(notices)[NodeNotice(n, m)] == if n in nodes && Notified(nodes[n], m) then 1 else 0)
    && multiset(notices)[FrameReleased] <= 1
    && (FrameReleased in multiset(notices) ==> inFlight == 0)
  }

  ghost predicate RunOk(f: Frame, roster: Roster, given: set<ItemId>) {
    && FrameOk(f, roster)
    && f.w.collector.IsDrained()
    && Conserved(f)
    && SeenIsDone(f.w)
    && AskedOnce(f, given)
    && NoticesOk(f.out.notices, f.nodes, f.inFlight)
  }

  // ---------------------------------------------------------------- steps that free nothing

  ghost predicate QuietItem(a: Item, b: Item, mapped: bool, image: bool) {
    && b.producersReleased == a.producersReleased
    && (b.buffer == a.buffer || (mapped && image && a.buffer.None?))
    && (!image ==> Produced(b) == Produced(a))
    && (a.users.ProducersDone() && !image ==> b.users.ProducersDone())
    && (b.users.active ==> a.users.active)
  }

  ghost predicate QuietWorld(w: World, r: World) {
    && r.items.Keys == w.items.Keys && r.mapped == w.mapped && r.collector == w.collector
    && (forall i | i in w.items :: QuietItem(w.items[i], r.items[i], i in w.mapped, IsImage(i.kind)))
  }

  /** Nothing is freed, reported or announced; at most one buffer is asked for. */
  ghost predicate Quiet(f: Frame, g: Frame) {
    && g.nodes == f.nodes && g.inFlight == f.inFlight && g.preApplied == f.preApplied
    && g.out == f.out.(requests := g.out.requests)
    && g.pendingImage == f.pendingImage && g.pendingHalMeta == f.pendingHalMeta && g.pendingAppMeta == f.pendingAppMeta
    && QuietWorld(f.w, g.w)
  }

  lemma QuietConserves(f: Frame, g: Frame)
    requires Quiet(f, g) && Conserved(f)
    ensures Conserved(g)
  {
    assert Elsewhere(g) == Elsewhere(f);
    forall b: Buffer
      ensures Freed(g.w, b) <==> Freed(f.w, b)
    {
      var i := ItemId(HalImage, b.stream);
      if i in f.w.items {
        assert QuietItem(f.w.items[i], g.w.items[i], i in f.w.mapped, true);
      }
    }
    ConservedSame(f.w, g.w, Elsewhere(f));
  }

  lemma QuietTells(f: Frame, g: Frame, k: Kind)
    requires QuietWorld(f.w, g.w) && g.out.updates == f.out.updates && ToldOnce(f, k) && IsMeta(k)
    ensures ToldOnce(g, k)
  {
    forall b: Buffer
      ensures Told(g.out.updates, k)[b] == if Seen(g.w, k, b) then 1 else 0
    {
      assert Told(f.out.updates, k)[b] == if Seen(f.w, k, b) then 1 else 0;
      var i := ItemId(k, b.stream);
      if i in f.w.items {
        assert QuietItem(f.w.items[i], g.w.items[i], i in f.w.mapped, false);
      }
    }
  }

  lemma QuietSeen(w: World, r: World)
    requires QuietWorld(w, r) && SeenIsDone(w)
    ensures SeenIsDone(r)
  {
    forall i | i in r.items && IsMeta(i.kind) && r.items[i].producersReleased && r.items[i].users.active
      ensures r.items[i].users.ProducersDone()
    {
      assert QuietItem(w.items[i], r.items[i], i in w.mapped, false);
    }
  }

  /** Marking changes how far one user has come and nothing else. */
  lemma MarkQuiet(f: Frame, i: ItemId, u: UserId, s: Status)
    requires i in f.w.items
    ensures Quiet(f, MarkItem(f, i, u, s))
  {
    var g := MarkItem(f, i, u, s);
    forall j | j in f.w.items
      ensures QuietItem(f.w.items[j], g.w.items[j], j in f.w.mapped, IsImage(j.kind))
    {}
  }

  lemma MarkAsks(f: Frame, i: ItemId, u: UserId, s: Status, given: set<ItemId>)
    requires i in f.w.items && AskedOnce(f, given)
    ensures AskedOnce(MarkItem(f, i, u, s), given)
  {}

  lemma QuietTrans(f: Frame, m: Frame, g: Frame)
    requires Quiet(f, m) && Quiet(m, g)
    ensures Quiet(f, g)
  {
    forall i | i in f.w.items
      ensures QuietItem(f.w.items[i], g.w.items[i], i in f.w.mapped, IsImage(i.kind))
    {
      assert QuietItem(f.w.items[i], m.w.items[i], i in f.w.mapped, IsImage(i.kind));
      assert QuietItem(m.w.items[i], g.w.items[i], i in f.w.mapped, IsImage(i.kind));
    }
  }

  /** Storing the provider's answer for one image that was not acquired and had not failed. */
  lemma AnswerQuiet(f: Frame, i: ItemId, item: Item, given: set<ItemId>)
    requires ItemsOk(f.w) && i in f.w.mapped && i in f.w.items && IsImage(i.kind) && AskedOnce(f, given)
    requires !f.w.items[i].acquired && !f.w.items[i].acquireFailed
    requires item == f.w.items[i].(buffer := item.buffer, acquired := item.acquired, acquireFailed := item.acquireFailed)
    requires item.acquired || item.acquireFailed
    ensures var g := f.(w := SetItem(f.w, i, item), out := f.out.(requests := f.out.requests + [i]));
            Quiet(f, g) && AskedOnce(g, given)
  {
    assert ItemOk(f.w, i);
    var g := f.(w := SetItem(f.w, i, item), out := f.out.(requests := f.out.requests + [i]));
    forall j | j in f.w.items
      ensures QuietItem(f.w.items[j], g.w.items[j], j in f.w.mapped, IsImage(j.kind))
    {}
    forall j: ItemId
      ensures multiset(g.out.requests)[j] == multiset(f.out.requests)[j] + if j == i then 1 else 0
    {
      assert multiset(g.out.requests) == multiset(f.out.requests) + multiset{i};
    }
  }

  lemma AcquireQuiet(f: Frame, i: ItemId, u: UserId, ask: Outcome, given: set<ItemId>)
    requires ItemsOk(f.w) && AskedOnce(f, given)
    ensures Quiet(f, Acquire(f, i, u, ask).f) && AskedOnce(Acquire(f, i, u, ask).f, given)
  {
    assert Quiet(f, f);
    if f.w.counts.At(i.kind) != 0 && i in f.w.mapped && i in f.w.items {
      assert ItemOk(f.w, i);
      var item := f.w.items[i];
      if !item.acquired && item.acquireFailed {
        MarkQuiet(f, i, u, RELEASE);
        MarkAsks(f, i, u, RELEASE, given);
      } else if !item.acquired && IsImage(i.kind) {
        if ask.Gone? {
          assert item.(buffer := None) == item;
          assert f.w.items[i := item] == f.w.items;
          assert Acquire(f, i, u, ask).f == f;
        } else if ask.ok && ask.sb.Some? {
          AnswerQuiet(f, i, item.(buffer := ask.sb, acquired := true), given);
        } else {
          var failed := item.(buffer := None, acquireFailed := true);
          AnswerQuiet(f, i, failed, given);
          var g := f.(w := SetItem(f.w, i, failed), out := f.out.(requests := f.out.requests + [i]));
          MarkQuiet(g, i, u, RELEASE);
          MarkAsks(g, i, u, RELEASE, given);
          QuietTrans(f, g, MarkItem(g, i, u, RELEASE));
        }
      }
    }
  }

  lemma GetStreamQuiet(f: Frame, image: bool, s: StreamId, u: UserId, halAsk: Outcome, appAsk: Outcome,
                       roster: Roster, given: set<ItemId>)
    requires FrameOk(f, roster) && AskedOnce(f, given) && Honest(halAsk, s) && Honest(appAsk, s)
    ensures Quiet(f, GetStream(f, image, s, u, halAsk, appAsk).f)
    ensures AskedOnce(GetStream(f, image, s, u, halAsk, appAsk).f, given)
  {
    var hal := ItemId(if image then HalImage else HalMeta, s);
    AcquireQuiet(f, hal, u, halAsk, given);
    AcquireOk(f, hal, u, halAsk, roster);
    GetBufferFrame(f, hal, u, halAsk);
    var g := GetBuffer(f, hal, u, halAsk);
    SecondLookQuiet(f, g, ItemId(if image then AppImage else AppMeta, s), u, appAsk, roster, given);
  }

  lemma SecondLookQuiet(f: Frame, g: Got, i: ItemId, u: UserId, ask: Outcome, roster: Roster, given: set<ItemId>)
    requires FrameOk(g.f, roster) && Quiet(f, g.f) && AskedOnce(g.f, given)
    ensures var r := GetBuffer(g.f, i, u, ask).f; Quiet(f, r) && AskedOnce(r, given)
  {
    AcquireQuiet(g.f, i, u, ask, given);
    GetBufferFrame(g.f, i, u, ask);
    QuietTrans(f, g.f, Acquire(g.f, i, u, ask).f);
  }

  lemma QuietKeeps(f: Frame, g: Frame, roster: Roster, given: set<ItemId>)
    requires RunOk(f, roster, given) && Quiet(f, g) && FrameOk(g, roster) && AskedOnce(g, given)
    ensures RunOk(g, roster, given)
    ensures forall k | IsMeta(k) && ToldOnce(f, k) :: ToldOnce(g, k)
  {
    QuietConserves(f, g);
    QuietSeen(f.w, g.w);
    forall k | IsMeta(k) && ToldOnce(f, k)
      ensures ToldOnce(g, k)
    {
      QuietTells(f, g, k);
    }
  }

  // ---------------------------------------------------------------- steps that apply

  /** Items keep their users, buffers and acquisition; seen producers are done. */
  ghost predicate Bookkept(w: World, r: World) {
    && r.items.Keys == w.items.Keys
    && (forall i | i in w.items :: SameButBits(w.items[i], r.items[i]))
    && (SeenIsDone(w) ==> SeenIsDone(r))
  }

  lemma BookkeptAsks(f: Frame, g: Frame, given: set<ItemId>)
    requires AskedOnce(f, given) && Bookkept(f.w, g.w) && g.out.requests == f.out.requests
    ensures AskedOnce(g, given)
  {
    forall i | i in f.w.items
      ensures g.w.items[i].acquired == f.w.items[i].acquired && g.w.items[i].acquireFailed == f.w.items[i].acquireFailed
    {
      assert SameButBits(f.w.items[i], g.w.items[i]);
    }
  }

  lemma EffectBookkept(w: World, r: World, n: NodeId, ios: seq<ItemId>)
    requires Effect(w, r, n, ios)
    ensures Bookkept(w, r)
  {
    if SeenIsDone(w) {
      forall i | i in r.items && IsMeta(i.kind) && r.items[i].producersReleased && r.items[i].users.active
        ensures r.items[i].users.ProducersDone()
      {
        assert SameButBits(w.items[i], r.items[i]);
      }
    }
  }

  lemma BookkeptTrans(w: World, m: World, r: World)
    requires Bookkept(w, m) && Bookkept(m, r)
    ensures Bookkept(w, r)
  {
    forall i | i in w.items
      ensures SameButBits(w.items[i], r.items[i])
    {
      assert SameButBits(w.items[i], m.items[i]) && SameButBits(m.items[i], r.items[i]);
    }
  }

  lemma {:induction false} ReleaseDoneImagesBookkept(w: World, keys: seq<StreamId>)
    requires WorldOk(w) && KeysKnown(w, keys)
    ensures Bookkept(w, ReleaseDoneImages(w, keys))
  {
    if keys != [] {
      var front := keys[..|keys| - 1];
      assert forall s | s in front :: s in keys;
      ReleaseDoneImagesOk(w, front);
      ReleaseDoneImagesBookkept(w, front);
      var m := ReleaseDoneImages(w, front);
      var i := ItemId(HalImage, keys[|keys| - 1]);
      AllUsersReleasedEffect(m, i);
      BookkeptTrans(w, m, AllUsersReleased(m, i));
    }
  }

  /** Only node `n` can become announced, and it is news exactly if it had not been. */
  ghost predicate Announced(nodes: Nodes, after: Nodes, n: NodeId, m: Message, news: bool) {
    && after.Keys == nodes.Keys
    && (forall k | k in nodes && k != n :: Notified(after[k], m) == Notified(nodes[k], m))
    && (news <==> n in nodes && Notified(after[n], m) && !Notified(nodes[n], m))
    && (n in nodes && Notified(nodes[n], m) ==> Notified(after[n], m))
  }

  lemma AnnouncedBy(nodes: Nodes, n: NodeId, ns: NodeStatus, m: Message, news: bool)
    requires n in nodes && (news <==> Notified(ns, m) && !Notified(nodes[n], m))
    requires Notified(nodes[n], m) ==> Notified(ns, m)
    ensures Announced(nodes, nodes[n := ns], n, m, news)
  {}

  lemma RunUpdaterBookkept(f: Frame, n: NodeId, roster: Roster)
    requires FrameOk(f, roster)
    ensures Bookkept(f.w, RunUpdater(f, n).f.w)
  {
    if n in f.nodes {
      assert KnownNode(f.w, f.nodes[n]);
      UpdateNodeEffect(f.w, n, f.nodes[n]);
      EffectBookkept(f.w, UpdateNode(f.w, n, f.nodes[n]).w, n, Listed(f.nodes[n]));
    }
  }

  /** What one run of the updater does to the flags that the notices follow. */
  lemma RunUpdaterAnnounces(f: Frame, n: NodeId, roster: Roster)
    requires FrameOk(f, roster)
    ensures var r := RunUpdater(f, n);
            && Announced(f.nodes, r.f.nodes, n, ALL_OUT_META_BUFFERS_RELEASED, r.outMetaEmptied)
            && Announced(f.nodes, r.f.nodes, n, ALL_OUT_IMAGE_BUFFERS_RELEASED, r.outImageEmptied)
  {
    if n in f.nodes {
      assert KnownNode(f.w, f.nodes[n]);
      UpdateNodeEffect(f.w, n, f.nodes[n]);
      var u := UpdateNode(f.w, n, f.nodes[n]);
      AnnouncedBy(f.nodes, n, u.ns, ALL_OUT_META_BUFFERS_RELEASED, u.outMetaEmptied);
      AnnouncedBy(f.nodes, n, u.ns, ALL_OUT_IMAGE_BUFFERS_RELEASED, u.outImageEmptied);
    }
  }

  lemma AnnouncedNotices(notices: seq<Notice>, nodes: Nodes, inFlight: int, after: Nodes, left: int,
                         n: NodeId, outMeta: bool, outImage: bool, done: bool)
    requires NoticesOk(notices, nodes, inFlight)
    requires Announced(nodes, after, n, ALL_OUT_META_BUFFERS_RELEASED, outMeta)
    requires Announced(nodes, after, n, ALL_OUT_IMAGE_BUFFERS_RELEASED, outImage)
    requires 0 <= left <= inFlight && (done ==> inFlight > 0 && left == 0)
    ensures NoticesOk(notices + (Notices(n, outMeta, outImage) + if done then [FrameReleased] else []), after, left)
  {
    var more := Notices(n, outMeta, outImage) + if done then [FrameReleased] else [];
    var metas := if outMeta then [NodeNotice(n, ALL_OUT_META_BUFFERS_RELEASED)] else [];
    var images := if outImage then [NodeNotice(n, ALL_OUT_IMAGE_BUFFERS_RELEASED)] else [];
    assert multiset(notices + more) == multiset(notices) + multiset(more);
    assert multiset(more) == multiset(metas) + multiset(images) + if done then multiset{FrameReleased} else multiset{};
    forall k, m
      ensures multiset(notices + more)[NodeNotice(k, m)] == if k in after && Notified(after[k], m) then 1 else 0
    {
      assert multiset(notices)[NodeNotice(k, m)] == if k in nodes && Notified(nodes[k], m) then 1 else 0;
      if m == ALL_OUT_META_BUFFERS_RELEASED {
        assert multiset(images)[NodeNotice(k, m)] == 0;
      } else {
        assert multiset(metas)[NodeNotice(k, m)] == 0;
      }
    }
  }

  lemma DrainedBookkept(w: World)
    ensures Bookkept(w, w.(collector := w.collector.Drained()))
  {}

  lemma ApplyReleaseBookkept(f: Frame, n: NodeId, realTime: bool, alive: Alive, roster: Roster)
    requires FrameOk(f, roster)
    ensures Bookkept(f.w, ApplyRelease(f, n, realTime, alive).w)
  {
    UpdateKeepsKeys(f, n);
    UpdateForReleaseOk(f, n, roster);
    var r := UpdateForRelease(f, n).f;
    assert Bookkept(f.w, r.w) by {
      RunUpdaterBookkept(f, n, roster);
    }
    AiawbBookkept(r, n, roster);
    BookkeptTrans(f.w, r.w, AiawbRelease(r, n).w.(collector := AiawbRelease(r, n).w.collector.Drained()));
  }

  lemma AiawbBookkept(r: Frame, n: NodeId, roster: Roster)
    requires FrameOk(r, roster)
    ensures var a := AiawbRelease(r, n); Bookkept(r.w, a.w.(collector := a.w.collector.Drained()))
  {
    var a := AiawbRelease(r, n);
    assert Bookkept(r.w, a.w) by {
      ReleaseDoneImagesBookkept(r.w, r.w.halKeys);
    }
    DrainedBookkept(a.w);
    BookkeptTrans(r.w, a.w, a.w.(collector := a.w.collector.Drained()));
  }

  lemma ApplyReleaseSays(f: Frame, n: NodeId, realTime: bool, alive: Alive)
    requires Closed(f) && KeysKnown(f.w, f.w.halKeys)
    ensures var g, r := ApplyRelease(f, n, realTime, alive), UpdateForRelease(f, n);
            && g.out.notices == f.out.notices + Notices(n, r.outMetaEmptied, r.outImageEmptied)
            && g.nodes == r.f.nodes && g.inFlight == r.f.inFlight
  {
    UpdateKeepsKeys(f, n);
    assert RunUpdater(f, n).f.out == f.out;
  }

  lemma ApplyReleaseNotices(f: Frame, n: NodeId, realTime: bool, alive: Alive, roster: Roster)
    requires FrameOk(f, roster) && NoticesOk(f.out.notices, f.nodes, f.inFlight)
    ensures var g := ApplyRelease(f, n, realTime, alive); NoticesOk(g.out.notices, g.nodes, g.inFlight)
  {
    ApplyReleaseSays(f, n, realTime, alive);
    if f.preApplied {
      assert f.out.notices + Notices(n, false, false) == f.out.notices;
    } else {
      RunUpdaterOk(f, n, roster);
      RunUpdaterAnnounces(f, n, roster);
      var r := RunUpdater(f, n);
      AnnouncedNotices(f.out.notices, f.nodes, f.inFlight, r.f.nodes, r.f.inFlight,
                       n, r.outMetaEmptied, r.outImageEmptied, false);
      assert Notices(n, r.outMetaEmptied, r.outImageEmptied) + [] == Notices(n, r.outMetaEmptied, r.outImageEmptied);
    }
  }

  lemma ApplyReleaseRun(f: Frame, n: NodeId, realTime: bool, alive: Alive, roster: Roster, given: set<ItemId>)
    requires RunOk(f, roster, given)
    ensures RunOk(ApplyRelease(f, n, realTime, alive), roster, given)
  {
    ApplyReleaseOk(f, n, realTime, alive, roster);
    ApplyReleaseConserves(f, n, realTime, alive, roster);
    ApplyReleaseBookkept(f, n, realTime, alive, roster);
    ApplyReleaseNotices(f, n, realTime, alive, roster);
    BookkeptAsks(f, ApplyRelease(f, n, realTime, alive), given);
  }

  lemma ApplyPreReleaseNotices(f: Frame, n: NodeId, alive: Alive, roster: Roster)
    requires FrameOk(f, roster) && NoticesOk(f.out.notices, f.nodes, f.inFlight)
    ensures var g := ApplyPreRelease(f, n, alive); NoticesOk(g.out.notices, g.nodes, g.inFlight)
  {
    RunUpdaterOk(f, n, roster);
    RunUpdaterAnnounces(f, n, roster);
    var r := RunUpdater(f, n);
    AnnouncedNotices(f.out.notices, f.nodes, f.inFlight, r.f.nodes, r.f.inFlight,
                     n, r.outMetaEmptied, r.outImageEmptied, r.emptied && r.f.inFlight == 0);
  }

  lemma ApplyPreReleaseRun(f: Frame, n: NodeId, alive: Alive, roster: Roster, given: set<ItemId>)
    requires RunOk(f, roster, given)
    ensures RunOk(ApplyPreRelease(f, n, alive), roster, given)
  {
    ApplyPreReleaseOk(f, n, alive, roster);
    ApplyPreReleaseConserves(f, n, alive, roster);
    ApplyPreReleaseNotices(f, n, alive, roster);
    PreReleaseBookkept(f, n, alive, roster);
    BookkeptAsks(f, ApplyPreRelease(f, n, alive), given);
  }

  // ---------------------------------------------------------------- the other steps

  /** Forgetting the users of images and adding consumers to them leaves metas and buffers alone. */
  lemma ImageUsersKeep(f: Frame, g: Frame, roster: Roster, given: set<ItemId>)
    requires RunOk(f, roster, given) && FrameOk(g, roster) && Conserved(g)
    requires g.w.collector == f.w.collector && g.nodes == f.nodes && g.inFlight == f.inFlight
    requires g.out.requests == f.out.requests && g.out.notices == f.out.notices && g.out.updates == f.out.updates
    requires g.w.items.Keys == f.w.items.Keys
    requires forall i | i in f.w.items :: g.w.items[i] == f.w.items[i].(users := g.w.items[i].users) &&
                                          (IsMeta(i.kind) ==> g.w.items[i] == f.w.items[i])
    ensures RunOk(g, roster, given)
    ensures forall k | IsMeta(k) && ToldOnce(f, k) :: ToldOnce(g, k)
  {
    forall i: ItemId
      ensures multiset(g.out.requests)[i] ==
        if i in g.w.items && IsImage(i.kind) && i !in given && (g.w.items[i].acquired || g.w.items[i].acquireFailed)
        then 1 else 0
    {
      assert multiset(f.out.requests)[i] ==
        if i in f.w.items && IsImage(i.kind) && i !in given && (f.w.items[i].acquired || f.w.items[i].acquireFailed)
        then 1 else 0;
    }
    forall k | IsMeta(k) && ToldOnce(f, k)
      ensures ToldOnce(g, k)
    {
      forall b: Buffer
        ensures Told(g.out.updates, k)[b] == if Seen(g.w, k, b) then 1 else 0
      {
        assert Told(f.out.updates, k)[b] == if Seen(f.w, k, b) then 1 else 0;
      }
    }
  }

  lemma MarkItemRun(f: Frame, i: ItemId, u: UserId, s: Status, roster: Roster, given: set<ItemId>)
    requires RunOk(f, roster, given) && i in f.w.items
    ensures var g := MarkItem(f, i, u, s);
            RunOk(g, roster, given) && (forall k | IsMeta(k) && ToldOnce(f, k) :: ToldOnce(g, k))
  {
    MarkQuiet(f, i, u, s);
    MarkAsks(f, i, u, s, given);
    MarkItemOk(f, i, u, s, roster);
    QuietKeeps(f, MarkItem(f, i, u, s), roster, given);
  }

  lemma GetStreamRun(f: Frame, image: bool, s: StreamId, u: UserId, halAsk: Outcome, appAsk: Outcome,
                     roster: Roster, given: set<ItemId>)
    requires RunOk(f, roster, given) && Honest(halAsk, s) && Honest(appAsk, s)
    ensures var g := GetStream(f, image, s, u, halAsk, appAsk).f;
            RunOk(g, roster, given) && (forall k | IsMeta(k) && ToldOnce(f, k) :: ToldOnce(g, k))
  {
    GetStreamQuiet(f, image, s, u, halAsk, appAsk, roster, given);
    GetStreamOk(f, image, s, u, halAsk, appAsk, roster);
    QuietKeeps(f, GetStream(f, image, s, u, halAsk, appAsk).f, roster, given);
  }

  lemma TransferRun(f: Frame, roster: Roster, given: set<ItemId>)
    requires RunOk(f, roster, given)
    ensures var g := TransferImages(f);
            RunOk(g, roster, given) && (forall k | IsMeta(k) && ToldOnce(f, k) :: ToldOnce(g, k))
  {
    TransferOk(f, roster);
    TransferConserves(f);
    ResetUsersEffect(f.w.items, f.pendingImage.buffers);
    ImageUsersKeep(f, TransferImages(f), roster, given);
  }

  lemma AddConsumerRun(f: Frame, i: ItemId, u: UserId, roster: Roster, given: set<ItemId>)
    requires RunOk(f, roster, given) && i in f.w.items && IsImage(i.kind)
    ensures var g := Next(f, AddConsumer(i, u));
            RunOk(g, roster, given) && (forall k | IsMeta(k) && ToldOnce(f, k) :: ToldOnce(g, k))
  {
    var g := Next(f, AddConsumer(i, u));
    AddConsumerOk(f, i, u, roster);
    assert Elsewhere(g) == Elsewhere(f);
    ConservedSame(f.w, g.w, Elsewhere(f));
    ImageUsersKeep(f, g, roster, given);
  }

  lemma KeepRun(f: Frame, step: Step, roster: Roster, given: set<ItemId>)
    requires RunOk(f, roster, given) && step.Keep?
    ensures var g := Next(f, step);
            RunOk(g, roster, given) && (forall k | IsMeta(k) && ToldOnce(f, k) :: ToldOnce(g, k))
  {
    var g := Next(f, step);
    assert Elsewhere(g) == Elsewhere(f);
    ImageUsersKeep(f, g, roster, given);
  }

  /** The application callback can be reached whenever the step reports. */
  predicate Heard(step: Step) {
    (step.Release? || step.PreRelease?) ==> step.alive.appCallback
  }

  /** Every step keeps the invariant of runs, and a step whose report is heard tells each buffer once. */
  lemma NextRun(f: Frame, step: Step, roster: Roster, given: set<ItemId>)
    requires RunOk(f, roster, given) && Allowed(f, step)
    ensures RunOk(Next(f, step), roster, given)
    ensures forall k | Heard(step) && IsMeta(k) && ToldOnce(f, k) :: ToldOnce(Next(f, step), k)
  {
    match step
    case Mark(s, u, status) =>
      var i := FindItem(f.w, s);
      if i.Some? && i.value in f.w.mapped && i.value in f.w.items {
        MarkItemRun(f, i.value, u, status, roster, given);
      }
    case Get(image, s, u, halAsk, appAsk) => GetStreamRun(f, image, s, u, halAsk, appAsk, roster, given);
    case MarkBuffer(i, u, status) => MarkItemRun(f, i, u, status, roster, given);
    case Release(n, realTime, alive) =>
      ApplyReleaseRun(f, n, realTime, alive, roster, given);
      forall k | Heard(step) && IsMeta(k) && ToldOnce(f, k)
        ensures ToldOnce(Next(f, step), k)
      {
        ApplyReleaseReports(f, n, realTime, alive, roster, k);
      }
    case PreRelease(n, alive) =>
      ApplyPreReleaseRun(f, n, alive, roster, given);
      forall k | Heard(step) && IsMeta(k) && ToldOnce(f, k)
        ensures ToldOnce(Next(f, step), k)
      {
        ApplyPreReleaseReports(f, n, alive, roster, k);
      }
    case Transfer => TransferRun(f, roster, given);
    case AddConsumer(i, u) => AddConsumerRun(f, i, u, roster, given);
    case Keep(_, _, _, _, _) => KeepRun(f, step, roster, given);
  }

  // ---------------------------------------------------------------- runs

  /** `states` is what a frame goes through when it takes `steps`. */
  ghost predicate IsRun(states: seq<Frame>, steps: seq<Step>) {
    && |states| == |steps| + 1
    && forall k | 0 <= k < |steps| ::
         && Closed(states[k]) && KeysKnown(states[k].w, states[k].w.halKeys) && Allowed(states[k], steps[k])
         && states[k + 1] == Next(states[k], steps[k])
  }

  lemma {:induction false} RunKeeps(states: seq<Frame>, steps: seq<Step>, roster: Roster, given: set<ItemId>, k: nat)
    requires IsRun(states, steps) && RunOk(states[0], roster, given) && k <= |steps|
    ensures RunOk(states[k], roster, given)
  {
    if k > 0 {
      RunKeeps(states, steps, roster, given, k - 1);
      NextRun(states[k - 1], steps[k - 1], roster, given);
    }
  }

  /** If every report is heard, the application has been told of every produced meta buffer whose producers an
      apply has seen to be done, exactly once each over the whole run, and of no other buffer. */
  lemma {:induction false} RunTellsOnce(states: seq<Frame>, steps: seq<Step>, roster: Roster, given: set<ItemId>,
                                        kind: Kind, k: nat)
    requires IsRun(states, steps) && RunOk(states[0], roster, given) && k <= |steps|
    requires IsMeta(kind) && ToldOnce(states[0], kind) && forall s | s in steps :: Heard(s)
    ensures ToldOnce(states[k], kind)
  {
    if k > 0 {
      RunTellsOnce(states, steps, roster, given, kind, k - 1);
      RunKeeps(states, steps, roster, given, k - 1);
      assert steps[k - 1] in steps;
      NextRun(states[k - 1], steps[k - 1], roster, given);
    }
  }

  // ---------------------------------------------------------------- every callback of a run

  /** The step reports to the application. */
  predicate Calls(f: Frame, step: Step) {
    match step
    case Release(_, _, alive) => !f.preApplied && alive.appCallback
    case PreRelease(_, alive) => alive.appCallback
    case _ => false
  }

  function Caller(step: Step): NodeId {
    if step.Release? || step.PreRelease? then step.node else 0
  }

  /** Only a release can be of a real-time frame. */
  predicate IsRealTime(step: Step) {
    step.Release? && step.realTime
  }

  /** A step makes one callback that is in order, or none. */
  lemma NextTells(f: Frame, step: Step, roster: Roster, given: set<ItemId>)
    requires RunOk(f, roster, given) && Allowed(f, step)
    ensures var g := Next(f, step);
            Tells(f.out.updates, g.out.updates, Calls(f, step), Caller(step), IsRealTime(step), f.w, g.w)
  {
    match step
    case Get(image, s, u, halAsk, appAsk) => GetStreamQuiet(f, image, s, u, halAsk, appAsk, roster, given);
    case Release(n, realTime, alive) => ApplyReleaseUpdateOk(f, n, realTime, alive, roster);
    case PreRelease(n, alive) => ApplyPreReleaseUpdateOk(f, n, alive, roster);
    case _ =>
  }

  /** Callback number `j` was made by step `m` and is in order for the items before and after that step. */
  ghost predicate MadeBy(states: seq<Frame>, steps: seq<Step>, m: nat, j: nat, u: Update)
    requires m < |steps| && |states| == |steps| + 1
  {
    && Calls(states[m], steps[m]) && j == |states[m].out.updates|
    && UpdateOk(u, Caller(steps[m]), IsRealTime(steps[m]), states[m].w, states[m + 1].w)
  }

  /** Some step before `k` made it. */
  ghost predicate Made(states: seq<Frame>, steps: seq<Step>, k: nat, j: nat, u: Update)
    requires k <= |steps| && |states| == |steps| + 1
  {
    exists m :: 0 <= m < k && MadeBy(states, steps, m, j, u)
  }

  lemma MadeLater(states: seq<Frame>, steps: seq<Step>, k: nat, j: nat, u: Update)
    requires k < |steps| && |states| == |steps| + 1 && Made(states, steps, k, j, u)
    ensures Made(states, steps, k + 1, j, u)
  {
    var m :| 0 <= m < k && MadeBy(states, steps, m, j, u);
    assert 0 <= m < k + 1 && MadeBy(states, steps, m, j, u);
  }

  /** Every callback of every run comes from one apply of the run: it holds the buffers that this apply is the first
      to see done, the same per node as in the flat lists, and the number of streams that are still outstanding after
      the apply, for both kinds. */
  lemma {:induction false} EveryUpdateOk(states: seq<Frame>, steps: seq<Step>, roster: Roster, given: set<ItemId>,
                                         k: nat, j: nat)
    requires IsRun(states, steps) && RunOk(states[0], roster, given) && k <= |steps|
    requires |states[0].out.updates| <= j < |states[k].out.updates|
    ensures Made(states, steps, k, j, states[k].out.updates[j])
  {
    if k > 0 {
      if j < |states[k - 1].out.updates| {
        EveryUpdateOk(states, steps, roster, given, k - 1, j);
      }
      StepMakes(states, steps, roster, given, k - 1, j);
    }
  }

  lemma StepMakes(states: seq<Frame>, steps: seq<Step>, roster: Roster, given: set<ItemId>, k: nat, j: nat)
    requires IsRun(states, steps) && RunOk(states[0], roster, given) && k < |steps|
    requires j < |states[k + 1].out.updates|
    requires j < |states[k].out.updates| ==> Made(states, steps, k, j, states[k].out.updates[j])
    ensures Made(states, steps, k + 1, j, states[k + 1].out.updates[j])
  {
    StepTells(states, steps, roster, given, k);
    var before, after := states[k].out.updates, states[k + 1].out.updates;
    if j < |before| {
      assert after[j] == before[j];
      MadeLater(states, steps, k, j, before[j]);
    } else {
      assert MadeBy(states, steps, k, j, after[j]);
    }
  }

  lemma StepTells(states: seq<Frame>, steps: seq<Step>, roster: Roster, given: set<ItemId>, k: nat)
    requires IsRun(states, steps) && RunOk(states[0], roster, given) && k < |steps|
    ensures Tells(states[k].out.updates, states[k + 1].out.updates, Calls(states[k], steps[k]), Caller(steps[k]),
                  IsRealTime(steps[k]), states[k].w, states[k + 1].w)
    ensures states[k].out.updates <= states[k + 1].out.updates
  {
    RunKeeps(states, steps, roster, given, k);
    NextTells(states[k], steps[k], roster, given);
  }

  // ---------------------------------------------------------------- what stays with an item

  /** A buffer stays with its item for good, and metas keep their producers. */
  ghost predicate Stays(w: World, r: World) {
    && r.items.Keys == w.items.Keys
    && (forall i | i in w.items && w.items[i].buffer.Some? :: r.items[i].buffer == w.items[i].buffer)
    && (forall i | i in w.items && IsMeta(i.kind) ::
          r.items[i].buffer == w.items[i].buffer && Produced(r.items[i]) == Produced(w.items[i]))
  }

  lemma QuietStays(w: World, r: World)
    requires QuietWorld(w, r)
    ensures Stays(w, r)
  {
    forall i | i in w.items
      ensures w.items[i].buffer.Some? ==> r.items[i].buffer == w.items[i].buffer
      ensures IsMeta(i.kind) ==>
                r.items[i].buffer == w.items[i].buffer && Produced(r.items[i]) == Produced(w.items[i])
    {
      assert QuietItem(w.items[i], r.items[i], i in w.mapped, IsImage(i.kind));
    }
  }

  lemma BookkeptStays(w: World, r: World)
    requires Bookkept(w, r)
    ensures Stays(w, r)
  {
    forall i | i in w.items
      ensures r.items[i].buffer == w.items[i].buffer && r.items[i].users == w.items[i].users
    {
      assert SameButBits(w.items[i], r.items[i]);
    }
  }

  lemma PreReleaseBookkept(f: Frame, n: NodeId, alive: Alive, roster: Roster)
    requires FrameOk(f, roster)
    ensures Bookkept(f.w, ApplyPreRelease(f, n, alive).w)
  {
    RunUpdaterBookkept(f, n, roster);
    var r := RunUpdater(f, n).f;
    DrainedBookkept(r.w);
    BookkeptTrans(f.w, r.w, r.w.(collector := r.w.collector.Drained()));
  }

  lemma NextStays(f: Frame, step: Step, roster: Roster, given: set<ItemId>)
    requires RunOk(f, roster, given) && Allowed(f, step)
    ensures Stays(f.w, Next(f, step).w)
  {
    match step
    case Mark(s, u, status) =>
      var i := FindItem(f.w, s);
      if i.Some? && i.value in f.w.mapped && i.value in f.w.items {
        MarkQuiet(f, i.value, u, status);
        QuietStays(f.w, MarkItem(f, i.value, u, status).w);
      }
    case Get(image, s, u, halAsk, appAsk) =>
      GetStreamQuiet(f, image, s, u, halAsk, appAsk, roster, given);
      QuietStays(f.w, GetStream(f, image, s, u, halAsk, appAsk).f.w);
    case MarkBuffer(i, u, status) =>
      MarkQuiet(f, i, u, status);
      QuietStays(f.w, MarkItem(f, i, u, status).w);
    case Release(n, realTime, alive) =>
      ApplyReleaseBookkept(f, n, realTime, alive, roster);
      BookkeptStays(f.w, ApplyRelease(f, n, realTime, alive).w);
    case PreRelease(n, alive) =>
      PreReleaseBookkept(f, n, alive, roster);
      BookkeptStays(f.w, ApplyPreRelease(f, n, alive).w);
    case Transfer => ResetUsersEffect(f.w.items, f.pendingImage.buffers);
    case AddConsumer(i, u) =>
    case Keep(_, _, _, _, _) =>
  }

  lemma StaysTrans(w: World, m: World, r: World)
    requires Stays(w, m) && Stays(m, r)
    ensures Stays(w, r)
  {}

  lemma {:induction false} RunStays(states: seq<Frame>, steps: seq<Step>, roster: Roster, given: set<ItemId>,
                                    j: nat, k: nat)
    requires IsRun(states, steps) && RunOk(states[0], roster, given) && j <= k <= |steps|
    ensures Stays(states[j].w, states[k].w)
  {
    if j < k {
      RunStays(states, steps, roster, given, j, k - 1);
      StepStays(states, steps, roster, given, states[j].w, k - 1);
    } else {
      SameStays(states[j].w);
    }
  }

  lemma SameStays(w: World)
    ensures Stays(w, w)
  {}

  lemma StepStays(states: seq<Frame>, steps: seq<Step>, roster: Roster, given: set<ItemId>, w: World, k: nat)
    requires IsRun(states, steps) && RunOk(states[0], roster, given) && k < |steps| && Stays(w, states[k].w)
    ensures Stays(w, states[k + 1].w)
  {
    RunKeeps(states, steps, roster, given, k);
    NextStays(states[k], steps[k], roster, given);
    StaysTrans(w, states[k].w, states[k + 1].w);
  }
}

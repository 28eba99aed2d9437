/** Where the Hal image buffers of a frame are: in their map, or in exactly one place outside it. */
module Conservation {
  import opened Users
  import opened Wrappers
  import opened FrameModel
  import opened WorldFacts
  import opened FrameInvariant

  /** The item that has this Hal image buffer is no longer mapped. */
  ghost predicate Freed(w: World, b: Buffer) {
    var i := ItemId(HalImage, b.stream);
    i in w.items && w.items[i].buffer == Some(b) && i !in w.mapped
  }

  /** The item that has this Hal image buffer is still mapped. */
  ghost predicate Held(w: World, b: Buffer) {
    var i := ItemId(HalImage, b.stream);
    i in w.items && w.items[i].buffer == Some(b) && i in w.mapped
  }

  /** All images handed to the result processor; the null entries of the lists are not buffers. */
  ghost function ImagesSent(sent: seq<Sent>): multiset<Buffer> {
    if sent == [] then multiset{}
    else ImagesSent(sent[..|sent| - 1]) + multiset(Somes(sent[|sent| - 1].images))
  }

  /** Every place a Hal image can be in once it has left the collector. */
  ghost function Elsewhere(f: Frame): multiset<Buffer> {
    multiset(f.pendingImage.buffers) + ImagesSent(f.out.sent) + multiset(f.out.transferred)
    + multiset(f.out.dropped) + multiset(f.out.lost)
  }

  ghost predicate ConservedIn(w: World, gone: multiset<Buffer>) {
    forall b: Buffer :: (multiset(w.collector.halImages) + gone)[b] == if Freed(w, b) then 1 else 0
  }

  /** A Hal image that left its map is in exactly one place outside it, and nothing else is in any of them. */
  ghost predicate Conserved(f: Frame) {
    ConservedIn(f.w, Elsewhere(f))
  }

  // ---------------------------------------------------------------- moving between places

  lemma ImagesSentAppend(sent: seq<Sent>, s: Sent)
    ensures ImagesSent(sent + [s]) == ImagesSent(sent) + multiset(Somes(s.images))
  {
    assert (sent + [s])[..|sent|] == sent;
  }

  lemma SomesAppend(list: seq<Option<Buffer>>, o: Option<Buffer>)
    ensures Somes(list + [o]) == Somes(list) + if o.Some? then [o.value] else []
  {
    assert (list + [o])[..|list|] == list;
  }

  lemma {:induction false} SomesWrap(list: seq<Buffer>)
    ensures Somes(Wrap(list)) == list
  {
    if list != [] {
      var front := list[..|list| - 1];
      assert Wrap(list)[..|list| - 1] == Wrap(front);
      SomesWrap(front);
    }
  }

  function Count(list: seq<Buffer>, b: Buffer): nat {
    multiset(list)[b]
  }

  lemma CountAppend(list: seq<Buffer>, more: seq<Buffer>, b: Buffer)
    ensures Count(list + more, b) == Count(list, b) + Count(more, b)
  {}

  function CountOne(o: Option<Buffer>, b: Buffer): nat {
    if o == Some(b) then 1 else 0
  }

  lemma CountPlusOne(list: seq<Buffer>, x: Buffer, b: Buffer)
    ensures Count(list + [x], b) == Count(list, b) + CountOne(Some(x), b)
  {}

  lemma CountSomesPlusOne(list: seq<Option<Buffer>>, o: Option<Buffer>, b: Buffer)
    ensures Count(Somes(list + [o]), b) == Count(Somes(list), b) + CountOne(o, b)
  {
    SomesAppend(list, o);
    if o.Some? {
      CountPlusOne(Somes(list), o.value, b);
    } else {
      assert Somes(list) + [] == Somes(list);
    }
  }

  lemma CountSomesLast(list: seq<Option<Buffer>>, b: Buffer)
    requires list != []
    ensures Count(Somes(list), b) == Count(Somes(list[..|list| - 1]), b) + CountOne(list[|list| - 1], b)
  {
    var before, last := Somes(list[..|list| - 1]), list[|list| - 1];
    assert Somes(list) == before + if last.Some? then [last.value] else [];
    if last.Some? {
      CountPlusOne(before, last.value, b);
    } else {
      assert before + [] == before;
    }
  }

  function Kept(r: KeepResult, b: Buffer): nat {
    Count(Somes(r.list), b) + Count(r.pending.buffers, b)
  }

  lemma KeepOneMoves(r: KeepResult, o: Option<Buffer>, b: Buffer)
    ensures Kept(KeepResult(r.list + [o], r.pending), b) == Kept(r, b) + CountOne(o, b)
    ensures o.Some? ==>
              Kept(KeepResult(r.list + [None], r.pending.(buffers := r.pending.buffers + [o.value])), b)
              == Kept(r, b) + CountOne(o, b)
  {
    CountSomesPlusOne(r.list, o, b);
    if o.Some? {
      CountSomesPlusOne(r.list, None, b);
      CountPlusOne(r.pending.buffers, o.value, b);
    }
  }

  /** Keeping target buffers leaves null entries behind; no buffer is duplicated or forgotten. */
  lemma {:induction false} KeepTargetsMoves(list: seq<Option<Buffer>>, p: Pending, b: Buffer)
    ensures Kept(KeepTargets(list, p), b) == Count(Somes(list), b) + Count(p.buffers, b)
  {
    if list != [] {
      var front := list[..|list| - 1];
      KeepTargetsMoves(front, p, b);
      KeepOneMoves(KeepTargets(front, p), list[|list| - 1], b);
      CountSomesLast(list, b);
    }
  }

  lemma TryKeepMoves(list: seq<Option<Buffer>>, p: Pending, b: Buffer)
    ensures var r := TryKeep(list, p);
            Count(Somes(r.list), b) + Count(r.pending.buffers, b) == Count(Somes(list), b) + Count(p.buffers, b)
  {
    KeepTargetsMoves(list, p, b);
    CountAppend(p.buffers, Somes(list), b);
  }

  /** The pending set is to get the buffer: it keeps everything, or the streams it is set to. */
  predicate Wanted(p: Pending, b: Buffer) {
    p.keep && (p.target == {} || b.stream in p.target)
  }

  /** The buffers of a list that are wanted, or that are not, in order. */
  function Picked(list: seq<Buffer>, p: Pending, wanted: bool): seq<Buffer> {
    if list == [] then []
    else Picked(list[..|list| - 1], p, wanted) +
         if Wanted(p, list[|list| - 1]) == wanted then [list[|list| - 1]] else []
  }

  lemma {:induction false} PickedMembers(list: seq<Buffer>, p: Pending, wanted: bool, b: Buffer)
    ensures Count(Picked(list, p, wanted), b) == if Wanted(p, b) == wanted then Count(list, b) else 0
  {
    if list != [] {
      var front, last := list[..|list| - 1], list[|list| - 1];
      PickedMembers(front, p, wanted, b);
      assert list == front + [last];
      CountPlusOne(front, last, b);
      if Wanted(p, last) == wanted {
        CountPlusOne(Picked(front, p, wanted), last, b);
      } else {
        assert Picked(front, p, wanted) + [] == Picked(front, p, wanted);
      }
    }
  }

  lemma {:induction false} PickedAll(list: seq<Buffer>, p: Pending, wanted: bool)
    requires forall b :: Wanted(p, b) == wanted
    ensures Picked(list, p, wanted) == list && Picked(list, p, !wanted) == []
  {
    if list != [] {
      PickedAll(list[..|list| - 1], p, wanted);
    }
  }

  /** An entry that is kept leaves null behind, and every other entry stays. */
  predicate NullsTargets(list: seq<Option<Buffer>>, p: Pending, left: seq<Option<Buffer>>) {
    && |left| == |list|
    && forall k | 0 <= k < |list| ::
         left[k] == if list[k].Some? && list[k].value.stream in p.target then None else list[k]
  }

  lemma PickedNext(list: seq<Option<Buffer>>, p: Pending, wanted: bool)
    requires list != []
    ensures var front, last := Picked(Somes(list[..|list| - 1]), p, wanted), list[|list| - 1];
            Picked(Somes(list), p, wanted) == front + if last.Some? && Wanted(p, last.value) == wanted then [last.value] else []
  {
    var before, last := Somes(list[..|list| - 1]), list[|list| - 1];
    if last.Some? {
      assert (before + [last.value])[..|before|] == before;
    } else {
      assert before + [] == before;
    }
  }

  lemma NullsNext(list: seq<Option<Buffer>>, p: Pending, left: seq<Option<Buffer>>, o: Option<Buffer>)
    requires list != [] && NullsTargets(list[..|list| - 1], p, left)
    requires o == if list[|list| - 1].Some? && list[|list| - 1].value.stream in p.target then None else list[|list| - 1]
    ensures NullsTargets(list, p, left + [o])
  {
    var front := list[..|list| - 1];
    forall k | 0 <= k < |list|
      ensures (left + [o])[k] == if list[k].Some? && list[k].value.stream in p.target then None else list[k]
    {
      if k < |front| {
        assert front[k] == list[k] && (left + [o])[k] == left[k];
      }
    }
  }

  lemma {:induction false} KeepTargetsNulls(list: seq<Option<Buffer>>, p: Pending)
    ensures NullsTargets(list, p, KeepTargets(list, p).list)
  {
    if list != [] {
      var front, last := list[..|list| - 1], list[|list| - 1];
      KeepTargetsNulls(front, p);
      NullsNext(list, p, KeepTargets(front, p).list, if last.Some? && last.value.stream in p.target then None else last);
    }
  }

  lemma {:induction false} KeepTargetsPends(list: seq<Option<Buffer>>, p: Pending)
    requires p.keep && p.target != {}
    ensures KeepTargets(list, p).pending == p.(buffers := p.buffers + Picked(Somes(list), p, true))
  {
    if list == [] {
      assert p.buffers + [] == p.buffers;
    } else {
      var front, last := list[..|list| - 1], list[|list| - 1];
      KeepTargetsPends(front, p);
      PickedNext(list, p, true);
      var picked := Picked(Somes(front), p, true);
      if last.Some? && last.value.stream in p.target {
        assert (p.buffers + picked) + [last.value] == p.buffers + (picked + [last.value]);
      } else {
        assert picked + [] == picked;
      }
    }
  }

  lemma {:induction false} KeepTargetsLeaves(list: seq<Option<Buffer>>, p: Pending)
    requires p.keep && p.target != {}
    ensures Somes(KeepTargets(list, p).list) == Picked(Somes(list), p, false)
  {
    if list != [] {
      var front, last := list[..|list| - 1], list[|list| - 1];
      KeepTargetsLeaves(front, p);
      PickedNext(list, p, false);
      SomesAppend(KeepTargets(front, p).list, if last.Some? && last.value.stream in p.target then None else last);
    }
  }

  /** What tryKeepPendingReleaseBuffers does: without keeping, nothing; keeping without a target empties the list; with
      one, each entry of a target stream becomes null and the others stay. The pending set grows by exactly the wanted
      buffers and the list is left with exactly the others, both in order. */
  lemma TryKeepExact(list: seq<Option<Buffer>>, p: Pending)
    ensures var r := TryKeep(list, p);
            && (!p.keep ==> r.list == list)
            && (p.keep && p.target == {} ==> r.list == [])
            && (p.keep && p.target != {} ==> NullsTargets(list, p, r.list))
            && r.pending == p.(buffers := p.buffers + Picked(Somes(list), p, true))
            && Somes(r.list) == Picked(Somes(list), p, false)
  {
    if p.keep && p.target != {} {
      KeepTargetsNulls(list, p);
      KeepTargetsPends(list, p);
      KeepTargetsLeaves(list, p);
    } else {
      PickedAll(Somes(list), p, p.keep);
      assert p.buffers + [] == p.buffers;
    }
  }

  lemma ReturnResultMoves(out: Outbox, processor: bool, images: seq<Option<Buffer>>,
                          halMetas: seq<Option<Buffer>>, appMetas: seq<Option<Buffer>>, destroyed: bool, b: Buffer)
    ensures var r := ReturnResult(out, processor, images, halMetas, appMetas, destroyed);
            && ImagesSent(r.sent)[b] + Count(r.lost, b)
               == ImagesSent(out.sent)[b] + Count(out.lost, b) + Count(Somes(images), b)
            && r.transferred == out.transferred && r.dropped == out.dropped
            && (processor ==> r.lost == out.lost)
  {
    ImagesSentAppend(out.sent, Sent(images, Somes(halMetas), Somes(appMetas), destroyed));
    CountAppend(out.lost, Somes(images), b);
  }

  lemma ElsewhereCount(f: Frame, b: Buffer)
    ensures Elsewhere(f)[b] == Count(f.pendingImage.buffers, b) + ImagesSent(f.out.sent)[b]
                          + Count(f.out.transferred, b) + Count(f.out.dropped, b) + Count(f.out.lost, b)
  {}

  lemma ConservedAt(f: Frame, b: Buffer)
    requires Conserved(f)
    ensures Count(f.w.collector.halImages, b) + Elsewhere(f)[b] == if Freed(f.w, b) then 1 else 0
  {
    assert (multiset(f.w.collector.halImages) + Elsewhere(f))[b] == if Freed(f.w, b) then 1 else 0;
  }

  /** handleReleasedBuffers moves the collected images, all of them, to the pending set or to the processor. */
  lemma HandleReleasedMoves(f: Frame, user: NodeId, callback: bool, realTime: bool, processor: bool, b: Buffer)
    ensures var g := HandleReleased(f, user, callback, realTime, processor);
            Elsewhere(g)[b] == Count(f.w.collector.halImages, b) + Elsewhere(f)[b]
  {
    var g := HandleReleased(f, user, callback, realTime, processor);
    var c := f.w.collector;
    var app := TryKeep(Wrap(c.appMetasO), f.pendingAppMeta);
    var image := TryKeep(Wrap(c.halImages), f.pendingImage);
    var hal := TryKeep(Wrap(c.halMetas), f.pendingHalMeta);
    TryKeepMoves(Wrap(c.halImages), f.pendingImage, b);
    SomesWrap(c.halImages);
    ReturnResultMoves(Report(f.out, c, user, callback, realTime), processor,
                      image.list, hal.list, app.list, false, b);
    ElsewhereCount(f, b);
    ElsewhereCount(g, b);
  }

  lemma HandleReleasedConserves(f: Frame, user: NodeId, callback: bool, realTime: bool, processor: bool)
    requires Conserved(f)
    ensures Conserved(HandleReleased(f, user, callback, realTime, processor))
  {
    var g := HandleReleased(f, user, callback, realTime, processor);
    forall b: Buffer
      ensures (multiset(g.w.collector.halImages) + Elsewhere(g))[b] == if Freed(g.w, b) then 1 else 0
    {
      ConservedAt(f, b);
      HandleReleasedMoves(f, user, callback, realTime, processor, b);
    }
  }

  // ---------------------------------------------------------------- visits

  /** Nothing left a map, and the buffers of unmapped items are as before. */
  lemma ConservedSame(w: World, r: World, gone: multiset<Buffer>)
    requires ConservedIn(w, gone)
    requires r.collector.halImages == w.collector.halImages
    requires forall b: Buffer :: Freed(r, b) <==> Freed(w, b)
    ensures ConservedIn(r, gone)
  {}

  lemma AllUsersReleasedConserves(w: World, i: ItemId, gone: multiset<Buffer>)
    requires ItemsOk(w) && ConservedIn(w, gone) && i in w.items
    ensures ConservedIn(AllUsersReleased(w, i), gone)
  {
    var r := AllUsersReleased(w, i);
    assert ItemOk(w, i);
    AllUsersReleasedEffect(w, i);
    forall b: Buffer
      ensures (multiset(r.collector.halImages) + gone)[b] == if Freed(r, b) then 1 else 0
    {
      assert (multiset(w.collector.halImages) + gone)[b] == if Freed(w, b) then 1 else 0;
      if i == ItemId(HalImage, b.stream) && w.items[i].buffer == Some(b) && !w.items[i].released {
        assert r.collector.halImages == w.collector.halImages + [b];
      } else {
        assert Freed(r, b) == Freed(w, b);
        assert multiset(r.collector.halImages)[b] == multiset(w.collector.halImages)[b];
      }
    }
  }

  lemma VisitConserves(w: World, n: NodeId, i: ItemId, gone: multiset<Buffer>)
    requires ItemsOk(w) && ConservedIn(w, gone) && i in w.items
    ensures ConservedIn(Visit(w, n, i), gone)
  {
    var us := w.items[i].users;
    var w1 := if us.ProducersDone() then ProducersReleased(ProducersReleasedByNode(w, n, i), i) else w;
    if us.active {
      assert forall j | j in w.items :: w1.items[j].buffer == w.items[j].buffer && w1.items[j].released == w.items[j].released;
      assert w1.mapped == w.mapped && w1.items.Keys == w.items.Keys;
      ConservedSame(w, w1, gone);
      if Frees(us, n) {
        assert ItemsOk(w1) by {
          forall j | j in w1.items
            ensures ItemOk(w1, j)
          {
            assert ItemOk(w, j);
          }
        }
        AllUsersReleasedConserves(w1, i, gone);
      }
    }
  }

  lemma {:induction false} VisitAllConserves(w: World, n: NodeId, ios: seq<ItemId>, gone: multiset<Buffer>)
    requires WorldOk(w) && Known(w, ios) && ConservedIn(w, gone)
    ensures ConservedIn(VisitAll(w, n, ios), gone)
  {
    if ios != [] {
      var front := ios[..|ios| - 1];
      VisitAllEffect(w, n, front);
      VisitAllConserves(w, n, front, gone);
      VisitConserves(VisitAll(w, n, front), n, ios[|ios| - 1], gone);
    }
  }

  lemma UpdateNodeConserves(w: World, n: NodeId, ns: NodeStatus, gone: multiset<Buffer>)
    requires WorldOk(w) && KnownNode(w, ns) && SetsOk(ns) && ConservedIn(w, gone)
    ensures ConservedIn(UpdateNode(w, n, ns).w, gone)
  {
    UpdateSetEffect(w, n, ns.outImage);
    VisitAllConserves(w, n, ns.outImage.ios, gone);
    var w1 := UpdateSet(w, n, ns.outImage).w;
    UpdateSetEffect(w1, n, ns.inImage);
    VisitAllConserves(w1, n, ns.inImage.ios, gone);
    var w2 := UpdateSet(w1, n, ns.inImage).w;
    UpdateSetEffect(w2, n, ns.outMeta);
    VisitAllConserves(w2, n, ns.outMeta.ios, gone);
    var w3 := UpdateSet(w2, n, ns.outMeta).w;
    VisitAllConserves(w3, n, ns.inMeta.ios, gone);
  }

  lemma RunUpdaterConserves(f: Frame, n: NodeId, roster: Roster)
    requires FrameOk(f, roster) && Conserved(f)
    ensures Conserved(RunUpdater(f, n).f)
  {
    if n in f.nodes {
      UpdateNodeConserves(f.w, n, f.nodes[n], Elsewhere(f));
    }
  }

  lemma {:induction false} ReleaseDoneImagesConserves(w: World, keys: seq<StreamId>, gone: multiset<Buffer>)
    requires WorldOk(w) && KeysKnown(w, keys) && ConservedIn(w, gone)
    ensures ConservedIn(ReleaseDoneImages(w, keys), gone)
  {
    if keys != [] {
      var front := keys[..|keys| - 1];
      assert forall s | s in front :: s in keys;
      ReleaseDoneImagesOk(w, front);
      ReleaseDoneImagesConserves(w, front, gone);
      var w1 := ReleaseDoneImages(w, front);
      AllUsersReleasedConserves(w1, ItemId(HalImage, keys[|keys| - 1]), gone);
    }
  }

  // ---------------------------------------------------------------- whole calls

  lemma AiawbConserves(f: Frame, n: NodeId)
    requires WorldOk(f.w) && KeysKnown(f.w, f.w.halKeys) && Conserved(f)
    ensures Conserved(AiawbRelease(f, n))
  {
    ReleaseDoneImagesConserves(f.w, f.w.halKeys, Elsewhere(f));
  }

  lemma ApplyReleaseConserves(f: Frame, n: NodeId, realTime: bool, alive: Alive, roster: Roster)
    requires FrameOk(f, roster) && Conserved(f)
    ensures Conserved(ApplyRelease(f, n, realTime, alive))
  {
    UpdateKeepsKeys(f, n);
    var r := UpdateForRelease(f, n).f;
    assert Conserved(r) by {
      RunUpdaterConserves(f, n, roster);
    }
    UpdateForReleaseOk(f, n, roster);
    AiawbConserves(r, n);
    HandleReleasedConserves(AiawbRelease(r, n), n, !f.preApplied && alive.appCallback, realTime, alive.processor);
  }

  lemma ApplyPreReleaseConserves(f: Frame, n: NodeId, alive: Alive, roster: Roster)
    requires FrameOk(f, roster) && Conserved(f)
    ensures Conserved(ApplyPreRelease(f, n, alive))
  {
    RunUpdaterConserves(f, n, roster);
    var r := RunUpdater(f, n).f;
    var g := ApplyPreRelease(f, n, alive);
    assert Elsewhere(g) == multiset(r.w.collector.halImages) + Elsewhere(r);
    forall b: Buffer
      ensures (multiset(g.w.collector.halImages) + Elsewhere(g))[b] == if Freed(g.w, b) then 1 else 0
    {
      assert (multiset(r.w.collector.halImages) + Elsewhere(r))[b] == if Freed(r.w, b) then 1 else 0;
    }
  }

  /** A buffer waiting in the pending set belongs to an item that is no longer mapped. */
  lemma PendingIsFreed(f: Frame, b: Buffer)
    requires Conserved(f) && b in f.pendingImage.buffers
    ensures Freed(f.w, b)
  {
    assert multiset(f.pendingImage.buffers)[b] >= 1;
    assert Elsewhere(f)[b] >= 1;
    assert (multiset(f.w.collector.halImages) + Elsewhere(f))[b] == if Freed(f.w, b) then 1 else 0;
  }

  /** Only the owners of the given buffers are touched, and only their users. */
  lemma {:induction false} ResetUsersEffect(items: map<ItemId, Item>, buffers: seq<Buffer>)
    ensures var r := ResetUsers(items, buffers);
            && r.Keys == items.Keys
            && (forall i | i in items :: r[i] == items[i] || ResetOf(items[i], r[i], i, buffers))
  {
    if buffers != [] {
      var front := buffers[..|buffers| - 1];
      ResetUsersEffect(items, front);
      assert buffers == front + [buffers[|buffers| - 1]];
    }
  }

  predicate ResetOf(a: Item, b: Item, i: ItemId, buffers: seq<Buffer>) {
    && i.kind == HalImage && a.buffer.Some? && a.buffer.value in buffers
    && b == a.(users := a.users.Reset())
  }

  lemma TransferConserves(f: Frame)
    requires Conserved(f)
    ensures Conserved(TransferImages(f))
  {
    var g := TransferImages(f);
    ResetUsersEffect(f.w.items, f.pendingImage.buffers);
    assert Elsewhere(g) == Elsewhere(f);
    ConservedSame(f.w, g.w, Elsewhere(f));
  }

  lemma TransferBooks(f: Frame)
    requires WorldOk(f.w) && Conserved(f)
    ensures WorldOk(TransferImages(f).w) && TransferImages(f).w.items.Keys == f.w.items.Keys
    ensures forall i | i in f.w.items && TransferImages(f).w.items[i] != f.w.items[i] ::
              i !in f.w.mapped && !TransferImages(f).w.items[i].users.active
  {
    var g := TransferImages(f);
    ResetUsersEffect(f.w.items, f.pendingImage.buffers);
    forall i | i in f.w.items && g.w.items[i] != f.w.items[i]
      ensures i !in f.w.mapped && ResetOf(f.w.items[i], g.w.items[i], i, f.pendingImage.buffers)
    {
      assert ItemOk(f.w, i);
      PendingIsFreed(f, f.w.items[i].buffer.value);
    }
    forall i | i in g.w.items
      ensures ItemOk(g.w, i)
    {
      assert ItemOk(f.w, i);
    }
    SameBooks(f.w, g.w);
  }

  lemma TransferOk(f: Frame, roster: Roster)
    requires FrameOk(f, roster) && Conserved(f)
    ensures FrameOk(TransferImages(f), roster)
  {
    var g := TransferImages(f);
    TransferBooks(f);
    ResetUsersEffect(f.w.items, f.pendingImage.buffers);
    ClosedSame(f.w, g.w, f.nodes);
    forall i | i in g.w.mapped && i in g.w.items && i in roster && OnlyListedUsers(g.w.items[i].users, roster[i])
      ensures ListedBySome(g.nodes, i)
    {
      assert OnlyListedUsers(f.w.items[i].users, roster[i]);
    }
    forall i, u | i in g.w.items && i in roster && u in roster[i] && Keeps(g.w.items[i].users, u)
      ensures u in g.nodes && g.nodes[u].Lists(i)
    {
      assert Keeps(f.w.items[i].users, u);
    }
  }

  lemma {:induction false} LeftImagesCount(w: World, keys: seq<StreamId>, b: Buffer)
    requires ItemsOk(w) && KeysKnown(w, keys)
    requires forall j, k | 0 <= j < k < |keys| :: keys[j] != keys[k]
    ensures multiset(LeftImages(w, keys))[b] == if b.stream in keys && Held(w, b) then 1 else 0
  {
    if keys != [] {
      var front, last := keys[..|keys| - 1], keys[|keys| - 1];
      assert keys == front + [last];
      LeftImagesCount(w, front, b);
      assert ItemOk(w, ItemId(HalImage, last));
    }
  }

  /** The images sent on one way to the end; with a live processor nothing is lost. */
  ghost predicate SentMore(out: Outbox, r: Outbox, b: Buffer, more: nat) {
    && r.lost == out.lost && r.transferred == out.transferred && r.dropped == out.dropped
    && ImagesSent(r.sent)[b] == ImagesSent(out.sent)[b] + more
  }

  lemma ReturnPendingMoves(f: Frame, b: Buffer)
    ensures SentMore(f.out, ReturnPending(f, true), b, Count(f.pendingImage.buffers, b))
  {
    ReturnResultMoves(f.out, true, Wrap(f.pendingImage.buffers), Wrap(f.pendingHalMeta.buffers), [], false, b);
    SomesWrap(f.pendingImage.buffers);
  }

  lemma ReturnLeftMoves(w: World, out: Outbox, b: Buffer)
    requires KeysKnown(w, w.halKeys)
    requires w.counts.halImage <= 0 ==> Count(LeftImages(w, w.halKeys), b) == 0
    ensures SentMore(out, ReturnLeft(w, out, true), b, Count(LeftImages(w, w.halKeys), b))
  {
    ReturnResultMoves(out, true, Wrap(LeftImages(w, w.halKeys)), [], [], false, b);
    SomesWrap(LeftImages(w, w.halKeys));
  }

  /** onLastStrongRef returns the pending images and those still mapped. */
  lemma DestroyMoves(f: Frame, alive: Alive, b: Buffer)
    requires alive.processor && KeysKnown(f.w, f.w.halKeys)
    requires f.w.counts.halImage <= 0 ==> Count(LeftImages(f.w, f.w.halKeys), b) == 0
    ensures SentMore(f.out, Destroy(f, alive).out, b,
                     Count(f.pendingImage.buffers, b) + Count(LeftImages(f.w, f.w.halKeys), b))
  {
    var out1 := ReturnPending(f, true);
    ReturnPendingMoves(f, b);
    ReturnLeftMoves(f.w, out1, b);
    ReturnResultMoves(TellEnd(ReturnLeft(f.w, out1, true), alive.appCallback), true, [], [], [], true, b);
  }

  /** The end of a frame with a live processor: every Hal image the frame ever had has left it exactly once. */
  lemma DestroyReturnsTheRest(f: Frame, alive: Alive, roster: Roster, b: Buffer)
    requires alive.processor
    requires FrameOk(f, roster) && Conserved(f) && f.w.collector.IsDrained()
    ensures var out := Destroy(f, alive).out;
            && out.lost == f.out.lost
            && ImagesSent(out.sent)[b] + Count(out.transferred, b) + Count(out.dropped, b) + Count(out.lost, b)
               == if Freed(f.w, b) || Held(f.w, b) then 1 else 0
  {
    LeftImagesCount(f.w, f.w.halKeys, b);
    assert f.w.counts.At(HalImage) == |OfKind(f.w.mapped, HalImage)|;
    assert Held(f.w, b) ==> ItemId(HalImage, b.stream) in OfKind(f.w.mapped, HalImage);
    DestroyMoves(f, alive, b);
    ElsewhereCount(f, b);
    ConservedAt(f, b);
  }
}

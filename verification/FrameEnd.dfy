/** How a frame ends: when it counts as done, what its listeners, the application and the result processor hear of that,
    and what the users of AIAWB and a transfer do to the items. */
module FrameEnd {
  import opened Users
  import opened Wrappers
  import opened FrameModel
  import opened WorldFacts
  import opened FrameInvariant
  import opened Conservation
  import opened MetaReport
  import opened Deliveries
  import opened FrameRuns
  import opened FrameConfiguration
  import opened DeliveryRuns

  // ---------------------------------------------------------------- when a frame is done

  lemma RunUpdaterEnds(f: Frame, n: NodeId, roster: Roster)
    requires FrameOk(f, roster)
    ensures var r := RunUpdater(f, n);
            && (r.emptied && r.f.inFlight == 0 <==> f.inFlight > 0 && r.f.inFlight == 0)
            && r.f.out == f.out && r.f.preApplied == f.preApplied
  {
    RunUpdaterOk(f, n, roster);
  }

  lemma NoNodeSaysEnd(n: NodeId, outMeta: bool, outImage: bool)
    ensures FrameReleased !in Notices(n, outMeta, outImage)
  {}

  lemma CountsEnd(before: seq<Notice>, more: seq<Notice>, done: bool)
    requires FrameReleased !in more
    ensures multiset(before + (more + if done then [FrameReleased] else []))[FrameReleased] ==
            multiset(before)[FrameReleased] + if done then 1 else 0
  {
    var end := if done then [FrameReleased] else [];
    assert multiset(more)[FrameReleased] == 0;
    assert multiset(before + (more + end)) == multiset(before) + multiset(more) + multiset(end);
  }

  lemma PreReleaseSays(f: Frame, n: NodeId, alive: Alive)
    requires Closed(f)
    ensures var g, r := ApplyPreRelease(f, n, alive), RunUpdater(f, n); var done := r.emptied && r.f.inFlight == 0;
            && g.out.notices == r.f.out.notices + (Notices(n, r.outMetaEmptied, r.outImageEmptied) +
                                                   if done then [FrameReleased] else [])
            && g.inFlight == r.f.inFlight && g.preApplied == (r.f.preApplied || done)
  {}

  /** A pre-release that lets the in-flight count come down to zero says FRAME_RELEASED, once, and raises the flag; no
      other pre-release does. */
  lemma PreReleaseEndsIff(f: Frame, n: NodeId, alive: Alive, roster: Roster)
    requires FrameOk(f, roster)
    ensures var g := ApplyPreRelease(f, n, alive);
            && multiset(g.out.notices)[FrameReleased] ==
                 multiset(f.out.notices)[FrameReleased] + (if f.inFlight > 0 && g.inFlight == 0 then 1 else 0)
            && (g.preApplied <==> f.preApplied || (f.inFlight > 0 && g.inFlight == 0))
  {
    RunUpdaterEnds(f, n, roster);
    PreReleaseSays(f, n, alive);
    var r := RunUpdater(f, n);
    NoNodeSaysEnd(n, r.outMetaEmptied, r.outImageEmptied);
    CountsEnd(f.out.notices, Notices(n, r.outMetaEmptied, r.outImageEmptied), r.emptied && r.f.inFlight == 0);
  }

  /** A release that does so raises the flag as well, but says nothing: that is left to the end of the frame. */
  lemma ReleaseEndsIff(f: Frame, n: NodeId, realTime: bool, alive: Alive, roster: Roster)
    requires FrameOk(f, roster)
    ensures var g := ApplyRelease(f, n, realTime, alive);
            && multiset(g.out.notices)[FrameReleased] == multiset(f.out.notices)[FrameReleased]
            && (g.preApplied <==> f.preApplied || (f.inFlight > 0 && g.inFlight == 0))
  {
    RunUpdaterEnds(f, n, roster);
    ApplyReleaseSays(f, n, realTime, alive);
    var r := UpdateForRelease(f, n);
    var more := Notices(n, r.outMetaEmptied, r.outImageEmptied);
    NoNodeSaysEnd(n, r.outMetaEmptied, r.outImageEmptied);
    CountsEnd(f.out.notices, more, false);
    assert more + [] == more;
    FlagAfterRelease(f, n, realTime, alive);
  }

  lemma FlagAfterRelease(f: Frame, n: NodeId, realTime: bool, alive: Alive)
    requires Closed(f) && KeysKnown(f.w, f.w.halKeys)
    ensures ApplyRelease(f, n, realTime, alive).preApplied == UpdateForRelease(f, n).f.preApplied
  {
    UpdateKeepsKeys(f, n);
  }

  // ---------------------------------------------------------------- AIAWB

  /** The loop takes exactly the Hal images all of whose users have released them out of their map. */
  lemma {:induction false} ReleaseDoneFrees(w: World, keys: seq<StreamId>)
    requires WorldOk(w) && KeysKnown(w, keys)
    ensures var r := ReleaseDoneImages(w, keys);
            forall i | i in w.items ::
              i in r.mapped <==> i in w.mapped && !(i.kind == HalImage && i.stream in keys && w.items[i].users.AllReleased())
  {
    if keys != [] {
      var front, last := keys[..|keys| - 1], keys[|keys| - 1];
      assert keys == front + [last];
      assert forall s | s in front :: s in keys;
      ReleaseDoneFrees(w, front);
      ReleaseDoneImagesOk(w, front);
      var m, i := ReleaseDoneImages(w, front), ItemId(HalImage, last);
      assert SameButBits(w.items[i], m.items[i]);
      AllUsersReleasedEffect(m, i);
    }
  }

  /** Each user has marked RELEASE. */
  predicate EachReleased(us: Users) {
    us.producers <= us.released && us.consumers <= us.released
  }

  /** Each user has marked RELEASE or PRE_RELEASE, and `n` is one of them. */
  predicate EachLetGo(us: Users, n: NodeId) {
    && (n in us.producers || n in us.consumers)
    && us.producers <= us.released + us.preReleased && us.consumers <= us.released + us.preReleased
  }

  lemma RunUpdaterFrees(f: Frame, n: NodeId, roster: Roster, i: ItemId)
    requires FrameOk(f, roster) && i in f.w.items
    ensures var r := RunUpdater(f, n).f;
            && i in r.w.items && r.w.items[i].users == f.w.items[i].users
            && (i in r.w.mapped <==>
                  i in f.w.mapped && !(n in f.nodes && f.nodes[n].Lists(i) && EachLetGo(f.w.items[i].users, n)))
  {
    assert ItemOk(f.w, i);
    if n in f.nodes {
      assert KnownNode(f.w, f.nodes[n]);
      UpdateNodeEffect(f.w, n, f.nodes[n]);
      ListedMembers(f.nodes[n]);
      assert SameButBits(f.w.items[i], RunUpdater(f, n).f.w.items[i]);
    }
  }

  /** What one apply takes out of the maps: while the frame is not done, the items that the node lists and that all users
      have let go of; and if the node is one of 0x100 to 0x102, the AIAWB nodes, every Hal image that all its users have
      released, whoever lists it. */
  lemma ReleaseFreesExactly(f: Frame, n: NodeId, realTime: bool, alive: Alive, roster: Roster, i: ItemId)
    requires FrameOk(f, roster) && i in f.w.items
    ensures var us := f.w.items[i].users;
            i in ApplyRelease(f, n, realTime, alive).w.mapped <==>
            && i in f.w.mapped
            && !(!f.preApplied && n in f.nodes && f.nodes[n].Lists(i) && EachLetGo(us, n))
            && !(0x100 <= n <= 0x102 && i.kind == HalImage && EachReleased(us))
  {
    UpdateKeepsKeys(f, n);
    UpdateForReleaseOk(f, n, roster);
    RunUpdaterFrees(f, n, roster, i);
    MappedAfterAiawb(UpdateForRelease(f, n).f, n, i);
  }

  lemma MappedAfterAiawb(r: Frame, n: NodeId, i: ItemId)
    requires WorldOk(r.w) && KeysKnown(r.w, r.w.halKeys) && i in r.w.items
    ensures i in AiawbRelease(r, n).w.mapped <==>
            i in r.w.mapped && !(0x100 <= n <= 0x102 && i.kind == HalImage && EachReleased(r.w.items[i].users))
  {
    ReleaseDoneFrees(r.w, r.w.halKeys);
    assert ItemOk(r.w, i);
    if i in r.w.mapped && i.kind == HalImage {
      assert i.stream in r.w.halKeys;
      assert i in OfKind(r.w.mapped, HalImage);
      assert r.w.counts.At(HalImage) == |OfKind(r.w.mapped, HalImage)|;
    }
  }

  // ---------------------------------------------------------------- transfer

  lemma {:induction false} ResetsExactly(items: map<ItemId, Item>, buffers: seq<Buffer>, i: ItemId)
    requires i in items && (items[i].buffer.Some? ==> items[i].buffer.value.stream == i.stream)
    ensures var r := ResetUsers(items, buffers);
            && i in r
            && r[i] == items[i].(users := if i.kind == HalImage && items[i].buffer.Some? && items[i].buffer.value in buffers
                                          then NoUsers() else items[i].users)
  {
    if buffers != [] {
      var front, last := buffers[..|buffers| - 1], buffers[|buffers| - 1];
      assert buffers == front + [last];
      ResetsExactly(items, front, i);
    }
  }

  /** transferPendingReleaseBuffers forgets the users of exactly the images that it hands over, and touches nothing else
      of any item. */
  lemma TransferForgetsExactly(f: Frame, i: ItemId)
    requires ItemsOk(f.w) && i in f.w.items
    ensures var item := f.w.items[i]; var moved := i.kind == HalImage && item.buffer.Some? &&
                                                  item.buffer.value in f.pendingImage.buffers;
            && i in TransferImages(f).w.items
            && TransferImages(f).w.items[i] == item.(users := if moved then NoUsers() else item.users)
  {
    assert ItemOk(f.w, i);
    ResetsExactly(f.w.items, f.pendingImage.buffers, i);
  }

  // ---------------------------------------------------------------- the end

  /** Nobody has been told that the frame has ended. */
  ghost predicate NotEnded(out: Outbox) {
    && (forall s | s in out.sent :: !s.destroyed)
    && (forall u | u in out.updates :: !u.frameEnd)
  }

  lemma TellsNoEnd(before: seq<Update>, after: seq<Update>, told: bool, n: NodeId, realTime: bool, w: World, r: World)
    requires Tells(before, after, told, n, realTime, w, r) && forall u | u in before :: !u.frameEnd
    ensures forall u | u in after :: !u.frameEnd
  {
    if told {
      assert after == before + [after[|before|]];
    }
  }

  lemma ReleaseSendsNoEnd(f: Frame, n: NodeId, realTime: bool, alive: Alive)
    requires Closed(f) && KeysKnown(f.w, f.w.halKeys) && forall s | s in f.out.sent :: !s.destroyed
    ensures forall s | s in ApplyRelease(f, n, realTime, alive).out.sent :: !s.destroyed
  {
    CollectingOut(f, n, HalImage);
    HandleReleasedReturns(Collecting(f, n), n, !f.preApplied && alive.appCallback, realTime, alive.processor, HalImage);
    var g := ApplyRelease(f, n, realTime, alive);
    if alive.processor {
      assert g.out.sent == f.out.sent + [g.out.sent[|f.out.sent|]];
    }
  }

  lemma NextNotEnded(f: Frame, step: Step, roster: Roster, given: set<ItemId>)
    requires RunOk(f, roster, given) && Allowed(f, step) && NotEnded(f.out)
    ensures NotEnded(Next(f, step).out)
  {
    if step.Release? {
      ReleaseSendsNoEnd(f, step.node, step.realTime, step.alive);
      NextTells(f, step, roster, given);
      TellsNoEnd(f.out.updates, Next(f, step).out.updates, Calls(f, step), Caller(step), IsRealTime(step),
                 f.w, Next(f, step).w);
    } else if step.PreRelease? {
      NextTells(f, step, roster, given);
      TellsNoEnd(f.out.updates, Next(f, step).out.updates, Calls(f, step), Caller(step), IsRealTime(step),
                 f.w, Next(f, step).w);
    } else {
      NextIdles(f, step, roster, given);
    }
  }

  lemma StepNotEnded(states: seq<Frame>, steps: seq<Step>, roster: Roster, given: set<ItemId>, k: nat)
    requires IsRun(states, steps) && RunOk(states[0], roster, given) && k < |steps| && NotEnded(states[k].out)
    ensures NotEnded(states[k + 1].out)
  {
    RunKeeps(states, steps, roster, given, k);
    NextNotEnded(states[k], steps[k], roster, given);
  }

  lemma {:induction false} NotEndedOn(states: seq<Frame>, k: nat)
    requires k < |states| && NotEnded(states[0].out)
    requires forall j: nat | j < k && NotEnded(states[j].out) :: NotEnded(states[j + 1].out)
    ensures NotEnded(states[k].out)
  {
    if k > 0 {
      NotEndedOn(states, k - 1);
      assert NotEnded(states[k - 1].out);
    }
  }

  /** As long as it lives a frame tells nobody that it has ended. */
  lemma RunNotEnded(states: seq<Frame>, steps: seq<Step>, s: Setup, k: nat)
    requires SetupOk(s) && IsRun(states, steps) && states[0] == Configured(s) && k <= |steps|
    ensures NotEnded(states[k].out) && RunOk(states[k], RosterOf(s), Given(s))
  {
    ConfiguredOk(s);
    RunKeeps(states, steps, RosterOf(s), Given(s), k);
    forall j: nat | j < k && NotEnded(states[j].out)
      ensures NotEnded(states[j + 1].out)
    {
      StepNotEnded(states, steps, RosterOf(s), Given(s), j);
    }
    NotEndedOn(states, k);
  }

  /** Exactly the last of the new calls of the processor says that the frame is destroyed, and it returns nothing. */
  predicate SaysDestroyed(before: seq<Sent>, after: seq<Sent>) {
    && |before| < |after| && after[..|before|] == before
    && after[|after| - 1] == Sent([], [], [], true)
    && forall k | |before| <= k < |after| - 1 :: !after[k].destroyed
  }

  lemma DestroySends(f: Frame, alive: Alive)
    requires KeysKnown(f.w, f.w.halKeys)
    ensures var out := Destroy(f, alive).out;
            if alive.processor then SaysDestroyed(f.out.sent, out.sent) else out.sent == f.out.sent
  {
    var pending := ReturnPending(f, alive.processor);
    var left := ReturnLeft(f.w, pending, alive.processor);
    var out := Destroy(f, alive).out;
    if alive.processor {
      assert out.sent == left.sent + [Sent([], [], [], true)];
    }
  }

  /** The end of a frame after any run: its listeners hear FRAME_RELEASED once more; the application, if it is there,
      gets one more callback, which says that the frame has ended and holds nothing; the processor, if it is there,
      is told last and for the first time that the frame is destroyed. No Hal image and no Hal meta is left. */
  lemma EndIsTold(states: seq<Frame>, steps: seq<Step>, s: Setup, alive: Alive)
    requires SetupOk(s) && IsRun(states, steps) && states[0] == Configured(s)
    ensures KeysKnown(states[|steps|].w, states[|steps|].w.halKeys) && NotEnded(states[|steps|].out)
    ensures var f := states[|steps|]; var out := Destroy(f, alive).out;
            && NothingLeft(f, Destroy(f, alive)) && out.notices == f.out.notices + [FrameReleased]
            && multiset(f.out.notices)[FrameReleased] <= 1
            && (if alive.appCallback
                then out.updates == f.out.updates + [Update(0, 0, [], 0, [], map[], map[], true, false)]
                else out.updates == f.out.updates)
            && (if alive.processor then SaysDestroyed(f.out.sent, out.sent) else out.sent == f.out.sent)
  {
    RunNotEnded(states, steps, s, |steps|);
    DestroySends(states[|steps|], alive);
    DestroyNotices(states[|steps|], alive);
    DestroyCounts(states[|steps|], alive);
  }

  /** No Hal image counts as left, and neither a Hal image nor a Hal meta is pending. */
  predicate NothingLeft(f: Frame, g: Frame) {
    && g.w.counts == f.w.counts.(halImage := 0) && g.pendingImage.buffers == [] && g.pendingHalMeta.buffers == []
    && g.pendingAppMeta == f.pendingAppMeta
  }

  lemma DestroyCounts(f: Frame, alive: Alive)
    requires KeysKnown(f.w, f.w.halKeys) && CountsOk(f.w)
    ensures NothingLeft(f, Destroy(f, alive))
  {
    assert f.w.counts.At(HalImage) == |OfKind(f.w.mapped, HalImage)|;
  }

  lemma DestroyNotices(f: Frame, alive: Alive)
    requires KeysKnown(f.w, f.w.halKeys)
    ensures var out := Destroy(f, alive).out;
            && out.notices == f.out.notices + [FrameReleased]
            && (if alive.appCallback
                then out.updates == f.out.updates + [Update(0, 0, [], 0, [], map[], map[], true, false)]
                else out.updates == f.out.updates)
  {}

  // ---------------------------------------------------------------- metas at the end

  /** How often the buffer was returned in the lists of its kind or lost with them. */
  ghost function Moved(out: Outbox, k: Kind, b: Buffer): nat
    requires IsMeta(k)
  {
    Returned(out.sent, k)[b] + Count(LostOf(out, k), b)
  }

  ghost predicate MovesMore(out: Outbox, r: Outbox, k: Kind, b: Buffer, more: nat)
    requires IsMeta(k)
  {
    Moved(r, k, b) == Moved(out, k, b) + more && DroppedOf(r, k) == DroppedOf(out, k)
  }

  lemma ReturnResultMetas(out: Outbox, processor: bool, images: seq<Option<Buffer>>, halMetas: seq<Buffer>,
                          destroyed: bool, k: Kind, b: Buffer)
    requires IsMeta(k)
    ensures MovesMore(out, ReturnResult(out, processor, images, Wrap(halMetas), [], destroyed), k, b,
                      if k == HalMeta then Count(halMetas, b) else 0)
  {
    var r := ReturnResult(out, processor, images, Wrap(halMetas), [], destroyed);
    SomesWrap(halMetas);
    if processor {
      ReturnedAppend(out.sent, r.sent[|out.sent|], k);
      assert r.sent == out.sent + [r.sent[|out.sent|]];
    } else {
      CountAppend(LostOf(out, k), if k == HalMeta then halMetas else [], b);
    }
  }

  lemma ReturnPendingMetas(f: Frame, processor: bool, k: Kind, b: Buffer)
    requires IsMeta(k)
    ensures MovesMore(f.out, ReturnPending(f, processor), k, b, if k == HalMeta then Count(f.pendingHalMeta.buffers, b) else 0)
  {
    ReturnResultMetas(f.out, processor, Wrap(f.pendingImage.buffers), f.pendingHalMeta.buffers, false, k, b);
  }

  lemma ReturnLeftMetas(w: World, out: Outbox, processor: bool, k: Kind, b: Buffer)
    requires IsMeta(k) && KeysKnown(w, w.halKeys)
    ensures MovesMore(out, ReturnLeft(w, out, processor), k, b, 0)
  {
    assert Wrap([]) == [];
    ReturnResultMetas(out, processor, Wrap(LeftImages(w, w.halKeys)), [], false, k, b);
  }

  lemma LastResultMetas(out: Outbox, alive: Alive, k: Kind, b: Buffer)
    requires IsMeta(k)
    ensures MovesMore(out, ReturnResult(TellEnd(out, alive.appCallback), alive.processor, [], [], [], true), k, b, 0)
  {
    assert Wrap([]) == [];
    ReturnResultMetas(TellEnd(out, alive.appCallback), alive.processor, [], [], true, k, b);
  }

  lemma DestroyReturnsMetas(f: Frame, alive: Alive, k: Kind, b: Buffer)
    requires KeysKnown(f.w, f.w.halKeys) && IsMeta(k)
    ensures MovesMore(f.out, Destroy(f, alive).out, k, b, if k == HalMeta then Count(f.pendingHalMeta.buffers, b) else 0)
  {
    var out1 := ReturnPending(f, alive.processor);
    ReturnPendingMetas(f, alive.processor, k, b);
    ReturnLeftMetas(f.w, out1, alive.processor, k, b);
    LastResultMetas(ReturnLeft(f.w, out1, alive.processor), alive, k, b);
  }

  lemma HalMetaAtTheEnd(f: Frame, alive: Alive, b: Buffer)
    requires KeysKnown(f.w, f.w.halKeys) && f.w.collector.IsDrained() && Delivers(f, HalMeta)
    ensures var out := Destroy(f, alive).out;
            Returned(out.sent, HalMeta)[b] + Count(out.lostHalMetas, b) + Count(out.droppedHalMetas, b)
            == if Unmapped(f.w, HalMeta, b) then 1 else 0
  {
    NothingCollected(f, HalMeta, b);
    DestroyReturnsMetas(f, alive, HalMeta, b);
  }

  lemma AppMetaAtTheEnd(f: Frame, alive: Alive, b: Buffer)
    requires KeysKnown(f.w, f.w.halKeys) && f.w.collector.IsDrained() && Delivers(f, AppMeta)
    ensures var out := Destroy(f, alive).out;
            Returned(out.sent, AppMeta)[b] + Count(out.lostAppMetas, b) + Count(out.droppedAppMetas, b)
            == if Seen(f.w, AppMeta, b) && b !in f.pendingAppMeta.buffers then 1 else 0
  {
    NothingCollected(f, AppMeta, b);
    DestroyReturnsMetas(f, alive, AppMeta, b);
    InCount(f.pendingAppMeta.buffers, b);
  }

  /** When a frame has ended, each Hal meta buffer that had left its map has been returned as a Hal meta, lost or
      dropped, exactly once. An App meta that is kept back to the end is not returned any more. */
  lemma MetasLeaveByTheEnd(states: seq<Frame>, steps: seq<Step>, s: Setup, alive: Alive, b: Buffer)
    requires SetupOk(s) && IsRun(states, steps) && states[0] == Configured(s)
    ensures KeysKnown(states[|steps|].w, states[|steps|].w.halKeys)
    ensures var f := states[|steps|]; var out := Destroy(f, alive).out;
            && Returned(out.sent, HalMeta)[b] + Count(out.lostHalMetas, b) + Count(out.droppedHalMetas, b)
               == (if Unmapped(f.w, HalMeta, b) then 1 else 0)
            && Returned(out.sent, AppMeta)[b] + Count(out.lostAppMetas, b) + Count(out.droppedAppMetas, b)
               == if Seen(f.w, AppMeta, b) && b !in f.pendingAppMeta.buffers then 1 else 0
  {
    AlwaysDelivers(states, steps, s, |steps|, HalMeta);
    AlwaysDelivers(states, steps, s, |steps|, AppMeta);
    HalMetaAtTheEnd(states[|steps|], alive, b);
    AppMetaAtTheEnd(states[|steps|], alive, b);
  }
}

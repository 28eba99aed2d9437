/** Every run of a frame, seen from its buffers: which App images the application was told of, where Hal metas and App
    metas have gone, and which buffers are kept back. */
module DeliveryRuns {
  import opened Users
  import opened Wrappers
  import opened FrameModel
  import opened WorldFacts
  import opened FrameInvariant
  import opened Conservation
  import opened MetaReport
  import opened Deliveries
  import opened FrameRuns
  import opened FrameConfiguration

  // ---------------------------------------------------------------- steps that free nothing

  lemma QuietLeaves(w: World, r: World, k: Kind, b: Buffer)
    requires QuietWorld(w, r)
    ensures HasLeft(r, k, b) == HasLeft(w, k, b)
  {
    var i := ItemId(k, b.stream);
    if i in w.items {
      assert QuietItem(w.items[i], r.items[i], i in w.mapped, IsImage(k));
    }
  }

  /** Only users of images change. */
  ghost predicate SameButImageUsers(w: World, r: World) {
    && r.items.Keys == w.items.Keys && r.mapped == w.mapped && r.collector == w.collector
    && (forall i | i in w.items :: r.items[i] == w.items[i].(users := r.items[i].users))
    && (forall i | i in w.items && IsMeta(i.kind) :: r.items[i] == w.items[i])
  }

  lemma ImageUsersLeave(w: World, r: World, k: Kind, b: Buffer)
    requires SameButImageUsers(w, r)
    ensures HasLeft(r, k, b) == HasLeft(w, k, b)
  {
    var i := ItemId(k, b.stream);
    if i in w.items {
      assert r.items[i] == w.items[i].(users := r.items[i].users);
      assert IsMeta(k) ==> r.items[i] == w.items[i];
    }
  }

  predicate Applies(step: Step) {
    step.Release? || step.PreRelease?
  }

  lemma ImageUsersStep(f: Frame, step: Step)
    requires Closed(f) && KeysKnown(f.w, f.w.halKeys) && Allowed(f, step)
    requires step.Transfer? || step.AddConsumer? || step.Keep?
    ensures SameButImageUsers(f.w, Next(f, step).w)
  {
    ResetUsersEffect(f.w.items, f.pendingImage.buffers);
  }

  /** Such a step frees nothing, and of the places of buffers it touches the pending images only. */
  lemma NextIdles(f: Frame, step: Step, roster: Roster, given: set<ItemId>)
    requires RunOk(f, roster, given) && Allowed(f, step) && !Applies(step)
    ensures var g := Next(f, step);
            && (forall k: Kind, b: Buffer :: HasLeft(g.w, k, b) == HasLeft(f.w, k, b)) && g.w.collector == f.w.collector
            && g.pendingImage.buffers == (if step.Transfer? then [] else f.pendingImage.buffers)
            && g.pendingHalMeta.buffers == f.pendingHalMeta.buffers && g.pendingAppMeta.buffers == f.pendingAppMeta.buffers
            && g.out == f.out.(requests := g.out.requests, transferred := g.out.transferred)
  {
    var g := Next(f, step);
    if step.Transfer? || step.AddConsumer? || step.Keep? {
      ImageUsersStep(f, step);
      forall k: Kind, b: Buffer
        ensures HasLeft(g.w, k, b) == HasLeft(f.w, k, b)
      {
        ImageUsersLeave(f.w, g.w, k, b);
      }
    } else {
      NextQuiet(f, step, roster, given);
      forall k: Kind, b: Buffer
        ensures HasLeft(g.w, k, b) == HasLeft(f.w, k, b)
      {
        QuietLeaves(f.w, g.w, k, b);
      }
    }
  }

  lemma NextQuiet(f: Frame, step: Step, roster: Roster, given: set<ItemId>)
    requires RunOk(f, roster, given) && Allowed(f, step) && (step.Mark? || step.Get? || step.MarkBuffer?)
    ensures Quiet(f, Next(f, step))
  {
    match step
    case Mark(s, u, status) =>
      var i := FindItem(f.w, s);
      if i.Some? && i.value in f.w.mapped && i.value in f.w.items {
        MarkQuiet(f, i.value, u, status);
      }
    case Get(image, s, u, halAsk, appAsk) => GetStreamQuiet(f, image, s, u, halAsk, appAsk, roster, given);
    case MarkBuffer(i, u, status) => MarkQuiet(f, i, u, status);
  }

  lemma IdlePlaces(f: Frame, g: Frame, k: Kind, before: multiset<Buffer>, after: multiset<Buffer>)
    requires Placed(f.w, k, before) && after == before && g.w.collector == f.w.collector
    requires forall b: Buffer :: HasLeft(g.w, k, b) == HasLeft(f.w, k, b)
    ensures Placed(g.w, k, after)
  {
    SamePlaces(f.w, g.w, k, before);
  }

  // ---------------------------------------------------------------- metas

  lemma NextDelivers(f: Frame, step: Step, roster: Roster, given: set<ItemId>, k: Kind)
    requires RunOk(f, roster, given) && Allowed(f, step) && IsMeta(k) && Placed(f.w, k, Handed(f, k))
    ensures Placed(Next(f, step).w, k, Handed(Next(f, step), k))
  {
    if step.Release? {
      ApplyReleasePlaces(f, step.node, step.realTime, step.alive, roster, k);
    } else if step.PreRelease? {
      ApplyPreReleasePlaces(f, step.node, step.alive, roster, k);
    } else {
      NextIdles(f, step, roster, given);
      IdlePlaces(f, Next(f, step), k, Handed(f, k), Handed(Next(f, step), k));
    }
  }

  lemma NothingPlaced(f: Frame, k: Kind)
    requires f.w.collector.IsDrained() && f.out == NOTHING_OUT
    requires f.pendingImage.buffers == [] && f.pendingHalMeta.buffers == [] && f.pendingAppMeta.buffers == []
    requires forall i | i in f.w.items :: i in f.w.mapped && !f.w.items[i].producersReleased
    ensures Placed(f.w, k, multiset{}) && Handed(f, k) == multiset{}
  {
    assert Collected(f.w.collector, k) == [];
    forall b: Buffer
      ensures !HasLeft(f.w, k, b)
    {}
  }

  lemma ConfiguredPlaces(s: Setup, k: Kind)
    requires SetupOk(s)
    ensures Placed(Configured(s).w, k, multiset{}) && Handed(Configured(s), k) == multiset{}
  {
    var f := Configured(s);
    ConfiguredWorldOk(s);
    forall i | i in f.w.items
      ensures i in f.w.mapped && !f.w.items[i].producersReleased
    {
      FreshItem(s, i);
    }
    NothingPlaced(f, k);
  }

  ghost predicate Delivers(f: Frame, k: Kind) {
    Placed(f.w, k, Handed(f, k))
  }

  lemma StepDelivers(states: seq<Frame>, steps: seq<Step>, roster: Roster, given: set<ItemId>, k: nat, kind: Kind)
    requires IsRun(states, steps) && RunOk(states[0], roster, given) && k < |steps| && IsMeta(kind)
    requires Delivers(states[k], kind)
    ensures Delivers(states[k + 1], kind)
  {
    RunKeeps(states, steps, roster, given, k);
    NextDelivers(states[k], steps[k], roster, given, kind);
  }

  lemma {:induction false} DeliversOn(states: seq<Frame>, kind: Kind, k: nat)
    requires k < |states| && Delivers(states[0], kind)
    requires forall j: nat | j < k && Delivers(states[j], kind) :: Delivers(states[j + 1], kind)
    ensures Delivers(states[k], kind)
  {
    if k > 0 {
      DeliversOn(states, kind, k - 1);
      assert Delivers(states[k - 1], kind);
    }
  }

  lemma RunDelivers(states: seq<Frame>, steps: seq<Step>, roster: Roster, given: set<ItemId>, k: nat, kind: Kind)
    requires IsRun(states, steps) && RunOk(states[0], roster, given) && k <= |steps| && IsMeta(kind)
    requires Delivers(states[0], kind)
    ensures Delivers(states[k], kind)
  {
    forall j: nat | j < k && Delivers(states[j], kind)
      ensures Delivers(states[j + 1], kind)
    {
      StepDelivers(states, steps, roster, given, j, kind);
    }
    DeliversOn(states, kind, k);
  }

  /** At every point of every run from configuration. */
  lemma AlwaysDelivers(states: seq<Frame>, steps: seq<Step>, s: Setup, k: nat, kind: Kind)
    requires SetupOk(s) && IsRun(states, steps) && states[0] == Configured(s) && k <= |steps| && IsReturned(kind)
    ensures RunOk(states[k], RosterOf(s), Given(s)) && Delivers(states[k], kind)
  {
    ConfiguredOk(s);
    RunKeeps(states, steps, RosterOf(s), Given(s), k);
    if kind == HalImage {
      ImagesArePlaced(states[k]);
    } else {
      ConfiguredPlaces(s, kind);
      RunDelivers(states, steps, RosterOf(s), Given(s), k, kind);
    }
  }

  lemma NothingCollected(f: Frame, k: Kind, b: Buffer)
    requires f.w.collector.IsDrained() && Delivers(f, k)
    ensures Handed(f, k)[b] == if HasLeft(f.w, k, b) then 1 else 0
  {
    assert Count(Collected(f.w.collector, k), b) + Handed(f, k)[b] == if HasLeft(f.w, k, b) then 1 else 0;
    assert Collected(f.w.collector, k) == [];
  }

  /** A Hal meta buffer that has left its map is pending, was returned in a list of Hal metas, was lost without a
      processor or was dropped by a pre-release: exactly one of these, once. No other buffer is in any of them. */
  lemma HalMetasLeaveOnce(states: seq<Frame>, steps: seq<Step>, s: Setup, k: nat, b: Buffer)
    requires SetupOk(s) && IsRun(states, steps) && states[0] == Configured(s) && k <= |steps|
    ensures var f := states[k];
            Count(f.pendingHalMeta.buffers, b) + Returned(f.out.sent, HalMeta)[b] + Count(f.out.lostHalMetas, b)
            + Count(f.out.droppedHalMetas, b) == if Unmapped(f.w, HalMeta, b) then 1 else 0
  {
    AlwaysDelivers(states, steps, s, k, HalMeta);
    NothingCollected(states[k], HalMeta, b);
  }

  /** The same for the App metas that were produced and seen to be done, in the lists of App metas. */
  lemma AppMetasLeaveOnce(states: seq<Frame>, steps: seq<Step>, s: Setup, k: nat, b: Buffer)
    requires SetupOk(s) && IsRun(states, steps) && states[0] == Configured(s) && k <= |steps|
    ensures var f := states[k];
            Count(f.pendingAppMeta.buffers, b) + Returned(f.out.sent, AppMeta)[b] + Count(f.out.lostAppMetas, b)
            + Count(f.out.droppedAppMetas, b) == if Seen(f.w, AppMeta, b) then 1 else 0
  {
    AlwaysDelivers(states, steps, s, k, AppMeta);
    NothingCollected(states[k], AppMeta, b);
  }

  // ---------------------------------------------------------------- App images

  ghost predicate ImagesOk(f: Frame, missed: multiset<Buffer>) {
    Placed(f.w, AppImage, ImagesTold(f.out.appImages) + missed)
  }

  lemma NextTellsImages(f: Frame, step: Step, roster: Roster, given: set<ItemId>, missed: multiset<Buffer>)
    returns (missed': multiset<Buffer>)
    requires RunOk(f, roster, given) && Allowed(f, step) && ImagesOk(f, missed)
    ensures ImagesOk(Next(f, step), missed') && (Heard(step) ==> missed' == missed)
  {
    if step.Release? {
      missed' := ApplyReleaseTellsImages(f, step.node, step.realTime, step.alive, roster, missed);
    } else if step.PreRelease? {
      missed' := ApplyPreReleaseTellsImages(f, step.node, step.alive, roster, missed);
    } else {
      missed' := missed;
      NextIdles(f, step, roster, given);
      var told := ImagesTold(f.out.appImages) + missed;
      IdlePlaces(f, Next(f, step), AppImage, told, told);
    }
  }

  /** Every App image that has left was told, once, or missed; none was missed if the application `heard` everything. */
  ghost predicate ImagesTracked(f: Frame, heard: bool) {
    exists missed :: ImagesOk(f, missed) && (heard ==> missed == multiset{})
  }

  lemma StepTellsImages(states: seq<Frame>, steps: seq<Step>, roster: Roster, given: set<ItemId>, k: nat, heard: bool)
    requires IsRun(states, steps) && RunOk(states[0], roster, given) && k < |steps| && (heard ==> Heard(steps[k]))
    requires ImagesTracked(states[k], heard)
    ensures ImagesTracked(states[k + 1], heard)
  {
    RunKeeps(states, steps, roster, given, k);
    var missed :| ImagesOk(states[k], missed) && (heard ==> missed == multiset{});
    var missed' := NextTellsImages(states[k], steps[k], roster, given, missed);
  }

  lemma {:induction false} TracksOn(states: seq<Frame>, heard: bool, k: nat)
    requires k < |states| && ImagesTracked(states[0], heard)
    requires forall j: nat | j < k && ImagesTracked(states[j], heard) :: ImagesTracked(states[j + 1], heard)
    ensures ImagesTracked(states[k], heard)
  {
    if k > 0 {
      TracksOn(states, heard, k - 1);
      assert ImagesTracked(states[k - 1], heard);
    }
  }

  lemma RunTellsImages(states: seq<Frame>, steps: seq<Step>, roster: Roster, given: set<ItemId>, heard: bool, k: nat)
    requires IsRun(states, steps) && RunOk(states[0], roster, given) && k <= |steps| && ImagesOk(states[0], multiset{})
    requires heard ==> forall t | t in steps :: Heard(t)
    ensures ImagesTracked(states[k], heard)
  {
    forall j: nat | j < k && ImagesTracked(states[j], heard)
      ensures ImagesTracked(states[j + 1], heard)
    {
      assert steps[j] in steps;
      StepTellsImages(states, steps, roster, given, j, heard);
    }
    TracksOn(states, heard, k);
  }

  /** The application is told of an App image at most once, and only when the image has left its map; if it listens
      throughout, it has been told of every App image that has left. No other buffer is in its lists. */
  lemma AppImagesToldOnce(states: seq<Frame>, steps: seq<Step>, s: Setup, k: nat, b: Buffer)
    requires SetupOk(s) && IsRun(states, steps) && states[0] == Configured(s) && k <= |steps|
    ensures ImagesTold(states[k].out.appImages)[b] <= if Unmapped(states[k].w, AppImage, b) then 1 else 0
    ensures (forall t | t in steps :: Heard(t)) ==>
              ImagesTold(states[k].out.appImages)[b] == if Unmapped(states[k].w, AppImage, b) then 1 else 0
  {
    ConfiguredOk(s);
    ConfiguredPlaces(s, AppImage);
    RunKeeps(states, steps, RosterOf(s), Given(s), k);
    var heard := forall t | t in steps :: Heard(t);
    RunTellsImages(states, steps, RosterOf(s), Given(s), heard, k);
    var missed :| ImagesOk(states[k], missed) && (heard ==> missed == multiset{});
    ToldAt(states[k], missed, b);
  }

  lemma ToldAt(f: Frame, missed: multiset<Buffer>, b: Buffer)
    requires f.w.collector.IsDrained() && ImagesOk(f, missed)
    ensures ImagesTold(f.out.appImages)[b] + missed[b] == if Unmapped(f.w, AppImage, b) then 1 else 0
  {
    var told := ImagesTold(f.out.appImages) + missed;
    assert Count(Collected(f.w.collector, AppImage), b) + told[b] == if HasLeft(f.w, AppImage, b) then 1 else 0;
    assert Collected(f.w.collector, AppImage) == [];
  }

  /** Exactly the App images that come free on the way from `w` to `r` are told in one call; without any there is none. */
  ghost predicate TellsImages(before: seq<seq<Buffer>>, after: seq<seq<Buffer>>, w: World, r: World) {
    if forall b: Buffer :: !ComesFree(w, r, AppImage, b) then after == before
    else
      && |after| == |before| + 1 && after[..|before|] == before
      && forall b: Buffer :: Count(after[|before|], b) == if ComesFree(w, r, AppImage, b) then 1 else 0
  }

  lemma ReportsImages(w: World, r: World, d: World, out: Outbox, n: NodeId, realTime: bool, handed: multiset<Buffer>)
    requires w.collector.IsDrained() && Placed(w, AppImage, handed) && Placed(r, AppImage, handed)
    requires d == r.(collector := r.collector.Drained())
    ensures TellsImages(out.appImages, Report(out, r.collector, n, true, realTime).appImages, w, d)
  {
    var list := r.collector.appImages;
    forall b: Buffer
      ensures Count(list, b) == if ComesFree(w, d, AppImage, b) then 1 else 0
    {
      assert Count(Collected(w.collector, AppImage), b) + handed[b] == if HasLeft(w, AppImage, b) then 1 else 0;
      assert Count(Collected(r.collector, AppImage), b) + handed[b] == if HasLeft(r, AppImage, b) then 1 else 0;
      assert HasLeft(d, AppImage, b) == HasLeft(r, AppImage, b);
    }
    if list != [] {
      InCount(list, list[0]);
      assert ComesFree(w, d, AppImage, list[0]);
    } else {
      forall b: Buffer
        ensures !ComesFree(w, d, AppImage, b)
      {
        assert Count(list, b) == 0;
      }
    }
  }

  lemma ReleaseTellsImages(f: Frame, n: NodeId, realTime: bool, alive: Alive, roster: Roster, handed: multiset<Buffer>)
    requires FrameOk(f, roster) && f.w.collector.IsDrained() && Placed(f.w, AppImage, handed)
    ensures var g := ApplyRelease(f, n, realTime, alive);
            if !f.preApplied && alive.appCallback then TellsImages(f.out.appImages, g.out.appImages, f.w, g.w)
            else g.out.appImages == f.out.appImages
  {
    CollectingPlaces(f, n, roster, AppImage, handed);
    CollectingOut(f, n, AppImage);
    ReportsImages(f.w, Collecting(f, n).w, ApplyRelease(f, n, realTime, alive).w, f.out, n, realTime, handed);
  }

  lemma PreReleaseTellsImages(f: Frame, n: NodeId, alive: Alive, roster: Roster, handed: multiset<Buffer>)
    requires FrameOk(f, roster) && f.w.collector.IsDrained() && Placed(f.w, AppImage, handed)
    ensures var g := ApplyPreRelease(f, n, alive);
            if alive.appCallback then TellsImages(f.out.appImages, g.out.appImages, f.w, g.w)
            else g.out.appImages == f.out.appImages
  {
    RunUpdaterPlaces(f, n, roster, AppImage, handed);
    ReportsImages(f.w, RunUpdater(f, n).f.w, ApplyPreRelease(f, n, alive).w, f.out, n, false, handed);
  }

  /** Over every run: an apply that calls the application tells it, in one call, of exactly the App images that this apply
      has set free, and makes no such call if there are none; no other step does. */
  lemma AppImagesInOneCall(states: seq<Frame>, steps: seq<Step>, s: Setup, k: nat)
    requires SetupOk(s) && IsRun(states, steps) && states[0] == Configured(s) && k < |steps|
    ensures var f, g := states[k], states[k + 1];
            if Calls(f, steps[k]) then TellsImages(f.out.appImages, g.out.appImages, f.w, g.w)
            else g.out.appImages == f.out.appImages
  {
    ConfiguredOk(s);
    ConfiguredPlaces(s, AppImage);
    RunKeeps(states, steps, RosterOf(s), Given(s), k);
    RunTellsImages(states, steps, RosterOf(s), Given(s), false, k);
    var missed :| ImagesOk(states[k], missed);
    StepCallsImages(states[k], steps[k], RosterOf(s), Given(s), ImagesTold(states[k].out.appImages) + missed);
  }

  lemma StepCallsImages(f: Frame, step: Step, roster: Roster, given: set<ItemId>, handed: multiset<Buffer>)
    requires RunOk(f, roster, given) && Allowed(f, step) && Placed(f.w, AppImage, handed)
    ensures var g := Next(f, step);
            if Calls(f, step) then TellsImages(f.out.appImages, g.out.appImages, f.w, g.w)
            else g.out.appImages == f.out.appImages
  {
    match step
    case Release(n, realTime, alive) => ReleaseTellsImages(f, n, realTime, alive, roster, handed);
    case PreRelease(n, alive) => PreReleaseTellsImages(f, n, alive, roster, handed);
    case Get(image, s, u, halAsk, appAsk) => GetStreamQuiet(f, image, s, u, halAsk, appAsk, roster, given);
    case _ =>
  }

  // ---------------------------------------------------------------- buffers that are kept back

  lemma ReleaseFrees(f: Frame, n: NodeId, realTime: bool, alive: Alive, roster: Roster, k: Kind, b: Buffer)
    requires FrameOk(f, roster) && f.w.collector.IsDrained() && Delivers(f, k)
    ensures var a, g := Collecting(f, n), ApplyRelease(f, n, realTime, alive);
            && HasLeft(g.w, k, b) == HasLeft(a.w, k, b)
            && Count(Collected(a.w.collector, k), b) == if ComesFree(f.w, g.w, k, b) then 1 else 0
  {
    CollectingPlaces(f, n, roster, k, Handed(f, k));
    CollectsNew(f, Collecting(f, n), k);
  }

  lemma ReleaseReturns(f: Frame, n: NodeId, realTime: bool, alive: Alive, k: Kind)
    requires Closed(f) && KeysKnown(f.w, f.w.halKeys) && IsReturned(k)
    ensures var a, g := Collecting(f, n), ApplyRelease(f, n, realTime, alive);
            && PendingOf(a, k) == PendingOf(f, k)
            && PendingOf(g, k).buffers ==
                 PendingOf(f, k).buffers + Picked(Collected(a.w.collector, k), PendingOf(f, k), true)
            && (alive.processor ==>
                  && |g.out.sent| == |f.out.sent| + 1 && g.out.sent[..|f.out.sent|] == f.out.sent
                  && SentOf(g.out.sent[|f.out.sent|], k) == ToReturn(a, k))
            && (!alive.processor ==> g.out.sent == f.out.sent)
  {
    CollectingOut(f, n, k);
    HandleReleasedReturns(Collecting(f, n), n, !f.preApplied && alive.appCallback, realTime, alive.processor, k);
  }

  /** One call of applyRelease: of the buffers of a kind that come free, exactly the wanted ones go to the pending set
      of that kind; the others are, with a live processor, exactly the list of that kind in the one call it gets. */
  lemma ReleaseKeepsWanted(f: Frame, n: NodeId, realTime: bool, alive: Alive, roster: Roster, k: Kind, b: Buffer)
    requires FrameOk(f, roster) && f.w.collector.IsDrained() && IsReturned(k) && Delivers(f, k)
    ensures var g := ApplyRelease(f, n, realTime, alive);
            && Count(PendingOf(g, k).buffers, b) ==
                 Count(PendingOf(f, k).buffers, b) +
                 (if ComesFree(f.w, g.w, k, b) && Wanted(PendingOf(f, k), b) then 1 else 0)
            && (alive.processor ==>
                  && |g.out.sent| == |f.out.sent| + 1 && g.out.sent[..|f.out.sent|] == f.out.sent
                  && Count(SentOf(g.out.sent[|f.out.sent|], k), b) ==
                       if ComesFree(f.w, g.w, k, b) && !Wanted(PendingOf(f, k), b) then 1 else 0)
            && (!alive.processor ==> g.out.sent == f.out.sent)
  {
    var list, p := Collected(Collecting(f, n).w.collector, k), PendingOf(f, k);
    ReleaseFrees(f, n, realTime, alive, roster, k, b);
    ReleaseReturns(f, n, realTime, alive, k);
    PickedMembers(list, p, true, b);
    PickedMembers(list, p, false, b);
    CountAppend(p.buffers, Picked(list, p, true), b);
  }

  /** The step puts the buffer into the pending set. */
  ghost predicate Keeps(f: Frame, step: Step, g: Frame, k: Kind, b: Buffer)
    requires IsReturned(k)
  {
    step.Release? && ComesFree(f.w, g.w, k, b) && Wanted(PendingOf(f, k), b)
  }

  /** The step takes it out again. */
  predicate Empties(step: Step, k: Kind) {
    k == HalImage && step.Transfer?
  }

  lemma InCount(list: seq<Buffer>, b: Buffer)
    ensures b in list <==> Count(list, b) > 0
  {}

  lemma ReleaseKeepsIn(f: Frame, step: Step, roster: Roster, k: Kind, b: Buffer)
    requires FrameOk(f, roster) && f.w.collector.IsDrained() && IsReturned(k) && Delivers(f, k) && step.Release?
    ensures var g := ApplyRelease(f, step.node, step.realTime, step.alive);
            b in PendingOf(g, k).buffers <==> b in PendingOf(f, k).buffers || Keeps(f, step, g, k, b)
  {
    ReleaseKeepsWanted(f, step.node, step.realTime, step.alive, roster, k, b);
    InCount(PendingOf(f, k).buffers, b);
    InCount(PendingOf(ApplyRelease(f, step.node, step.realTime, step.alive), k).buffers, b);
  }

  lemma OthersKeepIn(f: Frame, step: Step, roster: Roster, given: set<ItemId>, k: Kind)
    requires RunOk(f, roster, given) && Allowed(f, step) && IsReturned(k) && !step.Release?
    ensures PendingOf(Next(f, step), k).buffers == if Empties(step, k) then [] else PendingOf(f, k).buffers
  {
    if step.PreRelease? {
      assert PendingOf(Next(f, step), k) == PendingOf(f, k);
    } else {
      NextIdles(f, step, roster, given);
    }
  }

  lemma NextKeeps(f: Frame, step: Step, roster: Roster, given: set<ItemId>, k: Kind, b: Buffer)
    requires RunOk(f, roster, given) && Allowed(f, step) && IsReturned(k) && Delivers(f, k)
    ensures var g := Next(f, step);
            b in PendingOf(g, k).buffers <==>
            (b in PendingOf(f, k).buffers && !Empties(step, k)) || Keeps(f, step, g, k, b)
  {
    if step.Release? {
      ReleaseKeepsIn(f, step, roster, k, b);
    } else {
      OthersKeepIn(f, step, roster, given, k);
    }
  }

  /** Step `m` kept the buffer back, and nobody has fetched it before `k`. */
  ghost predicate KeptSince(states: seq<Frame>, steps: seq<Step>, m: nat, k: nat, kind: Kind, b: Buffer)
    requires m < k <= |steps| && |states| == |steps| + 1 && IsReturned(kind)
  {
    Keeps(states[m], steps[m], states[m + 1], kind, b) && forall j | m < j < k :: !Empties(steps[j], kind)
  }

  ghost predicate IsKept(states: seq<Frame>, steps: seq<Step>, k: nat, kind: Kind, b: Buffer)
    requires k <= |steps| && |states| == |steps| + 1 && IsReturned(kind)
  {
    exists m :: 0 <= m < k && KeptSince(states, steps, m, k, kind, b)
  }

  lemma KeptNext(states: seq<Frame>, steps: seq<Step>, k: nat, kind: Kind, b: Buffer)
    requires k < |steps| && |states| == |steps| + 1 && IsReturned(kind)
    ensures IsKept(states, steps, k + 1, kind, b) <==>
            (IsKept(states, steps, k, kind, b) && !Empties(steps[k], kind)) ||
            Keeps(states[k], steps[k], states[k + 1], kind, b)
  {
    if IsKept(states, steps, k + 1, kind, b) {
      var m :| 0 <= m < k + 1 && KeptSince(states, steps, m, k + 1, kind, b);
      assert m < k ==> KeptSince(states, steps, m, k, kind, b) && !Empties(steps[k], kind);
    }
    if IsKept(states, steps, k, kind, b) && !Empties(steps[k], kind) {
      var m :| 0 <= m < k && KeptSince(states, steps, m, k, kind, b);
      assert KeptSince(states, steps, m, k + 1, kind, b);
    }
    if Keeps(states[k], steps[k], states[k + 1], kind, b) {
      assert KeptSince(states, steps, k, k + 1, kind, b);
    }
  }

  lemma StepKeeps(states: seq<Frame>, steps: seq<Step>, s: Setup, k: nat, kind: Kind, b: Buffer)
    requires SetupOk(s) && IsRun(states, steps) && states[0] == Configured(s) && k < |steps| && IsReturned(kind)
    requires b in PendingOf(states[k], kind).buffers <==> IsKept(states, steps, k, kind, b)
    ensures b in PendingOf(states[k + 1], kind).buffers <==> IsKept(states, steps, k + 1, kind, b)
  {
    AlwaysDelivers(states, steps, s, k, kind);
    NextKeeps(states[k], steps[k], RosterOf(s), Given(s), kind, b);
    KeptNext(states, steps, k, kind, b);
  }

  ghost predicate PendingIsKept(states: seq<Frame>, steps: seq<Step>, k: nat, kind: Kind, b: Buffer)
    requires k <= |steps| && |states| == |steps| + 1 && IsReturned(kind)
  {
    b in PendingOf(states[k], kind).buffers <==> IsKept(states, steps, k, kind, b)
  }

  lemma {:induction false} KeptOn(states: seq<Frame>, steps: seq<Step>, kind: Kind, b: Buffer, k: nat)
    requires |states| == |steps| + 1 && k <= |steps| && IsReturned(kind) && PendingIsKept(states, steps, 0, kind, b)
    requires forall j: nat | j < k && PendingIsKept(states, steps, j, kind, b) :: PendingIsKept(states, steps, j + 1, kind, b)
    ensures PendingIsKept(states, steps, k, kind, b)
  {
    if k > 0 {
      KeptOn(states, steps, kind, b, k - 1);
      assert PendingIsKept(states, steps, k - 1, kind, b);
    }
  }

  /** Over every run: a buffer is pending if and only if an apply has freed it while its kind was kept and its stream
      was a target, or there was no target, and, if it is a Hal image, no transfer came after. */
  lemma PendingIff(states: seq<Frame>, steps: seq<Step>, s: Setup, k: nat, kind: Kind, b: Buffer)
    requires SetupOk(s) && IsRun(states, steps) && states[0] == Configured(s) && k <= |steps| && IsReturned(kind)
    ensures b in PendingOf(states[k], kind).buffers <==> IsKept(states, steps, k, kind, b)
  {
    NothingPending(s, kind);
    forall j: nat | j < k && PendingIsKept(states, steps, j, kind, b)
      ensures PendingIsKept(states, steps, j + 1, kind, b)
    {
      StepKeeps(states, steps, s, j, kind, b);
    }
    KeptOn(states, steps, kind, b, k);
  }

  lemma NothingPending(s: Setup, kind: Kind)
    requires SetupOk(s) && IsReturned(kind)
    ensures PendingOf(Configured(s), kind) == Pending(false, {}, [])
  {}

  // ---------------------------------------------------------------- what is kept

  /** What a call of configureInformationKeeping asks for; App metas are kept without a target. */
  function AsksToKeep(step: Step, k: Kind): bool {
    step.Keep? && if k == HalImage then step.keepImage else if k == HalMeta then step.keepHalMeta else step.keepAppMeta
  }

  function TargetIn(step: Step, k: Kind): set<StreamId> {
    if !step.Keep? || !AsksToKeep(step, k) then {}
    else if k == HalImage then step.images
    else if k == HalMeta then step.halMetas
    else {}
  }

  /** The last such call before `k`. */
  predicate LastAsk(steps: seq<Step>, m: nat, k: nat) {
    m < k <= |steps| && steps[m].Keep? && forall j | m < j < k :: !steps[j].Keep?
  }

  /** The last one that names a target for the kind. */
  predicate LastTarget(steps: seq<Step>, m: nat, k: nat, kind: Kind) {
    m < k <= |steps| && TargetIn(steps[m], kind) != {} && forall j | m < j < k :: TargetIn(steps[j], kind) == {}
  }

  lemma ReleaseSetting(f: Frame, n: NodeId, realTime: bool, alive: Alive, k: Kind)
    requires Closed(f) && KeysKnown(f.w, f.w.halKeys) && IsReturned(k)
    ensures var p, q := PendingOf(f, k), PendingOf(ApplyRelease(f, n, realTime, alive), k);
            q.keep == p.keep && q.target == p.target
  {
    CollectingOut(f, n, k);
    HandleReleasedReturns(Collecting(f, n), n, !f.preApplied && alive.appCallback, realTime, alive.processor, k);
  }

  /** No other step touches the setting. */
  lemma SameSetting(f: Frame, step: Step, roster: Roster, given: set<ItemId>, k: Kind)
    requires RunOk(f, roster, given) && Allowed(f, step) && IsReturned(k) && !step.Keep?
    ensures var p, q := PendingOf(f, k), PendingOf(Next(f, step), k); q.keep == p.keep && q.target == p.target
  {
    if step.PreRelease? {
      assert PendingOf(Next(f, step), k) == PendingOf(f, k);
    } else if step.Release? {
      ReleaseSetting(f, step.node, step.realTime, step.alive, k);
    } else if step.Mark? || step.Get? || step.MarkBuffer? {
      NextQuiet(f, step, roster, given);
    }
  }

  lemma NextSetting(f: Frame, step: Step, roster: Roster, given: set<ItemId>, k: Kind)
    requires RunOk(f, roster, given) && Allowed(f, step) && IsReturned(k)
    requires k == AppMeta ==> f.pendingAppMeta.target == {}
    ensures var p, q := PendingOf(f, k), PendingOf(Next(f, step), k);
            && q.keep == (if step.Keep? then AsksToKeep(step, k) else p.keep)
            && q.target == if TargetIn(step, k) != {} then TargetIn(step, k) else p.target
  {
    if !step.Keep? {
      SameSetting(f, step, roster, given, k);
    }
  }

  lemma StepSetting(states: seq<Frame>, steps: seq<Step>, roster: Roster, given: set<ItemId>, k: nat, kind: Kind)
    requires IsRun(states, steps) && RunOk(states[0], roster, given) && k < |steps| && IsReturned(kind)
    requires kind == AppMeta ==> states[k].pendingAppMeta.target == {}
    ensures var p, q := PendingOf(states[k], kind), PendingOf(states[k + 1], kind);
            && q.keep == (if steps[k].Keep? then AsksToKeep(steps[k], kind) else p.keep)
            && q.target == if TargetIn(steps[k], kind) != {} then TargetIn(steps[k], kind) else p.target
  {
    RunKeeps(states, steps, roster, given, k);
    NextSetting(states[k], steps[k], roster, given, kind);
  }

  ghost predicate KeepIs(steps: seq<Step>, k: nat, kind: Kind, keep: bool)
    requires k <= |steps|
  {
    && (forall m: nat | LastAsk(steps, m, k) :: keep == AsksToKeep(steps[m], kind))
    && ((forall m | 0 <= m < k :: !steps[m].Keep?) ==> !keep)
  }

  ghost predicate TargetIs(steps: seq<Step>, k: nat, kind: Kind, target: set<StreamId>)
    requires k <= |steps|
  {
    && (forall m: nat | LastTarget(steps, m, k, kind) :: target == TargetIn(steps[m], kind))
    && ((forall m | 0 <= m < k :: TargetIn(steps[m], kind) == {}) ==> target == {})
  }

  ghost predicate SettingIs(steps: seq<Step>, k: nat, kind: Kind, p: Pending)
    requires k <= |steps|
  {
    KeepIs(steps, k, kind, p.keep) && TargetIs(steps, k, kind, p.target)
  }

  lemma KeepNext(steps: seq<Step>, k: nat, kind: Kind, keep: bool)
    requires k < |steps| && KeepIs(steps, k, kind, keep)
    ensures KeepIs(steps, k + 1, kind, if steps[k].Keep? then AsksToKeep(steps[k], kind) else keep)
  {
    var r := if steps[k].Keep? then AsksToKeep(steps[k], kind) else keep;
    forall m: nat | LastAsk(steps, m, k + 1)
      ensures r == AsksToKeep(steps[m], kind)
    {
      if m < k {
        assert !steps[k].Keep? && LastAsk(steps, m, k);
      }
    }
  }

  lemma TargetNext(steps: seq<Step>, k: nat, kind: Kind, target: set<StreamId>)
    requires k < |steps| && TargetIs(steps, k, kind, target)
    ensures TargetIs(steps, k + 1, kind, if TargetIn(steps[k], kind) != {} then TargetIn(steps[k], kind) else target)
  {
    var r := if TargetIn(steps[k], kind) != {} then TargetIn(steps[k], kind) else target;
    forall m: nat | LastTarget(steps, m, k + 1, kind)
      ensures r == TargetIn(steps[m], kind)
    {
      if m < k {
        assert TargetIn(steps[k], kind) == {} && LastTarget(steps, m, k, kind);
      }
    }
  }

  lemma SettingNext(steps: seq<Step>, k: nat, kind: Kind, p: Pending, q: Pending)
    requires k < |steps| && SettingIs(steps, k, kind, p)
    requires q.keep == if steps[k].Keep? then AsksToKeep(steps[k], kind) else p.keep
    requires q.target == if TargetIn(steps[k], kind) != {} then TargetIn(steps[k], kind) else p.target
    ensures SettingIs(steps, k + 1, kind, q)
  {
    KeepNext(steps, k, kind, p.keep);
    TargetNext(steps, k, kind, p.target);
  }

  ghost predicate SettingHolds(f: Frame, steps: seq<Step>, k: nat, kind: Kind)
    requires k <= |steps| && IsReturned(kind)
  {
    SettingIs(steps, k, kind, PendingOf(f, kind)) && (kind == AppMeta ==> f.pendingAppMeta.target == {})
  }

  lemma {:induction false} SetOn(states: seq<Frame>, steps: seq<Step>, kind: Kind, k: nat)
    requires |states| == |steps| + 1 && k <= |steps| && IsReturned(kind) && SettingHolds(states[0], steps, 0, kind)
    requires forall j: nat | j < k && SettingHolds(states[j], steps, j, kind) :: SettingHolds(states[j + 1], steps, j + 1, kind)
    ensures SettingHolds(states[k], steps, k, kind)
  {
    if k > 0 {
      SetOn(states, steps, kind, k - 1);
      assert SettingHolds(states[k - 1], steps, k - 1, kind);
    }
  }

  lemma RunSetting(states: seq<Frame>, steps: seq<Step>, roster: Roster, given: set<ItemId>, k: nat, kind: Kind)
    requires IsRun(states, steps) && RunOk(states[0], roster, given) && k <= |steps| && IsReturned(kind)
    requires PendingOf(states[0], kind) == Pending(false, {}, [])
    ensures SettingIs(steps, k, kind, PendingOf(states[k], kind))
  {
    forall j: nat | j < k && SettingHolds(states[j], steps, j, kind)
      ensures SettingHolds(states[j + 1], steps, j + 1, kind)
    {
      StepSetting(states, steps, roster, given, j, kind);
      SettingNext(steps, j, kind, PendingOf(states[j], kind), PendingOf(states[j + 1], kind));
    }
    SetOn(states, steps, kind, k);
  }

  /** What is kept at a point of a run: the last call of configureInformationKeeping says whether a kind is kept, and the
      last one that kept it with streams named has set its target. */
  lemma KeepingFollowsCalls(states: seq<Frame>, steps: seq<Step>, s: Setup, k: nat, kind: Kind)
    requires SetupOk(s) && IsRun(states, steps) && states[0] == Configured(s) && k <= |steps| && IsReturned(kind)
    ensures SettingIs(steps, k, kind, PendingOf(states[k], kind))
  {
    ConfiguredOk(s);
    NothingPending(s, kind);
    RunSetting(states, steps, RosterOf(s), Given(s), k, kind);
  }
}

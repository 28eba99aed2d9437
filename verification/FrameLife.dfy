/** A frame from its configuration to its end: what the in-flight count tells about the items, and where every
    Hal image buffer has gone. */
module FrameLife {
  import opened Users
  import opened Wrappers
  import opened FrameModel
  import opened WorldFacts
  import opened FrameInvariant
  import opened Conservation
  import opened MetaReport
  import opened FrameRuns
  import opened FrameConfiguration

  // ---------------------------------------------------------------- one item

  /** Until it is released an item has the users it was given; an item that nobody lists is never released,
      unless it is a Hal image, which the AIAWB branch frees. */
  ghost predicate Follows(f: Frame, i: ItemId, listers: set<NodeId>) {
    && i in f.w.items
    && (i in f.w.mapped ==> f.w.items[i].users.producers + f.w.items[i].users.consumers == listers)
    && (listers == {} && i.kind != HalImage ==> i in f.w.mapped && !ListedBySome(f.nodes, i))
  }

  lemma RefinedFollows(f: Frame, g: Frame, i: ItemId, listers: set<NodeId>)
    requires Follows(f, i, listers) && Refined(f.w, g.w) && g.nodes == f.nodes
    ensures Follows(g, i, listers)
  {
    assert Grows(f.w.items[i].users, g.w.items[i].users);
  }

  lemma SameUsersFollows(f: Frame, g: Frame, i: ItemId, listers: set<NodeId>)
    requires Follows(f, i, listers) && Bookkept(f.w, g.w) && g.w.mapped <= f.w.mapped
    requires i in f.w.mapped && i.kind != HalImage && !ListedBySome(f.nodes, i) ==>
               i in g.w.mapped && !ListedBySome(g.nodes, i)
    ensures Follows(g, i, listers)
  {
    assert SameButBits(f.w.items[i], g.w.items[i]);
  }

  lemma RunUpdaterUnlisted(f: Frame, n: NodeId, i: ItemId, roster: Roster)
    requires FrameOk(f, roster) && i in f.w.mapped && !ListedBySome(f.nodes, i)
    ensures var r := RunUpdater(f, n).f; i in r.w.mapped && !ListedBySome(r.nodes, i)
  {
    if n in f.nodes {
      assert KnownNode(f.w, f.nodes[n]);
      UpdateNodeEffect(f.w, n, f.nodes[n]);
      ListedMembers(f.nodes[n]);
      var r := RunUpdater(f, n).f;
      forall m | m in r.nodes
        ensures !r.nodes[m].Lists(i)
      {
        assert !f.nodes[m].Lists(i);
      }
    }
  }

  lemma RunUpdaterUnmaps(f: Frame, n: NodeId, roster: Roster)
    requires FrameOk(f, roster)
    ensures RunUpdater(f, n).f.w.mapped <= f.w.mapped
  {
    if n in f.nodes {
      assert KnownNode(f.w, f.nodes[n]);
      UpdateNodeEffect(f.w, n, f.nodes[n]);
      RunUpdaterOk(f, n, roster);
    }
  }

  lemma RunUpdaterFollows(f: Frame, n: NodeId, roster: Roster, i: ItemId, listers: set<NodeId>)
    requires FrameOk(f, roster) && Follows(f, i, listers)
    ensures Follows(RunUpdater(f, n).f, i, listers)
  {
    RunUpdaterBookkept(f, n, roster);
    RunUpdaterUnmaps(f, n, roster);
    if i in f.w.mapped && !ListedBySome(f.nodes, i) {
      RunUpdaterUnlisted(f, n, i, roster);
    }
    SameUsersFollows(f, RunUpdater(f, n).f, i, listers);
  }

  lemma AiawbFollows(f: Frame, n: NodeId, i: ItemId, listers: set<NodeId>)
    requires WorldOk(f.w) && KeysKnown(f.w, f.w.halKeys) && Follows(f, i, listers)
    ensures Follows(AiawbRelease(f, n), i, listers)
  {
    ReleaseDoneImagesOk(f.w, f.w.halKeys);
    ReleaseDoneImagesBookkept(f.w, f.w.halKeys);
    SameUsersFollows(f, f.(w := ReleaseDoneImages(f.w, f.w.halKeys)), i, listers);
  }

  lemma ApplyReleaseFollows(f: Frame, n: NodeId, realTime: bool, alive: Alive, roster: Roster,
                            i: ItemId, listers: set<NodeId>)
    requires FrameOk(f, roster) && Follows(f, i, listers)
    ensures Follows(ApplyRelease(f, n, realTime, alive), i, listers)
  {
    UpdateKeepsKeys(f, n);
    UpdateForReleaseOk(f, n, roster);
    RunUpdaterFollows(f, n, roster, i, listers);
    AiawbFollows(UpdateForRelease(f, n).f, n, i, listers);
  }

  lemma ApplyPreReleaseFollows(f: Frame, n: NodeId, alive: Alive, roster: Roster, i: ItemId, listers: set<NodeId>)
    requires FrameOk(f, roster) && Follows(f, i, listers)
    ensures Follows(ApplyPreRelease(f, n, alive), i, listers)
  {
    RunUpdaterFollows(f, n, roster, i, listers);
  }

  lemma TransferFollows(f: Frame, roster: Roster, i: ItemId, listers: set<NodeId>)
    requires FrameOk(f, roster) && Conserved(f) && Follows(f, i, listers)
    ensures Follows(TransferImages(f), i, listers)
  {
    TransferBooks(f);
    ResetUsersEffect(f.w.items, f.pendingImage.buffers);
  }

  lemma NextFollows(f: Frame, step: Step, roster: Roster, given: set<ItemId>, i: ItemId, listers: set<NodeId>)
    requires RunOk(f, roster, given) && Allowed(f, step) && Follows(f, i, listers)
    requires !(step.AddConsumer? && step.item == i)
    ensures Follows(Next(f, step), i, listers)
  {
    match step
    case Mark(s, u, status) =>
      var j := FindItem(f.w, s);
      if j.Some? && j.value in f.w.mapped && j.value in f.w.items {
        MarkItemOk(f, j.value, u, status, roster);
        RefinedFollows(f, MarkItem(f, j.value, u, status), i, listers);
      }
    case Get(image, s, u, halAsk, appAsk) =>
      GetStreamOk(f, image, s, u, halAsk, appAsk, roster);
      GetStreamQuiet(f, image, s, u, halAsk, appAsk, roster, given);
      RefinedFollows(f, GetStream(f, image, s, u, halAsk, appAsk).f, i, listers);
    case MarkBuffer(j, u, status) =>
      MarkItemOk(f, j, u, status, roster);
      RefinedFollows(f, MarkItem(f, j, u, status), i, listers);
    case Release(n, realTime, alive) => ApplyReleaseFollows(f, n, realTime, alive, roster, i, listers);
    case PreRelease(n, alive) => ApplyPreReleaseFollows(f, n, alive, roster, i, listers);
    case Transfer => TransferFollows(f, roster, i, listers);
    case AddConsumer(j, u) =>
    case Keep(_, _, _, _, _) =>
  }

  lemma {:induction false} RunFollows(states: seq<Frame>, steps: seq<Step>, roster: Roster, given: set<ItemId>,
                                      i: ItemId, listers: set<NodeId>, k: nat)
    requires IsRun(states, steps) && RunOk(states[0], roster, given) && Follows(states[0], i, listers)
    requires k <= |steps| && forall u :: AddConsumer(i, u) !in steps
    ensures Follows(states[k], i, listers)
  {
    if k > 0 {
      RunFollows(states, steps, roster, given, i, listers, k - 1);
      StepFollows(states, steps, roster, given, i, listers, k - 1);
    }
  }

  lemma StepFollows(states: seq<Frame>, steps: seq<Step>, roster: Roster, given: set<ItemId>,
                    i: ItemId, listers: set<NodeId>, k: nat)
    requires IsRun(states, steps) && RunOk(states[0], roster, given)
    requires k < |steps| && Follows(states[k], i, listers) && forall u :: AddConsumer(i, u) !in steps
    ensures Follows(states[k + 1], i, listers)
  {
    RunKeeps(states, steps, roster, given, k);
    assert steps[k] in steps;
    NextFollows(states[k], steps[k], roster, given, i, listers);
  }

  lemma ConfiguredFollows(s: Setup, i: ItemId)
    requires SetupOk(s) && i in Configured(s).w.items
    ensures Follows(Configured(s), i, Listers(s, i))
  {
    var f := Configured(s);
    FreshItem(s, i);
    assert UsersOf(s, i).producers + UsersOf(s, i).consumers == Listers(s, i);
    if Listers(s, i) == {} {
      ConfiguredLists(s);
      forall n | n in f.nodes
        ensures !f.nodes[n].Lists(i)
      {
        assert n !in Listers(s, i);
      }
    }
  }

  /** When the in-flight count of a frame has come down to zero, an item has been released if and only if some
      node of the frame's plan reads or writes it. */
  lemma CountZeroTellsReleased(states: seq<Frame>, steps: seq<Step>, s: Setup, i: ItemId, k: nat)
    requires SetupOk(s) && IsRun(states, steps) && states[0] == Configured(s) && k <= |steps|
    requires i in Configured(s).w.items && forall u :: AddConsumer(i, u) !in steps
    requires i.kind != HalImage || Listers(s, i) != {}
    requires states[k].inFlight == 0
    ensures i !in states[k].w.mapped <==> Listers(s, i) != {}
  {
    ConfiguredOk(s);
    RunKeeps(states, steps, RosterOf(s), Given(s), k);
    ConfiguredFollows(s, i);
    RunFollows(states, steps, RosterOf(s), Given(s), i, Listers(s, i), k);
    FrameDoneIsSound(states[k], RosterOf(s));
  }

  // ---------------------------------------------------------------- the end

  /** The result processor can be reached whenever the step returns buffers. */
  predicate Reaches(step: Step) {
    step.Release? ==> step.alive.processor
  }

  lemma {:induction false} RunLosesNothing(states: seq<Frame>, steps: seq<Step>, k: nat)
    requires IsRun(states, steps) && k <= |steps| && forall s | s in steps :: Reaches(s)
    ensures states[k].out.lost == states[0].out.lost
  {
    if k > 0 {
      RunLosesNothing(states, steps, k - 1);
      assert steps[k - 1] in steps;
      NextLosesNothing(states[k - 1], steps[k - 1]);
    }
  }

  lemma GetLosesNothing(f: Frame, i: ItemId, u: UserId, ask: Outcome)
    ensures GetBuffer(f, i, u, ask).f.out.lost == f.out.lost
  {
    GetBufferFrame(f, i, u, ask);
  }

  lemma NextLosesNothing(f: Frame, step: Step)
    requires Closed(f) && KeysKnown(f.w, f.w.halKeys) && Allowed(f, step) && Reaches(step)
    ensures Next(f, step).out.lost == f.out.lost
  {
    match step
    case Get(image, s, u, halAsk, appAsk) =>
      var hal, app := ItemId(if image then HalImage else HalMeta, s), ItemId(if image then AppImage else AppMeta, s);
      GetLosesNothing(f, hal, u, halAsk);
      GetLosesNothing(GetBuffer(f, hal, u, halAsk).f, app, u, appAsk);
    case Release(n, _, _) =>
      UpdateKeepsKeys(f, n);
      assert AiawbRelease(UpdateForRelease(f, n).f, n).out == f.out;
    case _ =>
  }

  /** The buffer is the one that its Hal image item got, now or earlier. */
  ghost predicate Owned(w: World, b: Buffer) {
    var i := ItemId(HalImage, b.stream);
    i in w.items && w.items[i].buffer == Some(b)
  }

  /** A Hal image that a frame owned at any time is its own for good. */
  lemma OwnedStays(states: seq<Frame>, steps: seq<Step>, s: Setup, b: Buffer, j: nat, k: nat)
    requires SetupOk(s) && IsRun(states, steps) && states[0] == Configured(s) && j <= k <= |steps|
    requires Owned(states[j].w, b)
    ensures Owned(states[k].w, b)
  {
    ConfiguredOk(s);
    RunStays(states, steps, RosterOf(s), Given(s), j, k);
  }

  /** The frame owned the image at some point of the run. */
  ghost predicate EverOwned(states: seq<Frame>, b: Buffer) {
    exists j :: 0 <= j < |states| && Owned(states[j].w, b)
  }

  lemma OwnedAtEnd(states: seq<Frame>, steps: seq<Step>, s: Setup, b: Buffer)
    requires SetupOk(s) && IsRun(states, steps) && states[0] == Configured(s)
    ensures EverOwned(states, b) <==> Owned(states[|steps|].w, b)
  {
    if EverOwned(states, b) {
      var j :| 0 <= j < |states| && Owned(states[j].w, b);
      OwnedStays(states, steps, s, b, j, |steps|);
    }
  }

  /** A frame destroyed after any run, with a live result processor throughout, has passed on every Hal image it
      ever had exactly once: to the processor, to the caller that transferred it, or to a pre-release. */
  lemma EveryImageLeavesOnce(states: seq<Frame>, steps: seq<Step>, s: Setup, alive: Alive, b: Buffer)
    requires alive.processor
    requires SetupOk(s) && IsRun(states, steps) && states[0] == Configured(s)
    requires forall t | t in steps :: Reaches(t)
    ensures KeysKnown(states[|steps|].w, states[|steps|].w.halKeys)
    ensures var out := Destroy(states[|steps|], alive).out;
            && out.lost == []
            && ImagesSent(out.sent)[b] + Count(out.transferred, b) + Count(out.dropped, b)
               == if EverOwned(states, b) then 1 else 0
  {
    ConfiguredOk(s);
    RunKeeps(states, steps, RosterOf(s), Given(s), |steps|);
    RunLosesNothing(states, steps, |steps|);
    DestroyReturnsTheRest(states[|steps|], alive, RosterOf(s), b);
    OwnedAtEnd(states, steps, s, b);
  }

  // ---------------------------------------------------------------- what the application was told

  /** Late consumers are for images. */
  lemma MetasGetNoConsumer(states: seq<Frame>, steps: seq<Step>, i: ItemId)
    requires IsRun(states, steps) && IsMeta(i.kind)
    ensures forall u :: AddConsumer(i, u) !in steps
  {
    forall u
      ensures AddConsumer(i, u) !in steps
    {
      forall m | 0 <= m < |steps|
        ensures steps[m] != AddConsumer(i, u)
      {
        assert Allowed(states[m], steps[m]);
      }
    }
  }

  /** When the in-flight count has come down to zero and every report was heard, the application has been told of
      every meta buffer that some node of the plan writes, exactly once each. */
  lemma CountZeroToldOnce(states: seq<Frame>, steps: seq<Step>, s: Setup, i: ItemId, b: Buffer, k: nat, n: NodeId)
    requires SetupOk(s) && IsRun(states, steps) && states[0] == Configured(s) && k <= |steps|
    requires forall t | t in steps :: Heard(t)
    requires i in Configured(s).w.items && IsMeta(i.kind) && n in s.plan && i.stream in s.plan[n].outMeta
    requires Configured(s).w.items[i].buffer == Some(b) && states[k].inFlight == 0
    ensures Told(states[k].out.updates, i.kind)[b] == 1
  {
    assert n in UsersOf(s, i).producers;
    assert i !in states[k].w.mapped by {
      assert UsersOf(s, i).producers <= Listers(s, i);
      MetasGetNoConsumer(states, steps, i);
      CountZeroTellsReleased(states, steps, s, i, k);
    }
    ConfiguredOk(s);
    RunTellsOnce(states, steps, RosterOf(s), Given(s), i.kind, k);
    assert Seen(states[k].w, i.kind, b) by {
      MetaGoneIsSeen(states, steps, s, i, b, k);
    }
  }

  lemma MetaGoneIsSeen(states: seq<Frame>, steps: seq<Step>, s: Setup, i: ItemId, b: Buffer, k: nat)
    requires SetupOk(s) && IsRun(states, steps) && states[0] == Configured(s) && k <= |steps|
    requires i in Configured(s).w.items && IsMeta(i.kind) && UsersOf(s, i).producers != {}
    requires Configured(s).w.items[i].buffer == Some(b) && i !in states[k].w.mapped
    ensures Seen(states[k].w, i.kind, b)
  {
    ConfiguredOk(s);
    RunStays(states, steps, RosterOf(s), Given(s), 0, k);
    RunKeeps(states, steps, RosterOf(s), Given(s), k);
    FreshItem(s, i);
    assert b.stream == i.stream by {
      ConfiguredItemsOk(s);
      assert ItemOk(Configured(s).w, i);
    }
    GoneIsSeen(Configured(s).w, states[k].w, i, b);
  }

  lemma GoneIsSeen(w: World, r: World, i: ItemId, b: Buffer)
    requires Stays(w, r) && ItemsOk(r) && i in w.items && IsMeta(i.kind) && b.stream == i.stream
    requires Produced(w.items[i]) && w.items[i].buffer == Some(b) && i !in r.mapped
    ensures Seen(r, i.kind, b)
  {
    assert ItemOk(r, i);
  }

  /** The item is an App meta of stream `st` that node `n` alone writes, and node `m` has nothing to do with it. */
  ghost predicate WrittenAside(s: Setup, st: StreamId, n: NodeId, m: NodeId)
    requires SetupOk(s)
  {
    var i := ItemId(AppMeta, st);
    && i in Configured(s).w.items && ItemId(AppImage, st) !in Configured(s).w.items
    && UsersOf(s, i).producers == {n} && m !in Listers(s, i)
  }

  /** The one producer of an item marks RELEASE on it. */
  lemma SoleProducerMarks(f: Frame, st: StreamId, n: NodeId)
    requires var i := ItemId(AppMeta, st);
             && i in f.w.items && i in f.w.mapped && ItemId(AppImage, st) !in f.w.items
             && f.w.items[i].users.active && f.w.items[i].users.producers == {n} && !f.w.items[i].producersReleased
    ensures var i, g := ItemId(AppMeta, st), MarkUserStatus(f, st, n, RELEASE);
            && i in g.w.items && g.nodes == f.nodes && !g.w.items[i].producersReleased
            && Produced(g.w.items[i]) && g.w.items[i].users.ProducersDone()
  {
    assert FindItem(f.w, st) == Some(ItemId(AppMeta, st));
    assert n in f.w.items[ItemId(AppMeta, st)].users.producers;
  }

  /** Once node `n` has let go of the meta, the stream is done, but the apply of node `m` does not see it. */
  lemma MarkedAside(s: Setup, st: StreamId, n: NodeId, m: NodeId)
    requires SetupOk(s) && WrittenAside(s, st, n, m)
    ensures !AllSeen(MarkUserStatus(Configured(s), st, n, RELEASE), m, AppMeta)
  {
    FreshItem(s, ItemId(AppMeta, st));
    SoleProducerMarks(Configured(s), st, n);
    ConfiguredLists(s);
    assert !SeenBy(MarkUserStatus(Configured(s), st, n, RELEASE), m, ItemId(AppMeta, st));
  }

  /** The callback between the two reports more App metas as outstanding than there were streams with producers that
      were not done. */
  ghost predicate Overcounts(f: Frame, g: Frame) {
    |f.out.updates| < |g.out.updates| && LeftIn(g.out.updates[|f.out.updates|], AppMeta) > |NotDone(f.w, AppMeta)|
  }

  lemma ApplyOvercounts(g: Frame, m: NodeId, roster: Roster, given: set<ItemId>) returns (step: Step, h: Frame)
    requires RunOk(g, roster, given) && !g.preApplied && !AllSeen(g, m, AppMeta)
    ensures OneStep(g, step, h) && step.Release? && Overcounts(g, h)
  {
    step := Release(m, false, Alive(true, true));
    h := Next(g, step);
    LeftIsExactIff(g, m, false, Alive(true, true), roster, AppMeta);
  }

  ghost predicate OneStep(f: Frame, step: Step, g: Frame) {
    Closed(f) && KeysKnown(f.w, f.w.halKeys) && Allowed(f, step) && g == Next(f, step)
  }

  lemma TwoSteps(states: seq<Frame>, steps: seq<Step>)
    requires |states| == 3 && |steps| == 2
    requires OneStep(states[0], steps[0], states[1]) && OneStep(states[1], steps[1], states[2])
    ensures IsRun(states, steps)
  {}

  lemma MarkStep(s: Setup, st: StreamId, n: NodeId, m: NodeId) returns (step: Step, g: Frame)
    requires SetupOk(s) && WrittenAside(s, st, n, m)
    ensures OneStep(Configured(s), step, g) && RunOk(g, RosterOf(s), Given(s))
    ensures !g.preApplied && !AllSeen(g, m, AppMeta)
  {
    ConfiguredOk(s);
    step := Mark(st, n, RELEASE);
    g := MarkUserStatus(Configured(s), st, n, RELEASE);
    NextRun(Configured(s), step, RosterOf(s), Given(s));
    MarkedAside(s, st, n, m);
  }

  /** So "left" can be too large: in every frame with a node that alone writes an App meta and another node that has
      nothing to do with it, the first one lets go of the meta, the second one applies, and its callback still counts
      the stream. */
  lemma LeftOvercounts(s: Setup, st: StreamId, n: NodeId, m: NodeId) returns (states: seq<Frame>, steps: seq<Step>)
    requires SetupOk(s) && WrittenAside(s, st, n, m)
    ensures |states| == 3 && states[0] == Configured(s) && IsRun(states, steps) && Overcounts(states[1], states[2])
  {
    var mark, g := MarkStep(s, st, n, m);
    var apply, h := ApplyOvercounts(g, m, RosterOf(s), Given(s));
    states, steps := [Configured(s), g, h], [mark, apply];
    TwoSteps(states, steps);
  }

  /** Two nodes that write one meta stream each are enough. */
  lemma TwoWriters() returns (s: Setup)
    ensures SetupOk(s) && WrittenAside(s, 1, 1, 2)
  {
    var one, two := ItemId(AppMeta, 1), ItemId(AppMeta, 2);
    var writesOne, writesTwo := NodePlan([], [], [1], []), NodePlan([], [], [2], []);
    var items := [(one, Some(Buffer(1, 0))), (two, Some(Buffer(2, 0)))];
    s := Setup(items, [1, 2], map[1 := writesOne, 2 := writesTwo], map[1 := {}, 2 := {}]);
    assert s.items[0].0 == one && s.items[1].0 == two && s.order[0] == 1 && s.order[1] == 2;
    assert HasItem(s.items, false, 1) && HasItem(s.items, false, 2);
    assert ListedExist(s.items, writesOne) && ListedExist(s.items, writesTwo);
    OneWriter(s, writesOne, writesTwo);
    TwoMetas(s);
  }

  lemma TwoMetas(s: Setup)
    requires SetupOk(s) && |s.items| == 2 && s.items[0].0 == ItemId(AppMeta, 1) && s.items[1].0 == ItemId(AppMeta, 2)
    ensures ItemId(AppMeta, 1) in Configured(s).w.items && ItemId(AppImage, 1) !in Configured(s).w.items
  {
    ItemsThere(s);
  }

  lemma OneWriter(s: Setup, writesOne: NodePlan, writesTwo: NodePlan)
    requires writesOne == NodePlan([], [], [1], []) && writesTwo == NodePlan([], [], [2], [])
    requires s.plan == map[1 := writesOne, 2 := writesTwo]
    ensures UsersOf(s, ItemId(AppMeta, 1)).producers == {1} && 2 !in Listers(s, ItemId(AppMeta, 1))
  {}

  lemma ItemsThere(s: Setup)
    requires SetupOk(s)
    ensures forall i :: i in Configured(s).w.items <==> exists k :: 0 <= k < |s.items| && s.items[k].0 == i
  {
    AddAllLoads(s.items);
  }

  // ---------------------------------------------------------------- acquiring

  /** Once the provider has failed an image, a user that asks while the image is mapped gets nothing and is
      marked as having released it. */
  lemma LateAskerIsReleased(f: Frame, i: ItemId, u: UserId, ask: Outcome, roster: Roster)
    requires FrameOk(f, roster) && i in f.w.mapped && i in f.w.items && f.w.items[i].acquireFailed
    ensures var g := Acquire(f, i, u, ask);
            && g.item.None? && g.f.out.requests == f.out.requests && g.f.w.items[i].acquireFailed
            && (f.w.items[i].users.IsUser(u) ==> u in g.f.w.items[i].users.released)
  {
    assert ItemOk(f.w, i);
    assert i in OfKind(f.w.mapped, i.kind);
    assert f.w.counts.At(i.kind) == |OfKind(f.w.mapped, i.kind)|;
  }

  /** The provider is asked only for an image that has no buffer and has not failed, and the answer settles it:
      the item is acquired if and only if it got a buffer, and otherwise it has failed and the asker is marked RELEASE. */
  lemma AskingSettles(f: Frame, i: ItemId, u: UserId, ask: Outcome, roster: Roster)
    requires FrameOk(f, roster) && Honest(ask, i.stream)
    ensures var g := Acquire(f, i, u, ask).f;
            g.out.requests != f.out.requests ==>
              && g.out.requests == f.out.requests + [i] && i in f.w.items && IsImage(i.kind)
              && !f.w.items[i].acquired && !f.w.items[i].acquireFailed && f.w.items[i].buffer.None?
              && (g.w.items[i].acquired <==> ask.ok && ask.sb.Some?)
              && (g.w.items[i].acquireFailed <==> !(ask.ok && ask.sb.Some?))
              && g.w.items[i].buffer == (if ask.ok then ask.sb else None)
              && g.w.items[i].users.released == f.w.items[i].users.released +
                   (if !(ask.ok && ask.sb.Some?) && (u in f.w.items[i].users.producers || u in f.w.items[i].users.consumers)
                    then {u} else {})
  {
    if i in f.w.items {
      assert ItemOk(f.w, i);
    }
  }
}

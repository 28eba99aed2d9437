/** What a frame tells its listeners about a node: the message for output images, or for output metas, is there exactly
    when the node has let go of the outputs that its plan names. */
module NodeNotices {
  import opened Users
  import opened Wrappers
  import opened FrameModel
  import opened WorldFacts
  import opened FrameInvariant
  import opened Conservation
  import opened FrameRuns
  import opened FrameConfiguration

  // ---------------------------------------------------------------- the sets of a configured frame

  /** The set holds the items of these streams, in their order. */
  ghost predicate HoldsStreams(w: World, st: IOSet, image: bool, streams: seq<StreamId>) {
    && |st.ios| == |streams| && !st.notified
    && forall k | 0 <= k < |streams| ::
         st.ios[k] in w.items && st.ios[k].stream == streams[k] && IsImage(st.ios[k].kind) == image
  }

  lemma {:induction false} ItemsForStreams(s: Setup, image: bool, streams: seq<StreamId>)
    requires SetupOk(s) && forall st | st in streams :: HasItem(s.items, image, st)
    ensures var w := AddAll(NoItems(), s.items);
            HoldsStreams(w, IOSet(ItemsFor(w.mapped, image, streams), false), image, streams)
  {
    if streams != [] {
      var front, last := streams[..|streams| - 1], streams[|streams| - 1];
      assert streams == front + [last];
      ItemsForStreams(s, image, front);
      AddAllLoads(s.items);
      var w := AddAll(NoItems(), s.items);
      ItemForFinds(w, s.items, image, last);
      OneMoreStream(w, ItemsFor(w.mapped, image, front), ItemFor(w.mapped, image, last), image, front, last);
    }
  }

  lemma OneMoreStream(w: World, ios: seq<ItemId>, i: ItemId, image: bool, streams: seq<StreamId>, last: StreamId)
    requires HoldsStreams(w, IOSet(ios, false), image, streams)
    requires i in w.items && i.stream == last && IsImage(i.kind) == image
    ensures HoldsStreams(w, IOSet(ios + [i], false), image, streams + [last])
  {}

  lemma StatusForStreams(s: Setup, n: NodeId)
    requires SetupOk(s) && n in s.plan
    ensures var w, p := AddAll(NoItems(), s.items), s.plan[n]; var ns := StatusFor(w.mapped, p);
            && HoldsStreams(w, ns.outImage, true, p.outImage) && HoldsStreams(w, ns.inImage, true, p.inImage)
            && HoldsStreams(w, ns.outMeta, false, p.outMeta) && HoldsStreams(w, ns.inMeta, false, p.inMeta)
  {
    var p := s.plan[n];
    assert ListedExist(s.items, p);
    ItemsForStreams(s, true, p.outImage);
    ItemsForStreams(s, true, p.inImage);
    ItemsForStreams(s, false, p.outMeta);
    ItemsForStreams(s, false, p.inMeta);
  }

  /** finishConfigurationLocked: each of the four sets of a node holds the items of the streams that the plan lists under
      that name, in order; a node without streams is left out. */
  lemma ConfiguredSets(s: Setup, n: NodeId)
    requires SetupOk(s) && n in s.plan
    ensures var f, p := Configured(s), s.plan[n];
            && (n !in f.nodes <==> p == NodePlan([], [], [], []))
            && (n in f.nodes ==>
                  var ns := f.nodes[n];
                  && HoldsStreams(f.w, ns.outImage, true, p.outImage) && HoldsStreams(f.w, ns.inImage, true, p.inImage)
                  && HoldsStreams(f.w, ns.outMeta, false, p.outMeta) && HoldsStreams(f.w, ns.inMeta, false, p.inMeta))
  {
    StatusForStreams(s, n);
    NodesForMembers(AddAll(NoItems(), s.items).mapped, s.order, s.plan);
  }

  // ---------------------------------------------------------------- outputs

  function OutSet(ns: NodeStatus, m: Message): IOSet {
    if m == ALL_OUT_META_BUFFERS_RELEASED then ns.outMeta else ns.outImage
  }

  /** The message is about this item: the plan names its stream among the node's outputs of the sort. */
  predicate IsOutput(p: NodePlan, m: Message, i: ItemId) {
    if m == ALL_OUT_META_BUFFERS_RELEASED then !IsImage(i.kind) && i.stream in p.outMeta
    else IsImage(i.kind) && i.stream in p.outImage
  }

  /** The users are forgotten, or the node is one of them and has marked RELEASE or PRE_RELEASE. */
  predicate HasLetGo(us: Users, n: NodeId) {
    us.active ==> us.IsUser(n) && (n in us.released || n in us.preReleased)
  }

  ghost predicate OutputsLetGo(s: Setup, f: Frame, n: NodeId, m: Message)
    requires n in s.plan
  {
    forall i | i in f.w.items && IsOutput(s.plan[n], m, i) :: HasLetGo(f.w.items[i].users, n)
  }

  lemma KeepsOrLetGo(us: Users, n: NodeId)
    ensures HasLetGo(us, n) <==> !Keeps(us, n)
  {}

  /** A node lists the outputs it has not let go of, and lists only outputs, in the set of their sort. */
  ghost predicate NodeLists(s: Setup, w: World, n: NodeId, ns: NodeStatus, m: Message)
    requires n in s.plan
  {
    && (forall i | i in w.items && IsOutput(s.plan[n], m, i) && Keeps(w.items[i].users, n) :: i in OutSet(ns, m).ios)
    && (forall i | i in OutSet(ns, m).ios :: i in w.items && IsOutput(s.plan[n], m, i))
  }

  ghost predicate OutputsListed(s: Setup, f: Frame, m: Message) {
    forall n | n in f.nodes :: n in s.plan && NodeLists(s, f.w, n, f.nodes[n], m)
  }

  lemma HeldAreOutputs(w: World, st: IOSet, image: bool, streams: seq<StreamId>)
    requires HoldsStreams(w, st, image, streams)
    requires forall i, j | i in w.items && j in w.items && i.stream == j.stream && IsImage(i.kind) == IsImage(j.kind) :: i == j
    ensures forall i :: i in st.ios <==> i in w.items && IsImage(i.kind) == image && i.stream in streams
  {
    forall i | i in w.items && IsImage(i.kind) == image && i.stream in streams
      ensures i in st.ios
    {
      var k :| 0 <= k < |streams| && streams[k] == i.stream;
      assert st.ios[k] == i;
    }
  }

  lemma OneItemEach(s: Setup)
    requires SetupOk(s)
    ensures var w := Configured(s).w;
            forall i, j | i in w.items && j in w.items && i.stream == j.stream && IsImage(i.kind) == IsImage(j.kind) :: i == j
  {
    AddAllLoads(s.items);
    var w0, w := AddAll(NoItems(), s.items), Configured(s).w;
    forall i, j | i in w.items && j in w.items && i.stream == j.stream && IsImage(i.kind) == IsImage(j.kind)
      ensures i == j
    {
      var k := LoadedItem(w0, s.items, i);
      var l := LoadedItem(w0, s.items, j);
    }
  }

  lemma ConfiguredNodeLists(s: Setup, n: NodeId, m: Message)
    requires SetupOk(s) && n in s.plan && n in Configured(s).nodes
    ensures NodeLists(s, Configured(s).w, n, Configured(s).nodes[n], m)
  {
    var f := Configured(s);
    OneItemEach(s);
    ConfiguredSets(s, n);
    if m == ALL_OUT_META_BUFFERS_RELEASED {
      HeldAreOutputs(f.w, f.nodes[n].outMeta, false, s.plan[n].outMeta);
    } else {
      HeldAreOutputs(f.w, f.nodes[n].outImage, true, s.plan[n].outImage);
    }
  }

  lemma ConfiguredOutputs(s: Setup, m: Message)
    requires SetupOk(s)
    ensures OutputsListed(s, Configured(s), m)
  {
    NodesForMembers(AddAll(NoItems(), s.items).mapped, s.order, s.plan);
    forall n | n in Configured(s).nodes
      ensures n in s.plan && NodeLists(s, Configured(s).w, n, Configured(s).nodes[n], m)
    {
      ConfiguredNodeLists(s, n, m);
    }
  }

  // ---------------------------------------------------------------- steps

  /** Nobody takes back that it has let go. */
  ghost predicate LessKept(w: World, r: World) {
    && r.items.Keys == w.items.Keys
    && forall i, n | i in w.items && Keeps(r.items[i].users, n) :: Keeps(w.items[i].users, n)
  }

  lemma LessKeptTrans(w: World, m: World, r: World)
    requires LessKept(w, m) && LessKept(m, r)
    ensures LessKept(w, r)
  {}

  lemma RefinedLessKept(w: World, r: World)
    requires Refined(w, r)
    ensures LessKept(w, r)
  {
    forall i, n | i in w.items && Keeps(r.items[i].users, n)
      ensures Keeps(w.items[i].users, n)
    {
      assert Grows(w.items[i].users, r.items[i].users);
    }
  }

  lemma BookkeptLessKept(w: World, r: World)
    requires Bookkept(w, r)
    ensures LessKept(w, r)
  {
    forall i, n | i in w.items && Keeps(r.items[i].users, n)
      ensures Keeps(w.items[i].users, n)
    {
      assert SameButBits(w.items[i], r.items[i]);
    }
  }

  lemma LetGoStays(s: Setup, f: Frame, g: Frame, n: NodeId, m: Message)
    requires n in s.plan && OutputsLetGo(s, f, n, m) && LessKept(f.w, g.w)
    ensures OutputsLetGo(s, g, n, m)
  {
    forall i | i in g.w.items && IsOutput(s.plan[n], m, i)
      ensures HasLetGo(g.w.items[i].users, n)
    {
      KeepsOrLetGo(f.w.items[i].users, n);
      KeepsOrLetGo(g.w.items[i].users, n);
    }
  }

  lemma SameNodesListed(s: Setup, f: Frame, g: Frame, m: Message)
    requires OutputsListed(s, f, m) && LessKept(f.w, g.w) && g.nodes == f.nodes
    ensures OutputsListed(s, g, m)
  {
    forall n | n in g.nodes
      ensures n in s.plan && NodeLists(s, g.w, n, g.nodes[n], m)
    {
      assert NodeLists(s, f.w, n, f.nodes[n], m);
    }
  }

  /** Each output set is left with the items that the node keeps. */
  lemma UpdateNodeSets(w: World, n: NodeId, ns: NodeStatus, m: Message)
    requires WorldOk(w) && KnownNode(w, ns) && SetsOk(ns)
    ensures var u := UpdateNode(w, n, ns);
            && (forall i :: i in OutSet(u.ns, m).ios <==> i in OutSet(ns, m).ios && Keeps(w.items[i].users, n))
            && Settled(OutSet(u.ns, m)) && SetOk(OutSet(u.ns, m))
  {
    UpdateSetEffect(w, n, ns.outImage);
    var oi := UpdateSet(w, n, ns.outImage);
    UpdateSetEffect(oi.w, n, ns.inImage);
    var ii := UpdateSet(oi.w, n, ns.inImage);
    UpdateSetEffect(ii.w, n, ns.outMeta);
    UsersThrough(w, oi.w, n, ns.outImage.ios);
    UsersThrough(oi.w, ii.w, n, ns.inImage.ios);
  }

  lemma RunUpdaterListed(s: Setup, f: Frame, n: NodeId, roster: Roster, m: Message)
    requires FrameOk(f, roster) && OutputsListed(s, f, m)
    ensures var r := RunUpdater(f, n).f;
            && OutputsListed(s, r, m)
            && (n in f.nodes ==>
                  && n in r.nodes && Settled(OutSet(r.nodes[n], m)) && SetOk(OutSet(r.nodes[n], m))
                  && forall i | i in OutSet(r.nodes[n], m).ios :: i in r.w.items && Keeps(r.w.items[i].users, n))
  {
    var r := RunUpdater(f, n).f;
    RunUpdaterBookkept(f, n, roster);
    if n in f.nodes {
      assert KnownNode(f.w, f.nodes[n]);
      UpdateNodeSets(f.w, n, f.nodes[n], m);
      forall i | i in f.w.items
        ensures r.w.items[i].users == f.w.items[i].users
      {
        assert SameButBits(f.w.items[i], r.w.items[i]);
      }
      forall k | k in r.nodes
        ensures k in s.plan && NodeLists(s, r.w, k, r.nodes[k], m)
      {
        assert NodeLists(s, f.w, k, f.nodes[k], m);
      }
    }
  }

  lemma AiawbLessKept(r: Frame, n: NodeId, roster: Roster)
    requires FrameOk(r, roster)
    ensures var a := AiawbRelease(r, n); LessKept(r.w, a.w.(collector := a.w.collector.Drained())) && a.nodes == r.nodes
  {
    AiawbBookkept(r, n, roster);
    var a := AiawbRelease(r, n);
    BookkeptLessKept(r.w, a.w.(collector := a.w.collector.Drained()));
  }

  lemma ApplyReleaseListed(s: Setup, f: Frame, n: NodeId, realTime: bool, alive: Alive, roster: Roster, m: Message)
    requires FrameOk(f, roster) && OutputsListed(s, f, m)
    ensures OutputsListed(s, ApplyRelease(f, n, realTime, alive), m)
  {
    UpdateKeepsKeys(f, n);
    UpdateForReleaseOk(f, n, roster);
    RunUpdaterListed(s, f, n, roster, m);
    var r := UpdateForRelease(f, n).f;
    AiawbLessKept(r, n, roster);
    SameNodesListed(s, r, ApplyRelease(f, n, realTime, alive), m);
  }

  lemma ApplyPreReleaseListed(s: Setup, f: Frame, n: NodeId, alive: Alive, roster: Roster, m: Message)
    requires FrameOk(f, roster) && OutputsListed(s, f, m)
    ensures OutputsListed(s, ApplyPreRelease(f, n, alive), m)
  {
    RunUpdaterListed(s, f, n, roster, m);
    SameNodesListed(s, RunUpdater(f, n).f, ApplyPreRelease(f, n, alive), m);
  }

  lemma TransferLessKept(f: Frame)
    ensures LessKept(f.w, TransferImages(f).w)
  {
    ResetUsersEffect(f.w.items, f.pendingImage.buffers);
  }

  lemma AddConsumerLessKept(f: Frame, i: ItemId, u: UserId)
    requires i in f.w.items
    ensures LessKept(f.w, WithUsers(f.w, i, WithConsumer(f.w.items[i].users, u)))
  {}

  /** Whatever happens, nobody takes back that it has let go. */
  lemma NextLessKept(f: Frame, step: Step, roster: Roster, given: set<ItemId>)
    requires RunOk(f, roster, given) && Allowed(f, step)
    ensures LessKept(f.w, Next(f, step).w)
  {
    match step
    case Mark(s, u, status) =>
      var i := FindItem(f.w, s);
      if i.Some? && i.value in f.w.mapped && i.value in f.w.items {
        MarkItemOk(f, i.value, u, status, roster);
        RefinedLessKept(f.w, MarkItem(f, i.value, u, status).w);
      }
    case Get(image, s, u, halAsk, appAsk) =>
      GetStreamOk(f, image, s, u, halAsk, appAsk, roster);
      RefinedLessKept(f.w, GetStream(f, image, s, u, halAsk, appAsk).f.w);
    case MarkBuffer(i, u, status) =>
      MarkItemOk(f, i, u, status, roster);
      RefinedLessKept(f.w, MarkItem(f, i, u, status).w);
    case Release(n, realTime, alive) =>
      ApplyReleaseBookkept(f, n, realTime, alive, roster);
      BookkeptLessKept(f.w, ApplyRelease(f, n, realTime, alive).w);
    case PreRelease(n, alive) =>
      PreReleaseBookkept(f, n, alive, roster);
      BookkeptLessKept(f.w, ApplyPreRelease(f, n, alive).w);
    case Transfer => TransferLessKept(f);
    case AddConsumer(i, u) => AddConsumerLessKept(f, i, u);
    case Keep(_, _, _, _, _) =>
  }

  lemma OthersLeaveNodes(f: Frame, step: Step, roster: Roster, given: set<ItemId>)
    requires RunOk(f, roster, given) && Allowed(f, step) && !step.Release? && !step.PreRelease?
    ensures Next(f, step).nodes == f.nodes
  {
    match step
    case Get(image, s, u, halAsk, appAsk) => GetStreamQuiet(f, image, s, u, halAsk, appAsk, roster, given);
    case _ =>
  }

  lemma NextListed(s: Setup, f: Frame, step: Step, roster: Roster, given: set<ItemId>, m: Message)
    requires RunOk(f, roster, given) && Allowed(f, step) && OutputsListed(s, f, m)
    ensures OutputsListed(s, Next(f, step), m)
  {
    if step.Release? {
      ApplyReleaseListed(s, f, step.node, step.realTime, step.alive, roster, m);
    } else if step.PreRelease? {
      ApplyPreReleaseListed(s, f, step.node, step.alive, roster, m);
    } else {
      NextLessKept(f, step, roster, given);
      OthersLeaveNodes(f, step, roster, given);
      SameNodesListed(s, f, Next(f, step), m);
    }
  }

  // ---------------------------------------------------------------- runs

  lemma {:induction false} ListedOn(s: Setup, states: seq<Frame>, m: Message, k: nat)
    requires k < |states| && OutputsListed(s, states[0], m)
    requires forall j: nat | j < k && OutputsListed(s, states[j], m) :: OutputsListed(s, states[j + 1], m)
    ensures OutputsListed(s, states[k], m)
  {
    if k > 0 {
      ListedOn(s, states, m, k - 1);
      assert OutputsListed(s, states[k - 1], m);
    }
  }

  lemma StepListed(s: Setup, states: seq<Frame>, steps: seq<Step>, roster: Roster, given: set<ItemId>, k: nat, m: Message)
    requires IsRun(states, steps) && RunOk(states[0], roster, given) && k < |steps| && OutputsListed(s, states[k], m)
    ensures OutputsListed(s, states[k + 1], m)
  {
    RunKeeps(states, steps, roster, given, k);
    NextListed(s, states[k], steps[k], roster, given, m);
  }

  lemma RunListed(states: seq<Frame>, steps: seq<Step>, s: Setup, k: nat, m: Message)
    requires SetupOk(s) && IsRun(states, steps) && states[0] == Configured(s) && k <= |steps|
    ensures RunOk(states[k], RosterOf(s), Given(s)) && OutputsListed(s, states[k], m)
  {
    ConfiguredOk(s);
    ConfiguredOutputs(s, m);
    RunKeeps(states, steps, RosterOf(s), Given(s), k);
    forall j: nat | j < k && OutputsListed(s, states[j], m)
      ensures OutputsListed(s, states[j + 1], m)
    {
      StepListed(s, states, steps, RosterOf(s), Given(s), j, m);
    }
    ListedOn(s, states, m, k);
  }

  lemma NotifiedIsLetGo(s: Setup, f: Frame, n: NodeId, m: Message)
    requires OutputsListed(s, f, m) && n in f.nodes && SetsOk(f.nodes[n]) && Notified(f.nodes[n], m)
    ensures n in s.plan && OutputsLetGo(s, f, n, m)
  {
    assert NodeLists(s, f.w, n, f.nodes[n], m);
    forall i | i in f.w.items && IsOutput(s.plan[n], m, i)
      ensures HasLetGo(f.w.items[i].users, n)
    {
      KeepsOrLetGo(f.w.items[i].users, n);
    }
  }

  /** In every run: if the listeners have been told that all output images, or all output metas, of a node are released,
      the node has let go of every item that its plan names as such an output. */
  lemma NoticeMeansLetGo(states: seq<Frame>, steps: seq<Step>, s: Setup, k: nat, n: NodeId, m: Message)
    requires SetupOk(s) && IsRun(states, steps) && states[0] == Configured(s) && k <= |steps|
    requires NodeNotice(n, m) in states[k].out.notices
    ensures n in s.plan && OutputsLetGo(s, states[k], n, m)
  {
    RunListed(states, steps, s, k, m);
    var f := states[k];
    assert NodeNotice(n, m) in multiset(f.out.notices);
    assert n in f.nodes && Notified(f.nodes[n], m);
    NotifiedIsLetGo(s, f, n, m);
  }

  /** The step updates the sets of the node. */
  predicate Updates(f: Frame, step: Step, n: NodeId) {
    (step.Release? && step.node == n && !f.preApplied) || (step.PreRelease? && step.node == n)
  }

  lemma UpdatedIsSettled(s: Setup, f: Frame, step: Step, roster: Roster, n: NodeId, m: Message)
    requires FrameOk(f, roster) && OutputsListed(s, f, m) && n in f.nodes && Updates(f, step, n) && Allowed(f, step)
    ensures var g := Next(f, step);
            && n in g.nodes && Settled(OutSet(g.nodes[n], m)) && g.w.items.Keys == f.w.items.Keys
            && forall i | i in OutSet(g.nodes[n], m).ios :: i in f.w.items && Keeps(f.w.items[i].users, n)
    ensures forall i | i in f.w.items :: Next(f, step).w.items[i].users == f.w.items[i].users
  {
    RunUpdaterListed(s, f, n, roster, m);
    if step.Release? {
      ApplyReleaseBookkept(f, n, step.realTime, step.alive, roster);
      ApplyReleaseSays(f, n, step.realTime, step.alive);
    } else {
      PreReleaseBookkept(f, n, step.alive, roster);
    }
    RunUpdaterBookkept(f, n, roster);
    forall i | i in f.w.items
      ensures Next(f, step).w.items[i].users == f.w.items[i].users
      ensures RunUpdater(f, n).f.w.items[i].users == f.w.items[i].users
    {
      assert SameButBits(f.w.items[i], Next(f, step).w.items[i]);
      assert SameButBits(f.w.items[i], RunUpdater(f, n).f.w.items[i]);
    }
  }

  lemma LetGoIsTold(s: Setup, f: Frame, step: Step, roster: Roster, given: set<ItemId>, n: NodeId, m: Message)
    requires RunOk(f, roster, given) && OutputsListed(s, f, m) && n in f.nodes && n in s.plan && Allowed(f, step)
    requires Updates(f, step, n) && OutputsLetGo(s, Next(f, step), n, m)
    ensures NodeNotice(n, m) in Next(f, step).out.notices
  {
    var g := Next(f, step);
    NextRun(f, step, roster, given);
    NextListed(s, f, step, roster, given, m);
    UpdatedIsSettled(s, f, step, roster, n, m);
    assert NodeLists(s, g.w, n, g.nodes[n], m);
    if OutSet(g.nodes[n], m).ios != [] {
      var i := OutSet(g.nodes[n], m).ios[0];
      assert i in OutSet(g.nodes[n], m).ios;
      KeepsOrLetGo(f.w.items[i].users, n);
      assert false;
    }
    assert Notified(g.nodes[n], m);
    assert multiset(g.out.notices)[NodeNotice(n, m)] == 1;
  }

  lemma NextNodeKeys(f: Frame, step: Step, roster: Roster, given: set<ItemId>)
    requires RunOk(f, roster, given) && Allowed(f, step)
    ensures Next(f, step).nodes.Keys == f.nodes.Keys
  {
    if step.Release? {
      ApplyReleaseSays(f, step.node, step.realTime, step.alive);
    } else if !step.PreRelease? {
      OthersLeaveNodes(f, step, roster, given);
    }
  }

  lemma {:induction false} NodesStay(states: seq<Frame>, steps: seq<Step>, roster: Roster, given: set<ItemId>, k: nat)
    requires IsRun(states, steps) && RunOk(states[0], roster, given) && k <= |steps|
    ensures states[k].nodes.Keys == states[0].nodes.Keys
  {
    if k > 0 {
      NodesStay(states, steps, roster, given, k - 1);
      StepNodes(states, steps, roster, given, k - 1);
    }
  }

  lemma StepNodes(states: seq<Frame>, steps: seq<Step>, roster: Roster, given: set<ItemId>, k: nat)
    requires IsRun(states, steps) && RunOk(states[0], roster, given) && k < |steps|
    ensures states[k + 1].nodes.Keys == states[k].nodes.Keys
  {
    RunKeeps(states, steps, roster, given, k);
    NextNodeKeys(states[k], steps[k], roster, given);
  }

  /** Right after an apply of a node that has streams, made before the frame was done, the notice is there if and only if
      the node has let go of all these outputs. */
  lemma NoticeAfterApply(states: seq<Frame>, steps: seq<Step>, s: Setup, k: nat, n: NodeId, m: Message)
    requires SetupOk(s) && IsRun(states, steps) && states[0] == Configured(s) && k < |steps|
    requires n in Configured(s).nodes && Updates(states[k], steps[k], n)
    ensures n in s.plan
    ensures NodeNotice(n, m) in states[k + 1].out.notices <==> OutputsLetGo(s, states[k + 1], n, m)
  {
    NodesForMembers(AddAll(NoItems(), s.items).mapped, s.order, s.plan);
    if NodeNotice(n, m) in states[k + 1].out.notices {
      NoticeMeansLetGo(states, steps, s, k + 1, n, m);
    }
    if OutputsLetGo(s, states[k + 1], n, m) {
      RunListed(states, steps, s, k, m);
      ConfiguredOk(s);
      NodesStay(states, steps, RosterOf(s), Given(s), k);
      LetGoIsTold(s, states[k], steps[k], RosterOf(s), Given(s), n, m);
    }
  }
}

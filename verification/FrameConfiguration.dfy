/** Setting a frame up: adding its items, naming their users and filling in the nodes (finishConfigurationLocked,
    evaluate_buffer_users). A frame that is set up properly starts every run in its invariant, and then the
    in-flight count tells exactly which items have been released. */
module FrameConfiguration {
  import opened Users
  import opened SortedKeys
  import opened Wrappers
  import opened FrameModel
  import opened WorldFacts
  import opened FrameInvariant
  import opened Conservation
  import opened MetaReport
  import opened FrameRuns

  /** The streams a node is to read and write. */
  datatype NodePlan = NodePlan(
    outImage: seq<StreamId>, inImage: seq<StreamId>, outMeta: seq<StreamId>, inMeta: seq<StreamId>)
  {
    predicate Writes(i: ItemId) {
      if IsImage(i.kind) then i.stream in outImage else i.stream in outMeta
    }

    predicate Reads(i: ItemId) {
      if IsImage(i.kind) then i.stream in inImage else i.stream in inMeta
    }
  }

  /** What the frame builder hands over: the items, the nodes of the frame's graph in order with their plans, and
      for every node the nodes ahead of it. */
  datatype Setup = Setup(
    items: seq<(ItemId, Option<Buffer>)>,
    order: seq<NodeId>,
    plan: map<NodeId, NodePlan>,
    ahead: map<NodeId, set<NodeId>>)

  // ---------------------------------------------------------------- items

  function NoItems(): World {
    World(map[], {}, Counts(0, 0, 0, 0), [], Collector([], [], [], [], 0, [], 0, map[], map[]))
  }

  function AddAll(w: World, items: seq<(ItemId, Option<Buffer>)>): World {
    if items == [] then w
    else
      var last := items[|items| - 1];
      Add(AddAll(w, items[..|items| - 1]), last.0, last.1)
  }

  /** evaluate_buffer_users: every node of the graph joins, as a producer if it writes the stream, else as a
      consumer if it reads it. */
  function UsersOf(s: Setup, i: ItemId): Users {
    Users(true,
          (set n | n in s.plan && s.plan[n].Writes(i)),
          (set n | n in s.plan && !s.plan[n].Writes(i) && s.plan[n].Reads(i)),
          s.ahead, {}, {}, {})
  }

  /** getImageMapItemLocked and getMetaMapItemLocked look among the Hal items first. */
  function ItemFor(mapped: set<ItemId>, image: bool, s: StreamId): ItemId {
    var hal := ItemId(if image then HalImage else HalMeta, s);
    if hal in mapped then hal else ItemId(if image then AppImage else AppMeta, s)
  }

  function ItemsFor(mapped: set<ItemId>, image: bool, streams: seq<StreamId>): (ios: seq<ItemId>)
    ensures |ios| == |streams|
  {
    if streams == [] then []
    else ItemsFor(mapped, image, streams[..|streams| - 1]) + [ItemFor(mapped, image, streams[|streams| - 1])]
  }

  function StatusFor(mapped: set<ItemId>, p: NodePlan): NodeStatus {
    NodeStatus(IOSet(ItemsFor(mapped, true, p.outImage), false), IOSet(ItemsFor(mapped, true, p.inImage), false),
               IOSet(ItemsFor(mapped, false, p.outMeta), false), IOSet(ItemsFor(mapped, false, p.inMeta), false))
  }

  /** Only nodes that list something are kept. */
  function NodesFor(mapped: set<ItemId>, order: seq<NodeId>, plan: map<NodeId, NodePlan>): map<NodeId, NodeStatus>
    requires forall n | n in order :: n in plan
  {
    if order == [] then map[]
    else
      var nodes, n := NodesFor(mapped, order[..|order| - 1], plan), order[|order| - 1];
      if StatusFor(mapped, plan[n]).AllEmpty() then nodes else nodes[n := StatusFor(mapped, plan[n])]
  }

  function ProducedOf(items: map<ItemId, Item>, k: Kind): set<ItemId> {
    set i | i in items && i.kind == k && Produced(items[i])
  }

  const NOTHING_OUT := Outbox([], [], [], [], [], [], [], [], [], [], [], [])

  /** finishConfigurationLocked, on a frame that nothing has happened to. */
  function Finish(w: World, order: seq<NodeId>, plan: map<NodeId, NodePlan>): Frame
    requires forall n | n in order :: n in plan
  {
    var nodes := NodesFor(w.mapped, order, plan);
    Frame(w.(collector := w.collector.(appLeft := |ProducedOf(w.items, AppMeta)|,
                                       halLeft := |ProducedOf(w.items, HalMeta)|)),
          nodes, |nodes|, false,
          Pending(false, {}, []), Pending(false, {}, []), Pending(false, {}, []),
          NOTHING_OUT)
  }

  /** The frame after its items are added, their users set up and finishConfigurationLocked has run. */
  function Configured(s: Setup): Frame
    requires NodesKnown(s)
  {
    Finish(AddAll(NoItems(), s.items).(items := ItemsOf(s)), s.order, s.plan)
  }

  /** The items with the users of evaluate_buffer_users. */
  function ItemsOf(s: Setup): map<ItemId, Item> {
    var w := AddAll(NoItems(), s.items);
    map i | i in w.items :: w.items[i].(users := UsersOf(s, i))
  }

  ghost predicate NodesKnown(s: Setup) {
    && (forall n :: n in s.order <==> n in s.plan)
    && (forall j, k | 0 <= j < k < |s.order| :: s.order[j] != s.order[k])
  }

  /** What the builder promises: one item per key, buffers of their streams, an item for every listed stream, no
      stream that is both App and Hal, and a graph over the planned nodes. */
  ghost predicate SetupOk(s: Setup) {
    && (forall j, k | 0 <= j < k < |s.items| :: s.items[j].0 != s.items[k].0)
    && (forall e | e in s.items && e.1.Some? :: e.1.value.stream == e.0.stream)
    && NodesKnown(s) && s.ahead.Keys == s.plan.Keys
    && OneItemPerStream(s.items)
    && (forall n | n in s.plan :: ListedExist(s.items, s.plan[n]))
  }

  ghost predicate OneItemPerStream(items: seq<(ItemId, Option<Buffer>)>) {
    forall j, k | 0 <= j < |items| && 0 <= k < |items| ::
      items[j].0.stream == items[k].0.stream && IsImage(items[j].0.kind) == IsImage(items[k].0.kind) ==>
        items[j].0 == items[k].0
  }

  ghost predicate HasItem(items: seq<(ItemId, Option<Buffer>)>, image: bool, s: StreamId) {
    exists k :: 0 <= k < |items| && items[k].0.stream == s && IsImage(items[k].0.kind) == image
  }

  ghost predicate ListedExist(items: seq<(ItemId, Option<Buffer>)>, p: NodePlan) {
    && (forall s | s in p.outImage || s in p.inImage :: HasItem(items, true, s))
    && (forall s | s in p.outMeta || s in p.inMeta :: HasItem(items, false, s))
  }

  /** The nodes that will list an item. */
  ghost function Listers(s: Setup, i: ItemId): set<NodeId> {
    set n | n in s.plan && (s.plan[n].Writes(i) || s.plan[n].Reads(i))
  }

  ghost function RosterOf(s: Setup): Roster {
    map i | i in ItemsOf(s) :: Listers(s, i)
  }

  ghost function Given(s: Setup): set<ItemId> {
    set i | i in ItemsOf(s) && ItemsOf(s)[i].buffer.Some?
  }

  // ---------------------------------------------------------------- adding items

  /** TItemMap::add keeps the count right if and only if it does not replace an entry. */
  lemma AddCounts(w: World, i: ItemId, b: Option<Buffer>)
    requires CountsOk(w)
    ensures CountsOk(Add(w, i, b)) <==> i !in w.mapped
  {
    var r := Add(w, i, b);
    forall k: Kind
      ensures |OfKind(r.mapped, k)| == |OfKind(w.mapped, k)| + if k == i.kind && i !in w.mapped then 1 else 0
    {
      if k == i.kind {
        assert OfKind(r.mapped, k) == OfKind(w.mapped, k) + {i};
        if i in w.mapped {
          assert OfKind(r.mapped, k) == OfKind(w.mapped, k);
        }
      } else {
        assert OfKind(r.mapped, k) == OfKind(w.mapped, k);
      }
    }
    assert w.counts.At(i.kind) == |OfKind(w.mapped, i.kind)|;
    assert r.counts.At(i.kind) == w.counts.At(i.kind) + 1;
    if i !in w.mapped {
      forall k: Kind
        ensures r.counts.At(k) == |OfKind(r.mapped, k)|
      {
        assert w.counts.At(k) == |OfKind(w.mapped, k)|;
      }
    }
  }

  ghost predicate Loaded(w: World, items: seq<(ItemId, Option<Buffer>)>) {
    && CountsOk(w) && Ascending(w.halKeys) && w.mapped == w.items.Keys
    && (forall s :: s in w.halKeys <==> ItemId(HalImage, s) in w.items)
    && (forall i :: i in w.items <==> exists k :: 0 <= k < |items| && items[k].0 == i)
    && (forall k | 0 <= k < |items| :: items[k].0 in w.items && w.items[items[k].0] ==
          Item(items[k].1, NoUsers(), items[k].1.Some?, false, false, false))
    && w.collector == NoItems().collector
  }

  lemma {:induction false} AddAllLoads(items: seq<(ItemId, Option<Buffer>)>)
    requires forall j, k | 0 <= j < k < |items| :: items[j].0 != items[k].0
    ensures Loaded(AddAll(NoItems(), items), items)
  {
    if items == [] {
      forall k: Kind
        ensures NoItems().counts.At(k) == |OfKind(NoItems().mapped, k)|
      {
        assert OfKind({}, k) == {};
      }
    } else {
      var front, last := items[..|items| - 1], items[|items| - 1];
      AddAllLoads(front);
      var w := AddAll(NoItems(), front);
      assert forall k | 0 <= k < |front| :: front[k].0 != last.0;
      assert last.0 !in w.items;
      AddCounts(w, last.0, last.1);
      if last.0.kind == HalImage {
        InsertKeySorts(w.halKeys, last.0.stream);
      }
      AddedMembers(w, items);
    }
  }

  lemma AddedMembers(w: World, items: seq<(ItemId, Option<Buffer>)>)
    requires items != [] && Loaded(w, items[..|items| - 1]) && items[|items| - 1].0 !in w.items
    ensures var last := items[|items| - 1]; var r := Add(w, last.0, last.1);
            && (forall i :: i in r.items <==> exists k :: 0 <= k < |items| && items[k].0 == i)
            && (forall k | 0 <= k < |items| :: items[k].0 in r.items && r.items[items[k].0] ==
                  Item(items[k].1, NoUsers(), items[k].1.Some?, false, false, false))
  {
    var front, last := items[..|items| - 1], items[|items| - 1];
    var r := Add(w, last.0, last.1);
    forall i
      ensures i in r.items <==> exists k :: 0 <= k < |items| && items[k].0 == i
    {
      if i == last.0 {
        assert items[|items| - 1].0 == i;
      } else if i in r.items {
        var k :| 0 <= k < |front| && front[k].0 == i;
        assert items[k].0 == i;
      } else {
        assert forall k | 0 <= k < |front| :: front[k].0 != i;
      }
    }
    forall k | 0 <= k < |items|
      ensures items[k].0 in r.items && r.items[items[k].0] ==
              Item(items[k].1, NoUsers(), items[k].1.Some?, false, false, false)
    {
      if k < |front| {
        assert front[k] == items[k];
      }
    }
  }

  // ---------------------------------------------------------------- the configured frame

  lemma OnlyItem(w: World, items: seq<(ItemId, Option<Buffer>)>, k: nat, i: ItemId)
    requires Loaded(w, items) && OneItemPerStream(items) && k < |items| && i in w.items
    requires i.stream == items[k].0.stream && IsImage(i.kind) == IsImage(items[k].0.kind)
    ensures i == items[k].0
  {
    var j :| 0 <= j < |items| && items[j].0 == i;
  }

  /** Every stream belongs to one item of its sort, and the lookup finds it. */
  lemma ItemForFinds(w: World, items: seq<(ItemId, Option<Buffer>)>, image: bool, st: StreamId)
    requires Loaded(w, items) && OneItemPerStream(items) && HasItem(items, image, st)
    ensures ItemFor(w.mapped, image, st) in w.items
    ensures forall i | i in w.items :: ItemFor(w.mapped, image, st) == i <==> i.stream == st && IsImage(i.kind) == image
  {
    var k :| 0 <= k < |items| && items[k].0.stream == st && IsImage(items[k].0.kind) == image;
    assert items[k].0 in w.items;
    forall i | i in w.items && i.stream == st && IsImage(i.kind) == image
      ensures i == items[k].0
    {
      OnlyItem(w, items, k, i);
    }
  }

  lemma {:induction false} ItemsForMembers(s: Setup, image: bool, streams: seq<StreamId>)
    requires SetupOk(s) && forall st | st in streams :: HasItem(s.items, image, st)
    ensures var w := AddAll(NoItems(), s.items); var ios := ItemsFor(w.mapped, image, streams);
            && Known(w, ios)
            && forall i | i in w.items :: i in ios <==> i.stream in streams && IsImage(i.kind) == image
  {
    if streams != [] {
      var front, last := streams[..|streams| - 1], streams[|streams| - 1];
      assert streams == front + [last];
      ItemsForMembers(s, image, front);
      AddAllLoads(s.items);
      ItemForFinds(AddAll(NoItems(), s.items), s.items, image, last);
    }
  }

  lemma StatusForLists(s: Setup, n: NodeId)
    requires SetupOk(s) && n in s.plan
    ensures var w := AddAll(NoItems(), s.items); var ns := StatusFor(w.mapped, s.plan[n]);
            && KnownNode(w, ns) && SetsOk(ns)
            && forall i | i in w.items :: ns.Lists(i) <==> s.plan[n].Writes(i) || s.plan[n].Reads(i)
  {
    var p := s.plan[n];
    assert ListedExist(s.items, p);
    ItemsForMembers(s, true, p.outImage);
    ItemsForMembers(s, true, p.inImage);
    ItemsForMembers(s, false, p.outMeta);
    ItemsForMembers(s, false, p.inMeta);
  }

  lemma LoadedItem(w: World, items: seq<(ItemId, Option<Buffer>)>, i: ItemId) returns (k: nat)
    requires Loaded(w, items) && i in w.items
    ensures k < |items| && items[k].0 == i
    ensures w.items[i] == Item(items[k].1, NoUsers(), items[k].1.Some?, false, false, false)
  {
    k :| 0 <= k < |items| && items[k].0 == i;
  }

  lemma ConfiguredItemsOk(s: Setup)
    requires SetupOk(s)
    ensures ItemsOk(Configured(s).w) && forall i | i in Configured(s).w.items :: !Configured(s).w.items[i].producersReleased
  {
    AddAllLoads(s.items);
    var w0, w := AddAll(NoItems(), s.items), Configured(s).w;
    forall i | i in w.items
      ensures ItemOk(w, i) && !w.items[i].producersReleased
    {
      var k := LoadedItem(w0, s.items, i);
      assert s.items[k] in s.items;
    }
  }

  lemma ConfiguredWorldOk(s: Setup)
    requires SetupOk(s)
    ensures WorldOk(Configured(s).w) && Configured(s).w.collector.IsDrained()
  {
    ConfiguredItemsOk(s);
    AddAllLoads(s.items);
    var w0, w := AddAll(NoItems(), s.items), Configured(s).w;
    assert CountsOk(w) by {
      forall k: Kind
        ensures w.counts.At(k) == |OfKind(w.mapped, k)|
      {
        assert w0.counts.At(k) == |OfKind(w0.mapped, k)|;
      }
    }
    assert HalKeysOk(w);
    assert Outstanding(w, AppMeta) == ProducedOf(w.items, AppMeta);
    assert Outstanding(w, HalMeta) == ProducedOf(w.items, HalMeta);
  }

  lemma {:induction false} NodesForMembers(mapped: set<ItemId>, order: seq<NodeId>, plan: map<NodeId, NodePlan>)
    requires forall n | n in order :: n in plan
    ensures var nodes := NodesFor(mapped, order, plan);
            && (forall n :: n in nodes <==> n in order && !StatusFor(mapped, plan[n]).AllEmpty())
            && (forall n | n in nodes :: nodes[n] == StatusFor(mapped, plan[n]))
  {
    if order != [] {
      var front, last := order[..|order| - 1], order[|order| - 1];
      assert order == front + [last];
      NodesForMembers(mapped, front, plan);
    }
  }

  lemma ConfiguredLists(s: Setup)
    requires SetupOk(s)
    ensures forall n, i | n in Configured(s).nodes && i in Configured(s).w.items ::
              Configured(s).nodes[n].Lists(i) <==> n in Listers(s, i)
    ensures forall i | i in Configured(s).w.items :: Listers(s, i) <= Configured(s).nodes.Keys
  {
    var f := Configured(s);
    var w := AddAll(NoItems(), s.items);
    NodesForMembers(w.mapped, s.order, s.plan);
    forall n | n in s.plan
      ensures forall i | i in w.items :: StatusFor(w.mapped, s.plan[n]).Lists(i) <==> s.plan[n].Writes(i) || s.plan[n].Reads(i)
    {
      StatusForLists(s, n);
    }
    forall i, n | i in f.w.items && n in Listers(s, i)
      ensures n in f.nodes
    {
      assert StatusFor(w.mapped, s.plan[n]).Lists(i);
    }
  }

  lemma ConfiguredNode(s: Setup, n: NodeId)
    requires SetupOk(s) && n in Configured(s).nodes
    ensures var f := Configured(s); KnownNode(f.w, f.nodes[n]) && SetsOk(f.nodes[n]) && !f.nodes[n].AllEmpty()
  {
    NodesForMembers(AddAll(NoItems(), s.items).mapped, s.order, s.plan);
    StatusForLists(s, n);
  }

  lemma ConfiguredNodesOk(s: Setup)
    requires SetupOk(s)
    ensures var f := Configured(s); Closed(f) && NodesOk(f.nodes, f.inFlight, f.preApplied)
  {
    var f := Configured(s);
    forall n | n in f.nodes
      ensures KnownNode(f.w, f.nodes[n]) && SetsOk(f.nodes[n]) && !f.nodes[n].AllEmpty()
    {
      ConfiguredNode(s, n);
    }
    assert Busy(f.nodes) == f.nodes.Keys;
  }

  lemma ConfiguredListsOk(s: Setup)
    requires SetupOk(s)
    ensures var f := Configured(s); ListsOk(f.w, f.nodes, RosterOf(s))
  {
    ConfiguredLists(s);
    var f := Configured(s);
    var roster := RosterOf(s);
    forall i, u | i in f.w.items && i in roster && u in roster[i]
      ensures u in f.nodes && f.nodes[u].Lists(i)
    {
      assert u in Listers(s, i);
    }
    forall i | i in f.w.mapped && i in f.w.items && i in roster && OnlyListedUsers(f.w.items[i].users, roster[i])
      ensures ListedBySome(f.nodes, i)
    {
      var us := f.w.items[i].users;
      var u := Outside(us.producers + us.consumers, {});
      assert u in roster[i];
    }
  }

  lemma FreshItem(s: Setup, i: ItemId)
    requires SetupOk(s) && i in Configured(s).w.items
    ensures var f := Configured(s);
            && !f.w.items[i].producersReleased && !f.w.items[i].acquireFailed && i in f.w.mapped
            && f.w.items[i].acquired == f.w.items[i].buffer.Some? && f.w.items[i].users == UsersOf(s, i)
  {
    AddAllLoads(s.items);
    var k := LoadedItem(AddAll(NoItems(), s.items), s.items, i);
  }

  lemma NothingGoneYet(f: Frame)
    requires f.w.mapped == f.w.items.Keys && f.w.collector.IsDrained() && f.pendingImage.buffers == []
    requires f.out == NOTHING_OUT
    requires forall i | i in f.w.items :: !f.w.items[i].producersReleased && !f.w.items[i].acquireFailed
    ensures Conserved(f) && SeenIsDone(f.w) && ToldOnce(f, AppMeta) && ToldOnce(f, HalMeta)
  {
    assert f.w.collector.halImages == [];
    forall b: Buffer
      ensures (multiset(f.w.collector.halImages) + Elsewhere(f))[b] == if Freed(f.w, b) then 1 else 0
    {}
  }

  /** A frame that is set up properly starts in the invariant of runs, and nothing has been told. */
  lemma ConfiguredOk(s: Setup)
    requires SetupOk(s)
    ensures RunOk(Configured(s), RosterOf(s), Given(s))
    ensures ToldOnce(Configured(s), AppMeta) && ToldOnce(Configured(s), HalMeta)
  {
    ConfiguredWorldOk(s);
    ConfiguredNodesOk(s);
    ConfiguredListsOk(s);
    var f := Configured(s);
    forall i | i in f.w.items
      ensures !f.w.items[i].producersReleased && !f.w.items[i].acquireFailed && i in f.w.mapped
      ensures f.w.items[i].acquired == f.w.items[i].buffer.Some?
    {
      FreshItem(s, i);
    }
    assert f.w.mapped == f.w.items.Keys;
    NothingGoneYet(f);
    NothingAnnouncedYet(s);
  }

  lemma NothingAnnouncedYet(s: Setup)
    requires SetupOk(s)
    ensures var f := Configured(s); NoticesOk(f.out.notices, f.nodes, f.inFlight)
  {
    NodesForMembers(AddAll(NoItems(), s.items).mapped, s.order, s.plan);
  }
}

/** What the item maps keep through every visit, and what a whole list of visits amounts to. */
module WorldFacts {
  import opened Users
  import opened Wrappers
  import opened FrameModel

  ghost function OfKind(s: set<ItemId>, k: Kind): set<ItemId> {
    set i | i in s && i.kind == k
  }

  /** The produced metas that no apply has yet seen with all producers done. */
  ghost function Outstanding(w: World, k: Kind): set<ItemId> {
    set i | i in w.items && i.kind == k && Produced(w.items[i]) && !w.items[i].producersReleased
  }

  ghost predicate CountsOk(w: World) {
    forall k: Kind :: w.counts.At(k) == |OfKind(w.mapped, k)|
  }

  ghost predicate LeftOk(w: World) {
    && w.collector.appLeft == |Outstanding(w, AppMeta)|
    && w.collector.halLeft == |Outstanding(w, HalMeta)|
  }

  ghost predicate ItemOk(w: World, i: ItemId)
    requires i in w.items
  {
    var item := w.items[i];
    && (item.released <==> i !in w.mapped)
    && (i in w.mapped ==> item.users.active)
    && (item.acquired <==> item.buffer.Some?)
    && !(item.acquired && item.acquireFailed)
    && (item.buffer.Some? ==> item.buffer.value.stream == i.stream)
    && (item.released && !IsImage(i.kind) ==> item.producersReleased)
  }

  ghost predicate ItemsOk(w: World) {
    && w.mapped <= w.items.Keys
    && (forall i | i in w.items :: ItemOk(w, i))
  }

  ghost predicate HalKeysOk(w: World) {
    && (forall s :: s in w.halKeys <==> ItemId(HalImage, s) in w.items)
    && (forall j, k | 0 <= j < k < |w.halKeys| :: w.halKeys[j] != w.halKeys[k])
  }

  ghost predicate WorldOk(w: World) {
    ItemsOk(w) && CountsOk(w) && LeftOk(w) && HalKeysOk(w)
  }

  // ---------------------------------------------------------------- single transitions

  lemma AllUsersReleasedEffect(w: World, i: ItemId)
    requires ItemsOk(w) && i in w.items
    ensures var r := AllUsersReleased(w, i);
            r.items == w.items[i := w.items[i].(released := true)] && r.mapped == w.mapped - {i}
  {
    assert ItemOk(w, i);
  }

  lemma UnmapCount(w: World, i: ItemId)
    requires CountsOk(w) && i in w.mapped
    ensures CountsOk(w.(mapped := w.mapped - {i}, counts := w.counts.Plus(i.kind, -1)))
  {
    forall k: Kind
      ensures w.counts.Plus(i.kind, -1).At(k) == |OfKind(w.mapped - {i}, k)|
    {
      if k == i.kind {
        assert OfKind(w.mapped - {i}, k) == OfKind(w.mapped, k) - {i};
      } else {
        assert OfKind(w.mapped - {i}, k) == OfKind(w.mapped, k);
      }
    }
  }

  lemma AllUsersReleasedOk(w: World, i: ItemId)
    requires WorldOk(w) && i in w.items
    requires IsImage(i.kind) || w.items[i].producersReleased
    ensures WorldOk(AllUsersReleased(w, i))
  {
    var r := AllUsersReleased(w, i);
    assert ItemOk(w, i);
    AllUsersReleasedEffect(w, i);
    if !w.items[i].released {
      UnmapCount(w, i);
      assert forall k: Kind :: r.counts.At(k) == w.counts.Plus(i.kind, -1).At(k);
    }
    forall j | j in r.items
      ensures ItemOk(r, j)
    {
      assert ItemOk(w, j);
    }
    assert Outstanding(r, AppMeta) == Outstanding(w, AppMeta);
    assert Outstanding(r, HalMeta) == Outstanding(w, HalMeta);
  }

  lemma ProducersReleasedOk(w: World, i: ItemId)
    requires WorldOk(w) && i in w.items
    ensures WorldOk(ProducersReleased(w, i))
  {
    var r := ProducersReleased(w, i);
    if !w.items[i].producersReleased {
      forall j | j in r.items
        ensures ItemOk(r, j)
      {
        assert ItemOk(w, j);
      }
      forall k: Kind
        ensures Outstanding(r, k) == Outstanding(w, k) - {i}
      {}
      assert Produced(w.items[i]) ==> i in Outstanding(w, i.kind);
      assert forall k: Kind :: r.counts.At(k) == w.counts.At(k);
    }
  }

  lemma VisitOk(w: World, n: NodeId, i: ItemId)
    requires WorldOk(w) && i in w.items
    ensures WorldOk(Visit(w, n, i))
  {
    var us := w.items[i].users;
    if us.active && us.ProducersDone() {
      var w0 := ProducersReleasedByNode(w, n, i);
      assert WorldOk(w0) by {
        forall j | j in w0.items
          ensures ItemOk(w0, j)
        {
          assert ItemOk(w, j);
        }
        assert forall k: Kind :: Outstanding(w0, k) == Outstanding(w, k);
        assert forall k: Kind :: w0.counts.At(k) == w.counts.At(k);
      }
      ProducersReleasedOk(w0, i);
      if us.Done(n) && us.AllDone() {
        AllUsersReleasedOk(ProducersReleased(w0, i), i);
      }
    }
  }

  // ---------------------------------------------------------------- a whole list of visits

  /** Visiting never touches who the users are, which buffer an item has or how it was acquired. */
  ghost predicate SameButBits(a: Item, b: Item) {
    && a.users == b.users && a.buffer == b.buffer
    && a.acquired == b.acquired && a.acquireFailed == b.acquireFailed
  }

  /** `n` visiting this item takes the item out of its map. */
  predicate Frees(us: Users, n: NodeId) {
    us.active && us.Done(n) && us.AllDone()
  }

  ghost predicate Effect(w: World, r: World, n: NodeId, ios: seq<ItemId>) {
    && r.items.Keys == w.items.Keys
    && r.halKeys == w.halKeys
    && (forall i | i in w.items :: SameButBits(w.items[i], r.items[i]))
    && (forall i | i in w.items :: i in r.mapped <==> i in w.mapped && !(i in ios && Frees(w.items[i].users, n)))
    && (forall i | i in w.items :: r.items[i].producersReleased <==>
          w.items[i].producersReleased || (i in ios && w.items[i].users.ProducersDone()))
  }

  lemma SeenEffect(w: World, n: NodeId, i: ItemId)
    requires ItemsOk(w) && i in w.items && w.items[i].users.ProducersDone()
    ensures var r := ProducersReleased(ProducersReleasedByNode(w, n, i), i);
            && r.mapped == w.mapped && r.halKeys == w.halKeys && ItemsOk(r)
            && r.items == w.items[i := w.items[i].(producersReleased := true)]
  {
    var r := ProducersReleased(ProducersReleasedByNode(w, n, i), i);
    assert r.items == w.items[i := w.items[i].(producersReleased := true)];
    forall j | j in r.items
      ensures ItemOk(r, j)
    {
      assert ItemOk(w, j);
    }
  }

  lemma VisitEffect(w: World, n: NodeId, i: ItemId)
    requires ItemsOk(w) && i in w.items
    ensures Effect(w, Visit(w, n, i), n, [i])
  {
    var us := w.items[i].users;
    if us.active && us.ProducersDone() {
      SeenEffect(w, n, i);
      var w1 := ProducersReleased(ProducersReleasedByNode(w, n, i), i);
      if Frees(us, n) {
        AllUsersReleasedEffect(w1, i);
        assert AllUsersReleased(w1, i).halKeys == w1.halKeys;
      }
    }
  }

  /** The order of the visits does not matter: the outcome is a closed form of the list. */
  lemma {:induction false} VisitAllEffect(w: World, n: NodeId, ios: seq<ItemId>)
    requires WorldOk(w) && Known(w, ios)
    ensures WorldOk(VisitAll(w, n, ios))
    ensures Effect(w, VisitAll(w, n, ios), n, ios)
  {
    if ios != [] {
      var front, last := ios[..|ios| - 1], ios[|ios| - 1];
      assert ios == front + [last];
      VisitAllEffect(w, n, front);
      var m := VisitAll(w, n, front);
      VisitOk(m, n, last);
      VisitEffect(m, n, last);
      EffectCompose(w, m, Visit(m, n, last), n, front, last);
    }
  }

  lemma EffectCompose(w: World, m: World, r: World, n: NodeId, front: seq<ItemId>, last: ItemId)
    requires last in w.items
    requires Effect(w, m, n, front) && Effect(m, r, n, [last])
    ensures Effect(w, r, n, front + [last])
  {
    forall i | i in w.items
      ensures i in front + [last] <==> i in front || i in [last]
      ensures SameButBits(w.items[i], r.items[i])
    {
      assert SameButBits(w.items[i], m.items[i]) && SameButBits(m.items[i], r.items[i]);
    }
  }

  lemma {:induction false} KeptMembers(items: map<ItemId, Item>, n: NodeId, ios: seq<ItemId>)
    requires forall i | i in ios :: i in items
    ensures forall i :: i in Kept(items, n, ios) <==> i in ios && Keeps(items[i].users, n)
  {
    if ios != [] {
      var front, last := ios[..|ios| - 1], ios[|ios| - 1];
      assert ios == front + [last];
      KeptMembers(items, n, front);
    }
  }

  /** Kept depends on the users only, which visits leave alone. */
  lemma {:induction false} KeptSame(a: map<ItemId, Item>, b: map<ItemId, Item>, n: NodeId, ios: seq<ItemId>)
    requires forall i | i in ios :: i in a && i in b && a[i].users == b[i].users
    ensures Kept(a, n, ios) == Kept(b, n, ios)
  {
    if ios != [] {
      KeptSame(a, b, n, ios[..|ios| - 1]);
    }
  }

  // ---------------------------------------------------------------- one node

  ghost predicate SetOk(s: IOSet) {
    s.notified ==> s.ios == []
  }

  ghost predicate SetsOk(ns: NodeStatus) {
    SetOk(ns.outImage) && SetOk(ns.inImage) && SetOk(ns.outMeta) && SetOk(ns.inMeta)
  }

  predicate AllNotified(ns: NodeStatus) {
    ns.outImage.notified && ns.inImage.notified && ns.outMeta.notified && ns.inMeta.notified
  }

  predicate Settled(s: IOSet) {
    s.ios == [] ==> s.notified
  }

  lemma UpdateSetEffect(w: World, n: NodeId, s: IOSet)
    requires WorldOk(w) && Known(w, s.ios) && SetOk(s)
    ensures var u := UpdateSet(w, n, s);
            && WorldOk(u.w) && Effect(w, u.w, n, s.ios)
            && SetOk(u.ios) && Settled(u.ios)
            && (forall i :: i in u.ios.ios <==> i in s.ios && Keeps(w.items[i].users, n))
            && (u.emptied <==> u.ios.notified && !s.notified)
  {
    if s.notified {
      assert Effect(w, w, n, []);
    } else {
      VisitAllEffect(w, n, s.ios);
      KeptMembers(w.items, n, s.ios);
      var kept := Kept(w.items, n, s.ios);
      assert kept == [] <==> !exists i :: i in kept by {
        if kept != [] {
          assert kept[0] in kept;
        }
      }
    }
  }

  lemma EffectChain(w: World, m: World, r: World, n: NodeId, a: seq<ItemId>, b: seq<ItemId>)
    requires Effect(w, m, n, a) && Effect(m, r, n, b)
    ensures Effect(w, r, n, a + b)
  {
    forall i | i in w.items
      ensures SameButBits(w.items[i], r.items[i])
      ensures i in a + b <==> i in a || i in b
    {
      assert SameButBits(w.items[i], m.items[i]) && SameButBits(m.items[i], r.items[i]);
    }
  }

  function Listed(ns: NodeStatus): seq<ItemId> {
    ns.outImage.ios + ns.inImage.ios + ns.outMeta.ios + ns.inMeta.ios
  }

  lemma ListedMembers(ns: NodeStatus)
    ensures forall i :: i in Listed(ns) <==> ns.Lists(i)
  {}

  /** After its update a node lists exactly the items it still has to let go of, each set that is empty
      has been notified, and an empty set is news only the first time. */
  lemma UpdateNodeEffect(w: World, n: NodeId, ns: NodeStatus)
    requires WorldOk(w) && KnownNode(w, ns) && SetsOk(ns)
    ensures var u := UpdateNode(w, n, ns);
            && WorldOk(u.w) && Effect(w, u.w, n, Listed(ns)) && SetsOk(u.ns) && KnownNode(u.w, u.ns)
            && (forall i :: u.ns.Lists(i) <==> ns.Lists(i) && Keeps(w.items[i].users, n))
            && (u.ns.AllEmpty() ==> AllNotified(u.ns))
            && (u.emptied <==> AllNotifiedCount(u.ns) > AllNotifiedCount(ns))
            && (u.outImageEmptied <==> u.ns.outImage.notified && !ns.outImage.notified)
            && (u.outMetaEmptied <==> u.ns.outMeta.notified && !ns.outMeta.notified)
            && (ns.outImage.notified ==> u.ns.outImage.notified)
            && (ns.outMeta.notified ==> u.ns.outMeta.notified)
            && (u.ns.outImage.ios == [] ==> u.ns.outImage.notified)
            && (u.ns.outMeta.ios == [] ==> u.ns.outMeta.notified)
  {
    UpdateSetEffect(w, n, ns.outImage);
    var oi := UpdateSet(w, n, ns.outImage);
    UpdateSetEffect(oi.w, n, ns.inImage);
    var ii := UpdateSet(oi.w, n, ns.inImage);
    UpdateSetEffect(ii.w, n, ns.outMeta);
    var om := UpdateSet(ii.w, n, ns.outMeta);
    UpdateSetEffect(om.w, n, ns.inMeta);
    var im := UpdateSet(om.w, n, ns.inMeta);
    EffectChain(w, oi.w, ii.w, n, ns.outImage.ios, ns.inImage.ios);
    EffectChain(w, ii.w, om.w, n, ns.outImage.ios + ns.inImage.ios, ns.outMeta.ios);
    EffectChain(w, om.w, im.w, n, ns.outImage.ios + ns.inImage.ios + ns.outMeta.ios, ns.inMeta.ios);
    UsersThrough(w, oi.w, n, ns.outImage.ios);
    UsersThrough(w, ii.w, n, ns.outImage.ios + ns.inImage.ios);
    UsersThrough(w, om.w, n, ns.outImage.ios + ns.inImage.ios + ns.outMeta.ios);
  }

  lemma UsersThrough(w: World, r: World, n: NodeId, ios: seq<ItemId>)
    requires Effect(w, r, n, ios)
    ensures forall i | i in w.items :: r.items[i].users == w.items[i].users
  {
    forall i | i in w.items
      ensures r.items[i].users == w.items[i].users
    {
      assert SameButBits(w.items[i], r.items[i]);
    }
  }

  function AllNotifiedCount(ns: NodeStatus): nat {
    (if ns.outImage.notified then 1 else 0) + (if ns.inImage.notified then 1 else 0) +
    (if ns.outMeta.notified then 1 else 0) + (if ns.inMeta.notified then 1 else 0)
  }
}

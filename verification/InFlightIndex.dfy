/** The index of frames in flight (InFlightRequest.cpp): which frames are alive, and for every node which frames it
    still owes output metas and output images. */
module InFlightIndex {
  import opened Users
  import opened Wrappers
  import opened FrameModel
  import opened FrameInvariant
  import opened WorldFacts
  import opened FrameRuns

  type FrameNo = int

  /** What reaches the index: a frame is registered with the nodes that have outputs, or a listener call comes in. */
  datatype Event =
    | Registered(frame: FrameNo, nodes: seq<NodeId>)
    | NodeCall(frame: FrameNo, node: NodeId, message: Message)
    | FrameCall(frame: FrameNo)

  // ---------------------------------------------------------------- what the lists do

  /** Erasing the first entry, as the loops do: an absent entry is no matter. */
  function Erase(list: seq<FrameNo>, f: FrameNo): seq<FrameNo> {
    if list == [] then []
    else if list[0] == f then list[1..]
    else [list[0]] + Erase(list[1..], f)
  }

  predicate Delivers(e: Event, n: NodeId, m: Message) {
    e.NodeCall? && e.node == n && e.message == m
  }

  /** What one event does to the list of node `n` for message `m`. */
  function AfterEvent(list: seq<FrameNo>, e: Event, n: NodeId, m: Message): seq<FrameNo> {
    if e.Registered? then (if n in e.nodes then list + [e.frame] else list)
    else if Delivers(e, n, m) then Erase(list, e.frame)
    else list
  }

  /** The list of node `n` for message `m`, and the list of frames. */
  function Owed(log: seq<Event>, n: NodeId, m: Message): seq<FrameNo> {
    if log == [] then [] else AfterEvent(Owed(log[..|log| - 1], n, m), log[|log| - 1], n, m)
  }

  function InFlight(log: seq<Event>): seq<FrameNo> {
    if log == [] then []
    else
      var list := InFlight(log[..|log| - 1]);
      match log[|log| - 1]
      case Registered(f, _) => list + [f]
      case NodeCall(_, _, _) => list
      case FrameCall(f) => Erase(list, f)
  }

  // ---------------------------------------------------------------- what they are to mirror

  /** The frames registered for `n`, in order, except those in `settled`. */
  function Unsettled(log: seq<Event>, n: NodeId, settled: set<FrameNo>): seq<FrameNo> {
    if log == [] then []
    else
      var list, e := Unsettled(log[..|log| - 1], n, settled), log[|log| - 1];
      if e.Registered? && n in e.nodes && e.frame !in settled then list + [e.frame] else list
  }

  function Standing(log: seq<Event>, gone: set<FrameNo>): seq<FrameNo> {
    if log == [] then []
    else
      var list, e := Standing(log[..|log| - 1], gone), log[|log| - 1];
      if e.Registered? && e.frame !in gone then list + [e.frame] else list
  }

  /** The frames whose call of `m` for `n` has been delivered, and those said to be released. */
  ghost function Delivered(log: seq<Event>, n: NodeId, m: Message): set<FrameNo> {
    set e | e in log && Delivers(e, n, m) :: e.frame
  }

  ghost function Released(log: seq<Event>): set<FrameNo> {
    set e | e in log && e.FrameCall? :: e.frame
  }

  ghost predicate IsRegistered(log: seq<Event>, f: FrameNo) {
    exists k :: 0 <= k < |log| && log[k].Registered? && log[k].frame == f
  }

  /** Frame numbers are given out once, and a frame calls its listener after it was registered. */
  ghost predicate Proper(log: seq<Event>) {
    forall k | 0 <= k < |log| ::
      if log[k].Registered? then !IsRegistered(log[..k], log[k].frame) else IsRegistered(log[..k], log[k].frame)
  }

  lemma {:induction false} EraseAbsent(list: seq<FrameNo>, f: FrameNo)
    requires f !in list
    ensures Erase(list, f) == list
  {
    if list != [] {
      EraseAbsent(list[1..], f);
    }
  }

  lemma {:induction false} EraseLast(list: seq<FrameNo>, last: FrameNo, f: FrameNo)
    ensures Erase(list + [last], f) ==
            if f in list then Erase(list, f) + [last] else if f == last then list else list + [last]
  {
    var all := list + [last];
    if list == [] {
    } else {
      EraseLast(list[1..], last, f);
      assert all[1..] == list[1..] + [last] && all[0] == list[0];
      if f in list && list[0] != f {
        assert f in list[1..];
      }
    }
  }

  lemma {:induction false} UnsettledFrom(log: seq<Event>, n: NodeId, settled: set<FrameNo>)
    ensures forall f | f in Unsettled(log, n, settled) :: f !in settled && IsRegistered(log, f)
  {
    if log != [] {
      var front := log[..|log| - 1];
      UnsettledFrom(front, n, settled);
      forall f | f in Unsettled(log, n, settled)
        ensures f !in settled && IsRegistered(log, f)
      {
        if f in Unsettled(front, n, settled) {
          var k :| 0 <= k < |front| && front[k].Registered? && front[k].frame == f;
          assert log[k] == front[k];
        } else {
          assert log[|log| - 1].frame == f;
        }
      }
    }
  }

  /** One more frame is settled: it is the entry that gets erased. */
  lemma {:induction false} SettleErases(log: seq<Event>, n: NodeId, settled: set<FrameNo>, f: FrameNo)
    requires Proper(log)
    ensures Unsettled(log, n, settled + {f}) == Erase(Unsettled(log, n, settled), f)
  {
    if log != [] {
      var front, e := log[..|log| - 1], log[|log| - 1];
      ProperPrefix(log);
      SettleErases(front, n, settled, f);
      var list := Unsettled(front, n, settled);
      UnsettledFrom(front, n, settled);
      if e.Registered? && n in e.nodes && e.frame !in settled {
        EraseLast(list, e.frame, f);
        if f == e.frame {
          assert f !in list;
          EraseAbsent(list, f);
        } else if f !in list {
          EraseAbsent(list, f);
        }
      }
    }
  }

  lemma ProperPrefix(log: seq<Event>)
    requires Proper(log) && log != []
    ensures Proper(log[..|log| - 1])
    ensures var e := log[|log| - 1];
            if e.Registered? then !IsRegistered(log[..|log| - 1], e.frame) else IsRegistered(log[..|log| - 1], e.frame)
  {
    var front := log[..|log| - 1];
    forall k | 0 <= k < |front|
      ensures if front[k].Registered? then !IsRegistered(front[..k], front[k].frame)
              else IsRegistered(front[..k], front[k].frame)
    {
      assert front[..k] == log[..k] && front[k] == log[k];
    }
  }

  /** Deliveries for frames that are not registered yet cannot have happened. */
  lemma {:induction false} DeliveredIsRegistered(log: seq<Event>, n: NodeId, m: Message)
    requires Proper(log)
    ensures forall f | f in Delivered(log, n, m) :: IsRegistered(log, f)
  {
    forall f | f in Delivered(log, n, m)
      ensures IsRegistered(log, f)
    {
      var e :| e in log && Delivers(e, n, m) && e.frame == f;
      var k :| 0 <= k < |log| && log[k] == e;
      assert IsRegistered(log[..k], f);
      var i :| 0 <= i < k && log[..k][i].Registered? && log[..k][i].frame == f;
      assert log[i] == log[..k][i];
    }
  }

  /** The index mirrors the frames: for every node with outputs and either message, the list holds, in the order of
      registration, exactly the frames whose call has not been delivered. */
  lemma {:induction false} ListsMirrorFrames(log: seq<Event>, n: NodeId, m: Message)
    requires Proper(log)
    ensures Owed(log, n, m) == Unsettled(log, n, Delivered(log, n, m))
  {
    if log != [] {
      var front, e := log[..|log| - 1], log[|log| - 1];
      var before := Delivered(front, n, m);
      ListsMirrorFrames(front, n, m) by {
        ProperPrefix(log);
      }
      DeliveredNext(log, n, m);
      if Delivers(e, n, m) {
        assert Proper(front) by {
          ProperPrefix(log);
        }
        SettleErases(front, n, before, e.frame);
        assert Unsettled(log, n, before + {e.frame}) == Unsettled(front, n, before + {e.frame});
      } else {
        assert e.Registered? ==> e.frame !in before by {
          ProperPrefix(log);
          DeliveredIsRegistered(front, n, m);
        }
        if e.Registered? && n in e.nodes {
          assert Unsettled(log, n, before) == Unsettled(front, n, before) + [e.frame];
        } else {
          assert Unsettled(log, n, before) == Unsettled(front, n, before);
        }
      }
    }
  }

  lemma DeliveredNext(log: seq<Event>, n: NodeId, m: Message)
    requires log != []
    ensures var e := log[|log| - 1];
            var before := Delivered(log[..|log| - 1], n, m);
            Delivered(log, n, m) == if Delivers(e, n, m) then before + {e.frame} else before
  {
    assert log == log[..|log| - 1] + [log[|log| - 1]];
  }

  /** waitUntilNodeDrained waits for an empty meta list and then, later, for an empty image list. When it returns,
      every frame that was registered for the node before the call has released all its output metas and images. */
  lemma NodeDrainedIsSound(atCall: seq<Event>, metaEmpty: seq<Event>, imageEmpty: seq<Event>, n: NodeId, f: FrameNo, k: nat)
    requires Proper(imageEmpty) && atCall <= metaEmpty <= imageEmpty
    requires Owed(metaEmpty, n, ALL_OUT_META_BUFFERS_RELEASED) == []
    requires Owed(imageEmpty, n, ALL_OUT_IMAGE_BUFFERS_RELEASED) == []
    requires k < |atCall| && atCall[k].Registered? && atCall[k].frame == f && n in atCall[k].nodes
    ensures f in Delivered(imageEmpty, n, ALL_OUT_META_BUFFERS_RELEASED)
    ensures f in Delivered(imageEmpty, n, ALL_OUT_IMAGE_BUFFERS_RELEASED)
  {
    ProperTake(imageEmpty, metaEmpty);
    ListsMirrorFrames(metaEmpty, n, ALL_OUT_META_BUFFERS_RELEASED);
    ListsMirrorFrames(imageEmpty, n, ALL_OUT_IMAGE_BUFFERS_RELEASED);
    EmptyIffSettled(metaEmpty, n, Delivered(metaEmpty, n, ALL_OUT_META_BUFFERS_RELEASED));
    EmptyIffSettled(imageEmpty, n, Delivered(imageEmpty, n, ALL_OUT_IMAGE_BUFFERS_RELEASED));
    DeliveredStays(metaEmpty, imageEmpty, n, ALL_OUT_META_BUFFERS_RELEASED);
    assert metaEmpty[k] == atCall[k] == imageEmpty[k];
  }

  lemma ProperTake(log: seq<Event>, front: seq<Event>)
    requires Proper(log) && front <= log
    ensures Proper(front)
  {
    forall k | 0 <= k < |front|
      ensures if front[k].Registered? then !IsRegistered(front[..k], front[k].frame)
              else IsRegistered(front[..k], front[k].frame)
    {
      assert front[..k] == log[..k] && front[k] == log[k];
    }
  }

  /** Nobody is owed anything exactly if every frame registered for the node is settled. */
  lemma {:induction false} EmptyIffSettled(log: seq<Event>, n: NodeId, settled: set<FrameNo>)
    ensures Unsettled(log, n, settled) == [] <==>
            forall k | 0 <= k < |log| && log[k].Registered? && n in log[k].nodes :: log[k].frame in settled
  {
    if log != [] {
      EmptyIffSettled(log[..|log| - 1], n, settled);
    }
  }

  /** What comes in after `since` is settled in its turn. */
  ghost predicate LatecomersDelivered(log: seq<Event>, since: nat, n: NodeId, m: Message) {
    forall k | since <= k < |log| && log[k].Registered? && n in log[k].nodes :: log[k].frame in Delivered(log, n, m)
  }

  /** When waitUntilNodeDrained has seen the meta list empty and then the image list, the meta list is empty at that
      moment as well if and only if every frame registered for the node since the first look has had its meta call
      delivered in the meantime. */
  lemma NodeDrainedAtOnceIff(metaEmpty: seq<Event>, imageEmpty: seq<Event>, n: NodeId)
    requires Proper(imageEmpty) && metaEmpty <= imageEmpty
    requires Owed(metaEmpty, n, ALL_OUT_META_BUFFERS_RELEASED) == []
    ensures Owed(imageEmpty, n, ALL_OUT_META_BUFFERS_RELEASED) == [] <==>
            LatecomersDelivered(imageEmpty, |metaEmpty|, n, ALL_OUT_META_BUFFERS_RELEASED)
  {
    var m := ALL_OUT_META_BUFFERS_RELEASED;
    ProperTake(imageEmpty, metaEmpty);
    ListsMirrorFrames(metaEmpty, n, m);
    ListsMirrorFrames(imageEmpty, n, m);
    EmptyIffSettled(metaEmpty, n, Delivered(metaEmpty, n, m));
    EmptyIffSettled(imageEmpty, n, Delivered(imageEmpty, n, m));
    DeliveredStays(metaEmpty, imageEmpty, n, m);
    forall k | 0 <= k < |metaEmpty| && imageEmpty[k].Registered? && n in imageEmpty[k].nodes
      ensures imageEmpty[k].frame in Delivered(imageEmpty, n, m)
    {
      assert metaEmpty[k] == imageEmpty[k];
    }
  }

  lemma DeliveredStays(front: seq<Event>, log: seq<Event>, n: NodeId, m: Message)
    requires front <= log
    ensures Delivered(front, n, m) <= Delivered(log, n, m)
  {
    assert forall e | e in front :: e in log;
  }

  /** So a caller that registers no frame for the node during the call finds both lists empty when it returns. */
  lemma NodeDrainedWhenQuiet(metaEmpty: seq<Event>, imageEmpty: seq<Event>, n: NodeId)
    requires Proper(imageEmpty) && metaEmpty <= imageEmpty
    requires Owed(metaEmpty, n, ALL_OUT_META_BUFFERS_RELEASED) == []
    requires Owed(imageEmpty, n, ALL_OUT_IMAGE_BUFFERS_RELEASED) == []
    requires forall k | |metaEmpty| <= k < |imageEmpty| && imageEmpty[k].Registered? :: n !in imageEmpty[k].nodes
    ensures Owed(imageEmpty, n, ALL_OUT_META_BUFFERS_RELEASED) == Owed(imageEmpty, n, ALL_OUT_IMAGE_BUFFERS_RELEASED) == []
  {
    NodeDrainedAtOnceIff(metaEmpty, imageEmpty, n);
  }

  lemma OwedNext(log: seq<Event>, e: Event, n: NodeId, m: Message)
    ensures Owed(log + [e], n, m) == AfterEvent(Owed(log, n, m), e, n, m)
  {
    assert (log + [e])[..|log|] == log;
  }

  /** A frame that comes in while the image list is waited for can still owe its metas when the wait ends: the two
      waits are not one. */
  lemma NodeDrainedIsNotAtomic()
    ensures exists metaEmpty: seq<Event>, imageEmpty: seq<Event>, n ::
              && Proper(imageEmpty) && metaEmpty <= imageEmpty
              && Owed(metaEmpty, n, ALL_OUT_META_BUFFERS_RELEASED) == []
              && Owed(imageEmpty, n, ALL_OUT_IMAGE_BUFFERS_RELEASED) == []
              && Owed(imageEmpty, n, ALL_OUT_META_BUFFERS_RELEASED) != []
  {
    var a, b := Registered(7, [1]), NodeCall(7, 1, ALL_OUT_IMAGE_BUFFERS_RELEASED);
    var none: seq<Event> := [];
    var late := [a, b];
    assert late[..1] == [a] && late[..0] == none && [a][..0] == none;
    assert IsRegistered([a], 7) by {
      assert [a][0].frame == 7;
    }
    assert Proper(late);
    OwedNext(none, a, 1, ALL_OUT_IMAGE_BUFFERS_RELEASED);
    OwedNext(none, a, 1, ALL_OUT_META_BUFFERS_RELEASED);
    assert none + [a] == [a] && [a] + [b] == late;
    OwedNext([a], b, 1, ALL_OUT_IMAGE_BUFFERS_RELEASED);
    OwedNext([a], b, 1, ALL_OUT_META_BUFFERS_RELEASED);
    assert none <= late;
  }

  // ---------------------------------------------------------------- frames

  lemma {:induction false} AliveFrom(log: seq<Event>, gone: set<FrameNo>)
    ensures forall f | f in Standing(log, gone) :: f !in gone && IsRegistered(log, f)
  {
    if log != [] {
      var front := log[..|log| - 1];
      AliveFrom(front, gone);
      forall f | f in Standing(log, gone)
        ensures f !in gone && IsRegistered(log, f)
      {
        if f in Standing(front, gone) {
          var k :| 0 <= k < |front| && front[k].Registered? && front[k].frame == f;
          assert log[k] == front[k];
        } else {
          assert log[|log| - 1].frame == f;
        }
      }
    }
  }

  lemma {:induction false} GoneErases(log: seq<Event>, gone: set<FrameNo>, f: FrameNo)
    requires Proper(log)
    ensures Standing(log, gone + {f}) == Erase(Standing(log, gone), f)
  {
    if log != [] {
      var front, e := log[..|log| - 1], log[|log| - 1];
      ProperPrefix(log);
      GoneErases(front, gone, f);
      var list := Standing(front, gone);
      AliveFrom(front, gone);
      if e.Registered? && e.frame !in gone {
        EraseLast(list, e.frame, f);
        if f !in list {
          EraseAbsent(list, f);
        }
      }
    }
  }

  lemma {:induction false} ReleasedIsRegistered(log: seq<Event>)
    requires Proper(log)
    ensures forall f | f in Released(log) :: IsRegistered(log, f)
  {
    forall f | f in Released(log)
      ensures IsRegistered(log, f)
    {
      var e :| e in log && e.FrameCall? && e.frame == f;
      var k :| 0 <= k < |log| && log[k] == e;
      assert IsRegistered(log[..k], f);
      var i :| 0 <= i < k && log[..k][i].Registered? && log[..k][i].frame == f;
      assert log[i] == log[..k][i];
    }
  }

  /** The frame list holds, in order, exactly the frames that have not said they are released; a second
      FRAME_RELEASED, as a pre-released frame sends when it dies, changes nothing. */
  lemma {:induction false} FramesMirror(log: seq<Event>)
    requires Proper(log)
    ensures InFlight(log) == Standing(log, Released(log))
  {
    if log != [] {
      var front, e := log[..|log| - 1], log[|log| - 1];
      assert log == front + [e];
      ProperPrefix(log);
      FramesMirror(front);
      if e.FrameCall? {
        assert Released(log) == Released(front) + {e.frame};
        GoneErases(front, Released(front), e.frame);
      } else {
        assert Released(log) == Released(front);
        ReleasedIsRegistered(front);
      }
    }
  }

  lemma SecondReleaseIsHarmless(log: seq<Event>, f: FrameNo)
    requires Proper(log + [FrameCall(f)]) && FrameCall(f) in log
    ensures InFlight(log + [FrameCall(f)]) == InFlight(log)
  {
    var more := log + [FrameCall(f)];
    assert more[..|log|] == log;
    ProperPrefix(more);
    FramesMirror(log);
    AliveFrom(log, Released(log));
    EraseAbsent(InFlight(log), f);
  }

  // ---------------------------------------------------------------- with the frames

  /** A node of a frame that lists nothing any more has been announced exactly once for metas and once for images,
      even if it never had outputs of one sort: so each of its entries in the index goes away. */
  lemma EmptyNodeWasAnnounced(f: Frame, roster: Roster, given: set<ItemId>, n: NodeId, m: Message)
    requires RunOk(f, roster, given) && n in f.nodes && f.nodes[n].AllEmpty()
    ensures multiset(f.out.notices)[NodeNotice(n, m)] == 1
  {
    assert Notified(f.nodes[n], m);
  }

  /** The calls of a frame's listeners that reach the index. */
  ghost predicate Heard(log: seq<Event>, no: FrameNo, notices: seq<Notice>) {
    forall n, m | NodeNotice(n, m) in notices :: NodeCall(no, n, m) in log
  }

  /** Once a node has nothing left of a frame and the frame's notices have been delivered, the frame is in neither
      list of that node: a frame that is flushed through its graph is not waited for by anybody. */
  lemma EmptyNodeLeavesIndex(log: seq<Event>, no: FrameNo, f: Frame, roster: Roster, given: set<ItemId>,
                             n: NodeId, m: Message)
    requires Proper(log) && RunOk(f, roster, given) && n in f.nodes && f.nodes[n].AllEmpty()
    requires Heard(log, no, f.out.notices)
    ensures no !in Owed(log, n, m)
  {
    EmptyNodeWasAnnounced(f, roster, given, n, m);
    assert NodeNotice(n, m) in multiset(f.out.notices);
    assert NodeCall(no, n, m) in log;
    ListsMirrorFrames(log, n, m);
    UnsettledFrom(log, n, Delivered(log, n, m));
  }

  // ---------------------------------------------------------------- the object

  /** What queryIOStreamInfoSet says about a node of the frame: nothing, or whether it has outputs. */
  datatype Query = Failed | HasOutputs(yes: bool)

  /** The nodes that get an entry: those with outputs, up to the first failed query. */
  function NodesToIndex(nodes: seq<(NodeId, Query)>): seq<NodeId> {
    if nodes == [] || nodes[0].1.Failed? then []
    else (if nodes[0].1.yes then [nodes[0].0] else []) + NodesToIndex(nodes[1..])
  }

  function Promotable(frames: seq<FrameNo>, live: set<FrameNo>): seq<FrameNo> {
    if frames == [] then []
    else (if frames[0] in live then [frames[0]] else []) + Promotable(frames[1..], live)
  }

  lemma Regroup(a: seq<FrameNo>, b: seq<FrameNo>, c: seq<FrameNo>)
    ensures a + (b + c) == (a + b) + c
  {}

  lemma {:induction false} PromotableAppend(front: seq<FrameNo>, rest: seq<FrameNo>, live: set<FrameNo>)
    ensures Promotable(front + rest, live) == Promotable(front, live) + Promotable(rest, live)
  {
    if front == [] {
      assert front + rest == rest;
    } else {
      PromotableAppend(front[1..], rest, live);
      assert (front + rest)[1..] == front[1..] + rest && (front + rest)[0] == front[0];
      Regroup(if front[0] in live then [front[0]] else [], Promotable(front[1..], live), Promotable(rest, live));
    }
  }

  lemma {:induction false} PromotableIn(frames: seq<FrameNo>, live: set<FrameNo>, f: FrameNo)
    ensures f in Promotable(frames, live) <==> f in frames && f in live
  {
    if frames != [] {
      PromotableIn(frames[1..], live, f);
      assert frames == [frames[0]] + frames[1..];
    }
  }

  /** abort reaches exactly the frames in flight that can still be promoted, in the order in which they were registered:
      each of them behind those before it and ahead of those after it. */
  lemma AbortsInOrder(log: seq<Event>, live: set<FrameNo>, k: nat)
    requires k < |InFlight(log)|
    ensures var frames := InFlight(log); var f := frames[k];
            && (f in Promotable(frames, live) <==> f in live)
            && Promotable(frames, live) ==
                 Promotable(frames[..k], live) + (if f in live then [f] else []) + Promotable(frames[k + 1..], live)
            && forall g :: g in Promotable(frames, live) ==> g in frames && g in live
  {
    var frames := InFlight(log);
    var front, rest := frames[..k], frames[k..];
    assert frames == front + rest && rest[1..] == frames[k + 1..];
    PromotableAppend(front, rest, live);
    forall g
      ensures g in Promotable(frames, live) <==> g in frames && g in live
    {
      PromotableIn(frames, live, g);
    }
  }

  function At(lists: map<NodeId, seq<FrameNo>>, n: NodeId): seq<FrameNo> {
    if n in lists then lists[n] else []
  }

  function Push(lists: map<NodeId, seq<FrameNo>>, n: NodeId, f: FrameNo): map<NodeId, seq<FrameNo>> {
    lists[n := At(lists, n) + [f]]
  }

  function PushAll(lists: map<NodeId, seq<FrameNo>>, nodes: seq<NodeId>, f: FrameNo): map<NodeId, seq<FrameNo>>
    decreases nodes
  {
    if nodes == [] then lists else PushAll(Push(lists, nodes[0], f), nodes[1..], f)
  }

  ghost predicate Distinct(list: seq<NodeId>) {
    forall j, k | 0 <= j < k < |list| :: list[j] != list[k]
  }

  lemma {:induction false} PushAllAt(lists: map<NodeId, seq<FrameNo>>, nodes: seq<NodeId>, f: FrameNo, n: NodeId)
    requires Distinct(nodes)
    ensures At(PushAll(lists, nodes, f), n) == if n in nodes then At(lists, n) + [f] else At(lists, n)
    decreases nodes
  {
    if nodes != [] {
      PushAllAt(Push(lists, nodes[0], f), nodes[1..], f, n);
      assert nodes == [nodes[0]] + nodes[1..];
      assert nodes[0] !in nodes[1..];
    }
  }

  /** The nodes to index are among the nodes, each as often as there. */
  lemma {:induction false} NodesToIndexDistinct(nodes: seq<(NodeId, Query)>)
    requires forall j, k | 0 <= j < k < |nodes| :: nodes[j].0 != nodes[k].0
    ensures forall n | n in NodesToIndex(nodes) :: exists k :: 0 <= k < |nodes| && nodes[k].0 == n
    ensures Distinct(NodesToIndex(nodes))
  {
    if nodes != [] && !nodes[0].1.Failed? {
      var rest := nodes[1..];
      NodesToIndexDistinct(rest);
      forall n | n in NodesToIndex(rest)
        ensures n != nodes[0].0 && exists k :: 0 <= k < |nodes| && nodes[k].0 == n
      {
        var k :| 0 <= k < |rest| && rest[k].0 == n;
        assert nodes[k + 1].0 == n;
      }
      if nodes[0].1.yes {
        PrependDistinct(nodes[0].0, NodesToIndex(rest));
      }
    }
  }

  /** A node is indexed if and only if its query was answered, it has outputs, and no query before it failed. */
  lemma {:induction false} IndexedIff(nodes: seq<(NodeId, Query)>, n: NodeId)
    ensures n in NodesToIndex(nodes) <==>
            exists k :: 0 <= k < |nodes| && nodes[k] == (n, HasOutputs(true)) && forall j | 0 <= j < k :: !nodes[j].1.Failed?
  {
    if nodes != [] && !nodes[0].1.Failed? {
      var rest := nodes[1..];
      IndexedIff(rest, n);
      if k :| 0 <= k < |rest| && rest[k] == (n, HasOutputs(true)) && forall j | 0 <= j < k :: !rest[j].1.Failed? {
        assert nodes[k + 1] == (n, HasOutputs(true));
        forall j | 0 <= j < k + 1
          ensures !nodes[j].1.Failed?
        {
          assert j > 0 ==> nodes[j] == rest[j - 1];
        }
      }
      if k :| 0 < k < |nodes| && nodes[k] == (n, HasOutputs(true)) && forall j | 0 <= j < k :: !nodes[j].1.Failed? {
        assert rest[k - 1] == (n, HasOutputs(true));
        assert forall j | 0 <= j < k - 1 :: rest[j] == nodes[j + 1];
      }
    }
  }

  lemma PrependDistinct(n: NodeId, list: seq<NodeId>)
    requires n !in list && Distinct(list)
    ensures Distinct([n] + list)
  {
    var r := [n] + list;
    forall j, k | 0 <= j < k < |r|
      ensures r[j] != r[k]
    {
      assert r[k] == list[k - 1] && list[k - 1] in list;
    }
  }

  /** The map of lists is what the log says. */
  ghost predicate Mirrors(lists: map<NodeId, seq<FrameNo>>, log: seq<Event>, m: Message) {
    forall n {:trigger Owed(log, n, m)} :: At(lists, n) == Owed(log, n, m)
  }

  lemma MirrorsNext(lists: map<NodeId, seq<FrameNo>>, after: map<NodeId, seq<FrameNo>>, log: seq<Event>, e: Event,
                    m: Message)
    requires Mirrors(lists, log, m)
    requires forall n :: At(after, n) == AfterEvent(At(lists, n), e, n, m)
    ensures Mirrors(after, log + [e], m)
  {
    forall n
      ensures At(after, n) == Owed(log + [e], n, m)
    {
      OwedNext(log, e, n, m);
      assert At(lists, n) == Owed(log, n, m);
    }
  }

  lemma InFlightNext(log: seq<Event>, e: Event)
    ensures InFlight(log + [e]) ==
            if e.Registered? then InFlight(log) + [e.frame]
            else if e.FrameCall? then Erase(InFlight(log), e.frame)
            else InFlight(log)
  {
    assert (log + [e])[..|log|] == log;
  }

  lemma PushAllNext(lists: map<NodeId, seq<FrameNo>>, nodes: seq<(NodeId, Query)>, k: nat, f: FrameNo)
    requires k < |nodes| && !nodes[k].1.Failed?
    ensures PushAll(lists, NodesToIndex(nodes[k..]), f) ==
            PushAll(if nodes[k].1.yes then Push(lists, nodes[k].0, f) else lists, NodesToIndex(nodes[k + 1..]), f)
  {
    var rest := NodesToIndex(nodes[k + 1..]);
    assert nodes[k..][1..] == nodes[k + 1..];
    assert ([nodes[k].0] + rest)[1..] == rest;
    assert [] + rest == rest;
  }

  class InFlightRequest {
    var requests: seq<FrameNo>
    var metas: map<NodeId, seq<FrameNo>>
    var images: map<NodeId, seq<FrameNo>>
    /** Everything that has reached this object. */
    ghost var log: seq<Event>

    ghost predicate Valid()
      reads this
    {
      && requests == InFlight(log)
      && Mirrors(metas, log, ALL_OUT_META_BUFFERS_RELEASED)
      && Mirrors(images, log, ALL_OUT_IMAGE_BUFFERS_RELEASED)
    }

    constructor ()
      ensures Valid() && log == []
    {
      requests, metas, images, log := [], map[], map[], [];
    }

    /** The loop over the nodes of a new frame; it ends at the first failed query. */
    method IndexNodes(f: FrameNo, nodes: seq<(NodeId, Query)>)
      modifies `metas, `images
      ensures metas == PushAll(old(metas), NodesToIndex(nodes), f)
      ensures images == PushAll(old(images), NodesToIndex(nodes), f)
    {
      var k := 0;
      ghost var allMetas := PushAll(metas, NodesToIndex(nodes), f);
      ghost var allImages := PushAll(images, NodesToIndex(nodes), f);
      assert nodes[0..] == nodes;
      while k < |nodes| && !nodes[k].1.Failed?
        invariant k <= |nodes|
        invariant PushAll(metas, NodesToIndex(nodes[k..]), f) == allMetas
        invariant PushAll(images, NodesToIndex(nodes[k..]), f) == allImages
      {
        PushAllNext(metas, nodes, k, f);
        PushAllNext(images, nodes, k, f);
        if nodes[k].1.yes {
          metas := Push(metas, nodes[k].0, f);
          images := Push(images, nodes[k].0, f);
        }
        k := k + 1;
      }
      assert NodesToIndex(nodes[k..]) == [];
    }

    /** registerRequest. */
    method RegisterRequest(f: FrameNo, nodes: seq<(NodeId, Query)>)
      requires Valid() && forall j, k | 0 <= j < k < |nodes| :: nodes[j].0 != nodes[k].0
      modifies this
      ensures Valid() && log == old(log) + [Registered(f, NodesToIndex(nodes))]
    {
      requests := requests + [f];
      IndexNodes(f, nodes);
      ghost var e := Registered(f, NodesToIndex(nodes));
      NodesToIndexDistinct(nodes);
      forall n
        ensures At(metas, n) == AfterEvent(At(old(metas), n), e, n, ALL_OUT_META_BUFFERS_RELEASED)
        ensures At(images, n) == AfterEvent(At(old(images), n), e, n, ALL_OUT_IMAGE_BUFFERS_RELEASED)
      {
        PushAllAt(old(metas), e.nodes, f, n);
        PushAllAt(old(images), e.nodes, f, n);
      }
      MirrorsNext(old(metas), metas, old(log), e, ALL_OUT_META_BUFFERS_RELEASED);
      MirrorsNext(old(images), images, old(log), e, ALL_OUT_IMAGE_BUFFERS_RELEASED);
      InFlightNext(old(log), e);
      log := log + [e];
    }

    /** The loop that erases a frame from a list. */
    static method EraseFrom(list: seq<FrameNo>, f: FrameNo) returns (r: seq<FrameNo>)
      ensures r == Erase(list, f)
    {
      var it := 0;
      while it < |list| && list[it] != f
        invariant it <= |list| && Erase(list, f) == list[..it] + Erase(list[it..], f)
      {
        assert list[it..][1..] == list[it + 1..] && list[..it + 1] == list[..it] + [list[it]];
        it := it + 1;
      }
      if it < |list| {
        assert list[it..][1..] == list[it + 1..];
        r := list[..it] + list[it + 1..];
      } else {
        assert list[..it] == list && list[it..] == [];
        r := list;
      }
    }

    /** onPipelineFrame for the whole frame. */
    method OnFrameReleased(f: FrameNo)
      requires Valid()
      modifies `requests, `log
      ensures Valid() && log == old(log) + [FrameCall(f)]
    {
      requests := EraseFrom(requests, f);
      MirrorsNext(metas, metas, log, FrameCall(f), ALL_OUT_META_BUFFERS_RELEASED);
      MirrorsNext(images, images, log, FrameCall(f), ALL_OUT_IMAGE_BUFFERS_RELEASED);
      InFlightNext(log, FrameCall(f));
      log := log + [FrameCall(f)];
    }

    /** Erasing a frame from the list of one node, if the node has a list. */
    static method EraseAt(lists: map<NodeId, seq<FrameNo>>, n: NodeId, f: FrameNo)
      returns (r: map<NodeId, seq<FrameNo>>)
      ensures forall k :: At(r, k) == if k == n then Erase(At(lists, k), f) else At(lists, k)
    {
      r := lists;
      if n in lists {
        var list := EraseFrom(lists[n], f);
        r := lists[n := list];
      }
    }

    /** onPipelineFrame for one node: a node without a list is ignored. */
    method OnNode(f: FrameNo, n: NodeId, m: Message)
      requires Valid()
      modifies `metas, `images, `log
      ensures Valid() && log == old(log) + [NodeCall(f, n, m)]
    {
      match m {
        case ALL_OUT_META_BUFFERS_RELEASED =>
          metas := EraseAt(metas, n, f);
        case ALL_OUT_IMAGE_BUFFERS_RELEASED =>
          images := EraseAt(images, n, f);
      }
      ghost var e := NodeCall(f, n, m);
      MirrorsNext(old(metas), metas, log, e, ALL_OUT_META_BUFFERS_RELEASED);
      MirrorsNext(old(images), images, log, e, ALL_OUT_IMAGE_BUFFERS_RELEASED);
      InFlightNext(log, e);
      log := log + [e];
    }

    /** abort: the frames that can still be promoted, taken from the back and put in front, so in order. */
    method Abort(live: set<FrameNo>) returns (aborted: seq<FrameNo>)
      ensures aborted == Promotable(requests, live)
    {
      aborted := [];
      var k := |requests|;
      while k > 0
        invariant 0 <= k <= |requests| && aborted == Promotable(requests[k..], live)
      {
        k := k - 1;
        assert requests[k..][1..] == requests[k + 1..];
        if requests[k] in live {
          aborted := [requests[k]] + aborted;
        }
      }
      assert requests[0..] == requests;
    }
  }
}

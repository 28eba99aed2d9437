/** Packing a frame's tuning data (IspTuningDataPackNode.cpp): in each round one configured group of streams is found
    by its output meta stream, its streams are put into packed maps, and from those the streams to work on are
    chosen. The packed meta map is never cleared between the rounds of a frame. */
module PackRounds {
  import opened SortedKeys
  import opened Wrappers
  import opened FrameModel
  import opened FrameConfiguration

  /** A configured PackStreamInfo; some infos are single and may be null, some are lists. */
  datatype Group = Group(
    outMeta: Option<StreamId>, outImage: Option<StreamId>,
    rrzo: seq<StreamId>, statistics: seq<StreamId>,
    appCtl: seq<StreamId>, p1App: seq<StreamId>, p2App: seq<StreamId>, hal: seq<StreamId>)

  /** What a stream is for in a group; earlier roles win, as in the else-if chains of processFrameWithIOMap. */
  datatype Role = Ctl | P1 | P2 | Hal | Rrzo | Stt | Out | NoRole

  /** Which of the four maps a stream is in. */
  datatype Side = MetaIn | ImageIn | MetaOut | ImageOut

  function RoleOf(g: Group, side: Side, s: StreamId): Role {
    match side
    case MetaIn =>
      if s in g.appCtl then Ctl else if s in g.p1App then P1 else if s in g.p2App then P2
      else if s in g.hal then Hal else NoRole
    case ImageIn => if s in g.rrzo then Rrzo else if s in g.statistics then Stt else NoRole
    case MetaOut => if g.outMeta == Some(s) then Out else NoRole
    case ImageOut => if g.outImage == Some(s) then Out else NoRole
  }

  /** The four maps of a frame or of a round; the keys of a keyed vector are in ascending order. */
  datatype Maps = Maps(metaIn: seq<StreamId>, metaOut: seq<StreamId>, imageIn: seq<StreamId>, imageOut: seq<StreamId>) {
    ghost predicate Ok() {
      Ascending(metaIn) && Ascending(metaOut) && Ascending(imageIn) && Ascending(imageOut)
    }
  }

  /** The last key with a role, as a loop that overwrites its finding leaves it. */
  function Last(keys: seq<StreamId>, g: Group, side: Side, wanted: Role): Option<StreamId> {
    if keys == [] then None
    else if RoleOf(g, side, keys[|keys| - 1]) == wanted then Some(keys[|keys| - 1])
    else Last(keys[..|keys| - 1], g, side, wanted)
  }

  /** What processFrameWithIOMap works on. */
  datatype Chosen = Chosen(
    group: nat, ctl: Option<StreamId>, p1: Option<StreamId>, p2: Option<StreamId>, hal: Option<StreamId>,
    rrzo: Option<StreamId>, stt: Option<StreamId>, outMeta: Option<StreamId>, outImage: Option<StreamId>)

  function Choose(k: nat, g: Group, m: Maps): Chosen {
    Chosen(k, Last(m.metaIn, g, MetaIn, Ctl), Last(m.metaIn, g, MetaIn, P1),
           Last(m.metaIn, g, MetaIn, P2), Last(m.metaIn, g, MetaIn, Hal),
           Last(m.imageIn, g, ImageIn, Rrzo), Last(m.imageIn, g, ImageIn, Stt),
           Last(m.metaOut, g, MetaOut, Out), Last(m.imageOut, g, ImageOut, Out))
  }

  // ---------------------------------------------------------------- the rounds

  /** The first group, in the order of the configuration map, whose output meta stream is still to pack. */
  function FirstGroup(groups: seq<Group>, left: seq<StreamId>): (k: nat)
    ensures k <= |groups|
    ensures k < |groups| ==> groups[k].outMeta.Some? && groups[k].outMeta.value in left
    ensures forall i | 0 <= i < k :: groups[i].outMeta.None? || groups[i].outMeta.value !in left
  {
    if groups == [] || (groups[0].outMeta.Some? && groups[0].outMeta.value in left) then 0
    else 1 + FirstGroup(groups[1..], left)
  }

  /** DefaultKeyedVector::removeItem. */
  function Remove(keys: seq<StreamId>, s: StreamId): (r: seq<StreamId>)
    ensures |r| <= |keys| && (s in keys ==> |r| < |keys|)
  {
    if keys == [] then []
    else
      var front, last := keys[..|keys| - 1], keys[|keys| - 1];
      assert keys == front + [last];
      if last == s then front else Remove(front, s) + [last]
  }

  /** A round: the place of its group and the output meta stream it packs. */
  datatype Round = Round(group: nat, out: StreamId)

  function Rounds(groups: seq<Group>, left: seq<StreamId>): (rounds: seq<Round>)
    ensures forall i | 0 <= i < |rounds| :: rounds[i].group < |groups|
    decreases |left|
  {
    var k := FirstGroup(groups, left);
    if k == |groups| then []
    else
      var out := groups[k].outMeta.value;
      [Round(k, out)] + Rounds(groups, Remove(left, out))
  }

  lemma {:induction false} RemoveMembers(keys: seq<StreamId>, s: StreamId)
    requires Ascending(keys)
    ensures Ascending(Remove(keys, s))
    ensures forall t :: t in Remove(keys, s) <==> t in keys && t != s
  {
    if keys != [] {
      var front, last := keys[..|keys| - 1], keys[|keys| - 1];
      assert keys == front + [last];
      RemoveMembers(front, s);
      assert forall t | t in front :: t < last;
      if last != s {
        AscendingAppend(Remove(front, s), last);
      }
    }
  }

  ghost predicate SomeGroupPacks(groups: seq<Group>, s: StreamId) {
    exists k :: 0 <= k < |groups| && groups[k].outMeta == Some(s)
  }

  /** The streams of the frame that some group packs. */
  ghost function Packable(groups: seq<Group>, left: seq<StreamId>): set<StreamId> {
    set s | s in left && SomeGroupPacks(groups, s)
  }

  ghost function Outs(rounds: seq<Round>): set<StreamId> {
    set r | r in rounds :: r.out
  }

  lemma {:induction false} RoundsInLeft(groups: seq<Group>, left: seq<StreamId>)
    requires Ascending(left)
    ensures forall r | r in Rounds(groups, left) :: r.out in left
    decreases |left|
  {
    var k := FirstGroup(groups, left);
    if k < |groups| {
      var out := groups[k].outMeta.value;
      RemoveMembers(left, out);
      RoundsInLeft(groups, Remove(left, out));
    }
  }

  /** Each round uses the first group that packs its stream. */
  lemma {:induction false} RoundsUseFirstGroup(groups: seq<Group>, left: seq<StreamId>)
    requires Ascending(left)
    ensures forall r | r in Rounds(groups, left) ::
              r.group < |groups| && groups[r.group].outMeta == Some(r.out) &&
              forall k | 0 <= k < r.group :: groups[k].outMeta != Some(r.out)
    decreases |left|
  {
    var k := FirstGroup(groups, left);
    if k < |groups| {
      var out := groups[k].outMeta.value;
      RemoveMembers(left, out);
      RoundsUseFirstGroup(groups, Remove(left, out));
    }
  }

  /** No output meta stream is packed twice. */
  lemma {:induction false} NothingPackedTwice(groups: seq<Group>, left: seq<StreamId>, i: nat, j: nat)
    requires Ascending(left) && i < j < |Rounds(groups, left)|
    ensures Rounds(groups, left)[i].out != Rounds(groups, left)[j].out
    decreases |left|
  {
    var out := groups[FirstGroup(groups, left)].outMeta.value;
    var rest := Rounds(groups, Remove(left, out));
    RemoveMembers(left, out);
    if i == 0 {
      RoundsInLeft(groups, Remove(left, out));
      assert rest[j - 1] in rest;
    } else {
      NothingPackedTwice(groups, Remove(left, out), i - 1, j - 1);
    }
  }

  /** The loop ends after exactly one round for each output meta stream of the frame that some group packs. */
  lemma {:induction false} OneRoundPerStream(groups: seq<Group>, left: seq<StreamId>)
    requires Ascending(left)
    ensures Outs(Rounds(groups, left)) == Packable(groups, left)
    ensures |Rounds(groups, left)| == |Packable(groups, left)|
    decreases |left|
  {
    var k := FirstGroup(groups, left);
    if k == |groups| {
      assert Packable(groups, left) == {};
    } else {
      var out := groups[k].outMeta.value;
      var left1 := Remove(left, out);
      RemoveMembers(left, out);
      OneRoundPerStream(groups, left1);
      assert SomeGroupPacks(groups, out);
      assert Packable(groups, left) == {out} + Packable(groups, left1);
      OutsOfMore(Round(k, out), Rounds(groups, left1));
    }
  }

  lemma OutsOfMore(r: Round, rest: seq<Round>)
    ensures Outs([r] + rest) == {r.out} + Outs(rest)
  {
    forall q
      ensures q in [r] + rest <==> q == r || q in rest
    {}
  }

  // ---------------------------------------------------------------- choosing

  lemma {:induction false} LastIsGreatest(keys: seq<StreamId>, g: Group, side: Side, wanted: Role)
    requires Ascending(keys)
    ensures var r := Last(keys, g, side, wanted);
            && (r.None? <==> forall s | s in keys :: RoleOf(g, side, s) != wanted)
            && (r.Some? ==> r.value in keys && RoleOf(g, side, r.value) == wanted &&
                            forall s | s in keys && RoleOf(g, side, s) == wanted :: s <= r.value)
  {
    if keys != [] {
      var front, last := keys[..|keys| - 1], keys[|keys| - 1];
      LastIsGreatest(front, g, side, wanted);
      forall s | s in keys
        ensures s == last || (s in front && s < last)
      {
        var k :| 0 <= k < |keys| && keys[k] == s;
        assert k < |front| ==> front[k] == s;
      }
      assert forall s | s in front :: s in keys;
    }
  }

  /** Both hold the same streams that have a role in the group. */
  ghost predicate SameInGroup(a: seq<StreamId>, b: seq<StreamId>, g: Group, side: Side) {
    forall s | RoleOf(g, side, s) != NoRole :: s in a <==> s in b
  }

  /** Maps that hold the same streams of a group lead to the same choice, whatever else they hold. */
  lemma SameLast(a: seq<StreamId>, b: seq<StreamId>, g: Group, side: Side, wanted: Role)
    requires Ascending(a) && Ascending(b) && SameInGroup(a, b, g, side) && wanted != NoRole
    ensures Last(a, g, side, wanted) == Last(b, g, side, wanted)
  {
    LastIsGreatest(a, g, side, wanted);
    LastIsGreatest(b, g, side, wanted);
    var x, y := Last(a, g, side, wanted), Last(b, g, side, wanted);
    if x.Some? {
      assert x.value in b;
    }
    if y.Some? {
      assert y.value in a;
    }
  }

  /** The packed maps of a round: everything of the frame that has a role in the group, and of the output metas the
      one of this round. They may hold more, from earlier rounds. */
  ghost predicate Packs(p: Maps, frame: Maps, g: Group, out: StreamId) {
    && p.Ok()
    && SameInGroup(p.metaIn, frame.metaIn, g, MetaIn)
    && SameInGroup(p.imageIn, frame.imageIn, g, ImageIn)
    && SameInGroup(p.imageOut, frame.imageOut, g, ImageOut)
    && g.outMeta == Some(out) && out in p.metaOut
  }

  /** A map that was not cleared leads to the same choice as a fresh one: both to that from the whole frame. */
  lemma UnclearedIsFresh(p: Maps, frame: Maps, k: nat, g: Group, out: StreamId)
    requires frame.Ok() && Packs(p, frame, g, out)
    ensures Choose(k, g, p) == Choose(k, g, frame.(metaOut := [out]))
  {
    SameLast(p.metaIn, frame.metaIn, g, MetaIn, Ctl);
    SameLast(p.metaIn, frame.metaIn, g, MetaIn, P1);
    SameLast(p.metaIn, frame.metaIn, g, MetaIn, P2);
    SameLast(p.metaIn, frame.metaIn, g, MetaIn, Hal);
    SameLast(p.imageIn, frame.imageIn, g, ImageIn, Rrzo);
    SameLast(p.imageIn, frame.imageIn, g, ImageIn, Stt);
    SameLast(p.imageOut, frame.imageOut, g, ImageOut, Out);
    SameLast(p.metaOut, [out], g, MetaOut, Out);
  }

  /** What a round is to work on, if it starts from fresh maps. */
  function ChooseFor(groups: seq<Group>, frame: Maps, r: Round): Chosen
    requires r.group < |groups|
  {
    Choose(r.group, groups[r.group], frame.(metaOut := [r.out]))
  }

  /** The greatest of the keys that are wanted, if there is one. */
  ghost predicate Greatest(keys: seq<StreamId>, wanted: set<StreamId>, r: Option<StreamId>) {
    && (r.None? <==> forall s | s in keys :: s !in wanted)
    && (r.Some? ==> r.value in keys && r.value in wanted && forall s | s in keys && s in wanted :: s <= r.value)
  }

  function Members(list: seq<StreamId>): set<StreamId> {
    set s | s in list
  }

  lemma LastIs(keys: seq<StreamId>, g: Group, side: Side, role: Role, wanted: set<StreamId>)
    requires Ascending(keys) && forall s :: RoleOf(g, side, s) == role <==> s in wanted
    ensures Greatest(keys, wanted, Last(keys, g, side, role))
  {
    LastIsGreatest(keys, g, side, role);
  }

  /** A round works on: of the frame's input metas the greatest app control stream of its group, the greatest P1 app
      stream that is not one of those, the greatest P2 app stream that is neither, the greatest hal stream that is
      none of these; of its input images the greatest rrzo stream and the greatest statistics stream that is not one
      of those; the output meta that the round packs; and the output image of the group if the frame has it. */
  lemma RoundWorksOn(groups: seq<Group>, frame: Maps, r: Round)
    requires frame.Ok() && r.group < |groups| && groups[r.group].outMeta == Some(r.out)
    ensures var g, c := groups[r.group], ChooseFor(groups, frame, r);
            var ctl, p1, p2, hal := Members(g.appCtl), Members(g.p1App), Members(g.p2App), Members(g.hal);
            && c.group == r.group && c.outMeta == Some(r.out)
            && c.outImage == (if g.outImage.Some? && g.outImage.value in frame.imageOut then g.outImage else None)
            && Greatest(frame.metaIn, ctl, c.ctl) && Greatest(frame.metaIn, p1 - ctl, c.p1)
            && Greatest(frame.metaIn, p2 - ctl - p1, c.p2) && Greatest(frame.metaIn, hal - ctl - p1 - p2, c.hal)
            && Greatest(frame.imageIn, Members(g.rrzo), c.rrzo)
            && Greatest(frame.imageIn, Members(g.statistics) - Members(g.rrzo), c.stt)
  {
    var g := groups[r.group];
    var ctl, p1, p2, hal := Members(g.appCtl), Members(g.p1App), Members(g.p2App), Members(g.hal);
    LastIs(frame.metaIn, g, MetaIn, Ctl, ctl);
    LastIs(frame.metaIn, g, MetaIn, P1, p1 - ctl);
    LastIs(frame.metaIn, g, MetaIn, P2, p2 - ctl - p1);
    LastIs(frame.metaIn, g, MetaIn, Hal, hal - ctl - p1 - p2);
    LastIs(frame.imageIn, g, ImageIn, Rrzo, Members(g.rrzo));
    LastIs(frame.imageIn, g, ImageIn, Stt, Members(g.statistics) - Members(g.rrzo));
    LastIsGreatest([r.out], g, MetaOut, Out);
    assert r.out in [r.out];
    LastIsGreatest(frame.imageOut, g, ImageOut, Out);
  }

  // ---------------------------------------------------------------- the loops

  /** Each round worked on what it is to work on. */
  ghost predicate AreChosen(groups: seq<Group>, frame: Maps, chosen: seq<Chosen>, rounds: seq<Round>) {
    && |chosen| <= |rounds|
    && forall i | 0 <= i < |chosen| :: rounds[i].group < |groups| && chosen[i] == ChooseFor(groups, frame, rounds[i])
  }

  lemma OneMoreChosen(groups: seq<Group>, frame: Maps, chosen: seq<Chosen>, rounds: seq<Round>, c: Chosen)
    requires AreChosen(groups, frame, chosen, rounds) && |chosen| < |rounds|
    requires var r := rounds[|chosen|]; r.group < |groups| && c == ChooseFor(groups, frame, r)
    ensures AreChosen(groups, frame, chosen + [c], rounds)
  {}

  /** The rounds from place `n` on. */
  ghost predicate Remain(rounds: seq<Round>, n: nat, rest: seq<Round>) {
    n + |rest| == |rounds| && forall i | 0 <= i < |rest| :: rest[i] == rounds[n + i]
  }

  lemma RemainNext(rounds: seq<Round>, n: nat, rest: seq<Round>)
    requires Remain(rounds, n, rest) && rest != []
    ensures rounds[n] == rest[0] && Remain(rounds, n + 1, rest[1..])
  {}

  /** The loops of onProcessFrame over one pair of maps. `left` is what metaIOMap.vOut still holds. */
  class Packer {
    const groups: seq<Group>
    const frame: Maps
    var left: seq<StreamId>
    var packed: Maps

    constructor (groups: seq<Group>, frame: Maps)
      ensures this.groups == groups && this.frame == frame
      ensures left == frame.metaOut && packed == Maps([], [], [], [])
    {
      this.groups, this.frame := groups, frame;
      left, packed := frame.metaOut, Maps([], [], [], []);
    }

    /** The packed maps hold streams of the frame only. */
    ghost predicate Valid()
      reads this
    {
      && frame.Ok() && packed.Ok() && Ascending(left)
      && (forall s | s in packed.metaIn :: s in frame.metaIn)
      && (forall s | s in packed.imageIn :: s in frame.imageIn)
      && (forall s | s in packed.imageOut :: s in frame.imageOut)
    }

    /** One of the loops that add to a packed map the keys with a role in the group. */
    static method AddAll(keys: seq<StreamId>, g: Group, side: Side, into: seq<StreamId>) returns (r: seq<StreamId>)
      requires Ascending(into)
      ensures Ascending(r)
      ensures forall s :: s in r <==> s in into || (s in keys && RoleOf(g, side, s) != NoRole)
    {
      r := into;
      for i := 0 to |keys|
        invariant Ascending(r)
        invariant forall s :: s in r <==> s in into || (s in keys[..i] && RoleOf(g, side, s) != NoRole)
      {
        assert keys[..i + 1] == keys[..i] + [keys[i]];
        if RoleOf(g, side, keys[i]) != NoRole {
          InsertKeySorts(r, keys[i]);
          r := InsertKey(r, keys[i]);
        }
      }
      assert keys[..|keys|] == keys;
    }

    /** processOnePackIOMapInfo. */
    method ProcessOnePack() returns (found: bool, k: nat)
      requires Valid()
      modifies this
      ensures Valid() && k == FirstGroup(groups, old(left)) && (found <==> k < |groups|)
      ensures !found ==> left == old(left) && packed == old(packed)
      ensures found ==> left == Remove(old(left), groups[k].outMeta.value)
      ensures found ==> Packs(packed, frame, groups[k], groups[k].outMeta.value)
    {
      k := 0;
      while k < |groups| && !(groups[k].outMeta.Some? && groups[k].outMeta.value in left)
        invariant k <= |groups| && FirstGroup(groups, left) == k + FirstGroup(groups[k..], left)
      {
        assert groups[k..][1..] == groups[k + 1..];
        k := k + 1;
      }
      found := k < |groups|;
      if found {
        var g := groups[k];
        var out := g.outMeta.value;
        InsertKeySorts(packed.metaOut, out);
        RemoveMembers(left, out);
        left := Remove(left, out);
        var imageIn := AddAll(frame.imageIn, g, ImageIn, packed.imageIn);
        var imageOut := AddAll(frame.imageOut, g, ImageOut, packed.imageOut);
        var metaIn := AddAll(frame.metaIn, g, MetaIn, packed.metaIn);
        packed := Maps(metaIn, InsertKey(packed.metaOut, out), imageIn, imageOut);
      }
    }

    /** The loop of onProcessFrame. An error ends the frame: `failing` is the first round that would give one. */
    method ProcessAll(failing: nat) returns (chosen: seq<Chosen>, ok: bool)
      requires Valid()
      modifies this
      ensures var rounds := Rounds(groups, old(left));
              && ok == (failing >= |rounds|)
              && |chosen| == (if ok then |rounds| else failing + 1)
              && AreChosen(groups, frame, chosen, rounds)
    {
      chosen := [];
      ghost var rounds := Rounds(groups, left);
      while true
        invariant Valid() && Remain(rounds, |chosen|, Rounds(groups, left))
        invariant |chosen| <= failing
        invariant AreChosen(groups, frame, chosen, rounds)
        decreases |left|
      {
        ghost var rest := Rounds(groups, left);
        var found, c := NextRound();
        if !found {
          return chosen, true;
        }
        RemainNext(rounds, |chosen|, rest);
        OneMoreChosen(groups, frame, chosen, rounds, c);
        chosen := chosen + [c];
        if |chosen| == failing + 1 {
          return chosen, false;
        }
        ClearPackedImages();
      }
    }

    method ClearPackedImages()
      requires Valid()
      modifies `packed
      ensures Valid() && packed.metaIn == old(packed.metaIn) && packed.metaOut == old(packed.metaOut)
      ensures packed.imageIn == [] && packed.imageOut == []
    {
      packed := packed.(imageIn := [], imageOut := []);
    }

    /** One round: what it works on is what it would be with fresh maps. */
    method NextRound() returns (found: bool, c: Chosen)
      requires Valid()
      modifies this
      ensures Valid() && (found ==> |left| < |old(left)|)
      ensures var rest := Rounds(groups, old(left));
              if found then
                |rest| > 0 && rest[1..] == Rounds(groups, left) && c == ChooseFor(groups, frame, rest[0])
              else rest == []
    {
      var k;
      found, k := ProcessOnePack();
      if found {
        UnclearedIsFresh(packed, frame, k, groups[k], groups[k].outMeta.value);
        c := Choose(k, groups[k], packed);
      } else {
        c := Chosen(0, None, None, None, None, None, None, None, None);
      }
    }
  }
}

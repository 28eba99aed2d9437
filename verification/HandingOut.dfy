/** Who gets a buffer (getImageBuffer, getMetaBuffer): a user that asks gets it exactly when every user ahead of it has
    let go and somebody has still to release it. */
module HandingOut {
  import opened Users
  import opened Wrappers
  import opened FrameModel
  import opened WorldFacts
  import opened FrameInvariant
  import opened FrameRuns
  import opened FrameConfiguration
  import opened FlushDrain
  import N = NodeNotices

  /** Each user ahead of `u` has marked RELEASE, PRE_RELEASE or RELEASE_STILLUSE. */
  ghost predicate AllAheadLetGo(us: Users, u: UserId) {
    u in us.prior ==>
      forall p | p in us.prior[u] && (p in us.producers || p in us.consumers) ::
        p in us.released || p in us.preReleased || p in us.stillUse
  }

  ghost predicate SomebodyHolds(us: Users) {
    exists v :: (v in us.producers || v in us.consumers) && v !in us.released
  }

  /** The user may have the item now. */
  ghost predicate IsDue(f: Frame, i: ItemId, u: UserId) {
    && i in f.w.items && i in f.w.mapped
    && var us := f.w.items[i].users;
       (u in us.producers || u in us.consumers) && AllAheadLetGo(us, u) && SomebodyHolds(us)
  }

  /** There is a buffer, or the provider gives one when it is asked; it is asked for images that have not failed. */
  predicate HasOrGets(item: Item, k: Kind, ask: Outcome) {
    item.buffer.Some? || (IsImage(k) && !item.acquireFailed && ask.Answer? && ask.ok && ask.sb.Some?)
  }

  lemma CountIsThere(w: World, i: ItemId)
    requires CountsOk(w) && i in w.mapped
    ensures w.counts.At(i.kind) != 0
  {
    assert w.counts.At(i.kind) == |OfKind(w.mapped, i.kind)|;
    assert i in OfKind(w.mapped, i.kind);
  }

  lemma DueByMarks(f: Frame, i: ItemId, u: UserId, us: Users)
    requires i in f.w.items && i in f.w.mapped && us == f.w.items[i].users && us.active
    ensures IsDue(f, i, u) <==> !us.AllReleased() && us.MayAcquire(u)
  {
    if !us.AllReleased() {
      if !(us.producers <= us.released) {
        var v := Outside(us.producers, us.released);
      } else {
        var v := Outside(us.consumers, us.released);
      }
    }
  }

  /** getBufferLockedImp finds the buffer if there is one or the provider gives one, and marks nobody then. */
  lemma AcquireFinds(f: Frame, i: ItemId, u: UserId, ask: Outcome, roster: Roster)
    requires FrameOk(f, roster)
    ensures var g := Acquire(f, i, u, ask);
            && (g.item.Some? <==> i in f.w.items && i in f.w.mapped && HasOrGets(f.w.items[i], i.kind, ask))
            && (g.item.Some? ==>
                  && g.item == Some(i) && i in g.f.w.items && g.f.w.items[i].users == f.w.items[i].users
                  && g.f.w.items[i].buffer.Some?)
  {
    if i in f.w.items && i in f.w.mapped {
      assert ItemOk(f.w, i);
      CountIsThere(f.w, i);
    }
  }

  /** A user is handed the buffer of an item if and only if the item is mapped, the user is one of its users, each user
      ahead has marked RELEASE, PRE_RELEASE or RELEASE_STILLUSE, some user has not released, and there is a buffer. */
  lemma HandedOutIff(f: Frame, i: ItemId, u: UserId, ask: Outcome, roster: Roster)
    requires FrameOk(f, roster)
    ensures var g := GetBuffer(f, i, u, ask);
            && (g.item.Some? <==> IsDue(f, i, u) && HasOrGets(f.w.items[i], i.kind, ask))
            && (g.item.Some? ==> g.item == Some(i) && i in g.f.w.items && g.f.w.items[i].buffer.Some?)
  {
    AcquireFinds(f, i, u, ask, roster);
    if i in f.w.items && i in f.w.mapped {
      assert ItemOk(f.w, i);
      DueByMarks(f, i, u, f.w.items[i].users);
    }
  }

  function AskFor(i: ItemId, halAsk: Outcome, appAsk: Outcome): Outcome {
    if i.kind == HalImage || i.kind == HalMeta then halAsk else appAsk
  }

  /** No stream has both a Hal and an App item of its sort. */
  ghost predicate OneItemEach(w: World) {
    forall i, j | i in w.items && j in w.items && i.stream == j.stream && IsImage(i.kind) == IsImage(j.kind) :: i == j
  }

  /** getImageBuffer and getMetaBuffer find the one item of the stream, whichever map it is in. */
  lemma StreamHandedOutIff(f: Frame, image: bool, st: StreamId, u: UserId, halAsk: Outcome, appAsk: Outcome,
                           i: ItemId, roster: Roster)
    requires FrameOk(f, roster) && OneItemEach(f.w) && i.stream == st && IsImage(i.kind) == image
    requires i in f.w.items
    ensures GetStream(f, image, st, u, halAsk, appAsk).item ==
            if IsDue(f, i, u) && HasOrGets(f.w.items[i], i.kind, AskFor(i, halAsk, appAsk)) then Some(i) else None
  {
    var hal := ItemId(if image then HalImage else HalMeta, st);
    var app := ItemId(if image then AppImage else AppMeta, st);
    HandedOutIff(f, hal, u, halAsk, roster);
    if i == hal {
      HandedOutIff(f, i, u, halAsk, roster);
      assert app !in f.w.items;
      AcquireKeys(f, hal, u, halAsk);
      GetBufferMisses(GetBuffer(f, hal, u, halAsk).f, app, u, appAsk);
    } else {
      assert i == app && hal !in f.w.items;
      GetBufferMisses(f, hal, u, halAsk);
      HandedOutIff(f, app, u, appAsk, roster);
    }
  }

  lemma NoStreamNoBuffer(f: Frame, image: bool, st: StreamId, u: UserId, halAsk: Outcome, appAsk: Outcome)
    requires forall i | i in f.w.items :: !(i.stream == st && IsImage(i.kind) == image)
    ensures GetStream(f, image, st, u, halAsk, appAsk).item == None
  {
    var hal := ItemId(if image then HalImage else HalMeta, st);
    GetBufferMisses(f, hal, u, halAsk);
  }

  // ---------------------------------------------------------------- runs

  /** The users of an item are those of the plan, further marked, and perhaps late consumers. */
  ghost predicate UsersPlanned(s: Setup, w: World) {
    w.items.Keys == ItemsOf(s).Keys && forall i | i in w.items :: LaterUsers(UsersOf(s, i), w.items[i].users, true)
  }

  lemma NextPlanned(s: Setup, f: Frame, step: Step, roster: Roster, given: set<ItemId>)
    requires RunOk(f, roster, given) && Allowed(f, step) && UsersPlanned(s, f.w)
    ensures UsersPlanned(s, Next(f, step).w)
  {
    NextLater(f, step, roster, given);
    var g := Next(f, step);
    forall i | i in g.w.items
      ensures LaterUsers(UsersOf(s, i), g.w.items[i].users, true)
    {
      assert LaterUsers(f.w.items[i].users, g.w.items[i].users, i in GetsConsumer(step));
      if g.w.items[i].users.active {
        ExtendsTrans(UsersOf(s, i), f.w.items[i].users, g.w.items[i].users);
      }
    }
  }

  lemma {:induction false} PlannedOn(s: Setup, states: seq<Frame>, k: nat)
    requires k < |states| && UsersPlanned(s, states[0].w)
    requires forall j: nat | j < k && UsersPlanned(s, states[j].w) :: UsersPlanned(s, states[j + 1].w)
    ensures UsersPlanned(s, states[k].w)
  {
    if k > 0 {
      PlannedOn(s, states, k - 1);
      assert UsersPlanned(s, states[k - 1].w);
    }
  }

  lemma StepPlanned(s: Setup, states: seq<Frame>, steps: seq<Step>, roster: Roster, given: set<ItemId>, k: nat)
    requires IsRun(states, steps) && RunOk(states[0], roster, given) && k < |steps| && UsersPlanned(s, states[k].w)
    ensures UsersPlanned(s, states[k + 1].w)
  {
    RunKeeps(states, steps, roster, given, k);
    NextPlanned(s, states[k], steps[k], roster, given);
  }

  lemma ConfiguredUsers(s: Setup)
    requires SetupOk(s)
    ensures UsersPlanned(s, Configured(s).w)
  {
    forall i | i in Configured(s).w.items
      ensures Configured(s).w.items[i].users == UsersOf(s, i)
    {
      FreshItem(s, i);
    }
  }

  lemma RunPlanned(states: seq<Frame>, steps: seq<Step>, s: Setup, k: nat)
    requires SetupOk(s) && IsRun(states, steps) && states[0] == Configured(s) && k <= |steps|
    ensures RunOk(states[k], RosterOf(s), Given(s)) && UsersPlanned(s, states[k].w) && OneItemEach(states[k].w)
  {
    ConfiguredOk(s);
    ConfiguredUsers(s);
    RunKeeps(states, steps, RosterOf(s), Given(s), k);
    forall j: nat | j < k && UsersPlanned(s, states[j].w)
      ensures UsersPlanned(s, states[j + 1].w)
    {
      StepPlanned(s, states, steps, RosterOf(s), Given(s), j);
    }
    PlannedOn(s, states, k);
    N.OneItemEach(s);
  }

  /** At every point of every run: a user that asks for a stream gets its item if and only if it is due and there is a
      buffer or the provider gives one. */
  lemma EveryHandOut(states: seq<Frame>, steps: seq<Step>, s: Setup, k: nat, image: bool, st: StreamId, u: UserId,
                     halAsk: Outcome, appAsk: Outcome, i: ItemId)
    requires SetupOk(s) && IsRun(states, steps) && states[0] == Configured(s) && k <= |steps|
    requires i.stream == st && IsImage(i.kind) == image
    ensures GetStream(states[k], image, st, u, halAsk, appAsk).item == Some(i) <==>
            IsDue(states[k], i, u) && HasOrGets(states[k].w.items[i], i.kind, AskFor(i, halAsk, appAsk))
  {
    RunPlanned(states, steps, s, k);
    var f := states[k];
    if j :| j in f.w.items && j.stream == st && IsImage(j.kind) == image {
      StreamHandedOutIff(f, image, st, u, halAsk, appAsk, j, RosterOf(s));
    } else {
      NoStreamNoBuffer(f, image, st, u, halAsk, appAsk);
    }
  }

  /** In particular no node of the plan gets a buffer before the nodes ahead of it, as far as they read or write it,
      have let go. */
  lemma HandOutFollowsOrder(states: seq<Frame>, steps: seq<Step>, s: Setup, k: nat, image: bool, st: StreamId, n: NodeId,
                            halAsk: Outcome, appAsk: Outcome, i: ItemId, p: NodeId)
    requires SetupOk(s) && IsRun(states, steps) && states[0] == Configured(s) && k <= |steps|
    requires i.stream == st && IsImage(i.kind) == image
    requires GetStream(states[k], image, st, n, halAsk, appAsk).item == Some(i)
    requires n in s.plan && p in s.ahead[n] && p in Listers(s, i)
    ensures i in states[k].w.items
    ensures var us := states[k].w.items[i].users; p in us.released || p in us.preReleased || p in us.stillUse
  {
    EveryHandOut(states, steps, s, k, image, st, n, halAsk, appAsk, i);
    RunPlanned(states, steps, s, k);
    var us := states[k].w.items[i].users;
    assert ItemOk(states[k].w, i);
    assert LaterUsers(UsersOf(s, i), us, true);
    UsersAreListers(s, i);
  }

  // ---------------------------------------------------------------- marking

  /** The order in which the maps are searched for a stream. */
  function SearchPlace(k: Kind): nat {
    match k
    case AppImage => 0
    case AppMeta => 1
    case HalImage => 2
    case HalMeta => 3
  }

  /** The search for the item's stream ends at this item. */
  ghost predicate IsFound(w: World, i: ItemId) {
    i in w.items && forall j | j in w.items && j.stream == i.stream :: SearchPlace(i.kind) <= SearchPlace(j.kind)
  }

  function If(b: bool, u: UserId): set<UserId> {
    if b then {u} else {}
  }

  /** The users with the mark added that goes with the status; ACQUIRE and USED leave none that anybody asks for. */
  function WithMark(us: Users, u: UserId, status: Status, marked: bool): Users {
    us.(released := us.released + If(marked && status == RELEASE, u),
        preReleased := us.preReleased + If(marked && status == PRE_RELEASE, u),
        stillUse := us.stillUse + If(marked && status == RELEASE_STILLUSE, u))
  }

  lemma MarkAdds(us: Users, u: UserId, status: Status)
    ensures us.Mark(u, status) == WithMark(us, u, status, us.active && (u in us.producers || u in us.consumers))
    ensures WithMark(us, u, status, false) == us
  {
    assert us.released + {} == us.released && us.preReleased + {} == us.preReleased && us.stillUse + {} == us.stillUse;
  }

  /** markUserStatus marks exactly the item at which the search for the stream ends, if that is still mapped and `u` is one
      of its users. */
  lemma MarksExactly(f: Frame, st: StreamId, u: UserId, status: Status, i: ItemId)
    requires i in f.w.items
    ensures var g := MarkUserStatus(f, st, u, status); var us := f.w.items[i].users;
            var marked := i.stream == st && IsFound(f.w, i) && i in f.w.mapped && us.active
                          && (u in us.producers || u in us.consumers);
            && g == f.(w := f.w.(items := g.w.items)) && g.w.items.Keys == f.w.items.Keys
            && g.w.items[i] == f.w.items[i].(users := WithMark(us, u, status, marked))
  {
    MarkAdds(f.w.items[i].users, u, status);
    FindsFirst(f.w, st, i);
    MarksFound(f, st, u, status, i);
  }

  lemma MarksFound(f: Frame, st: StreamId, u: UserId, status: Status, i: ItemId)
    requires i in f.w.items
    ensures var g := MarkUserStatus(f, st, u, status); var us := f.w.items[i].users;
            && g == f.(w := f.w.(items := g.w.items)) && g.w.items.Keys == f.w.items.Keys
            && g.w.items[i] == f.w.items[i].(users :=
                 if FindItem(f.w, st) == Some(i) && i in f.w.mapped then us.Mark(u, status) else us)
  {}

  lemma FindsFirst(w: World, st: StreamId, i: ItemId)
    requires i in w.items
    ensures FindItem(w, st) == Some(i) <==> i.stream == st && IsFound(w, i)
  {
    if i.stream == st && IsFound(w, i) {
      var j := FindItem(w, st).value;
      assert j.stream == st && j in w.items;
      assert SearchPlace(i.kind) <= SearchPlace(j.kind);
    }
  }
}

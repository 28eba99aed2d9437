/** Selections on their way from the policy to a plugin: kept apart while a feature set is evaluated, then pushed to
    the plugin's per-provider queues or cancelled, and popped there by token or from the front. */
module SelectionQueues {
  import opened Wrappers

  type ProviderId = int

  /** Tokens are equal when all five fields are. */
  datatype Token = Token(uniqueKey: int, reqNum: int, indexNum: int, sensorId: int, isPhysical: bool)

  datatype Selection = Selection(token: Option<Token>, serial: int)

  /** A null selection can be pushed as well. */
  type Queue = seq<Option<Selection>>

  predicate Matches(item: Option<Selection>, t: Token) {
    item.Some? && item.value.token == Some(t)
  }

  /** The place of the first entry with the token, or the length. */
  function Find(q: Queue, t: Token): (k: nat)
    ensures k <= |q|
    ensures k < |q| ==> Matches(q[k], t)
    ensures forall i | 0 <= i < k :: !Matches(q[i], t)
  {
    if q == [] || Matches(q[0], t) then 0 else 1 + Find(q[1..], t)
  }

  /** `token` is None when there is none or tokens are switched off. */
  datatype Popped = Popped(rest: Queue, sel: Option<Selection>)

  function Pop(q: Queue, token: Option<Token>): Popped {
    if q == [] then Popped(q, None)
    else if token.None? then Popped(q[1..], q[0])
    else
      var k := Find(q, token.value);
      if k < |q| then Popped(RemoveAt(q, k), q[k]) else Popped(q, None)
  }

  // ---------------------------------------------------------------- runs of one queue

  datatype Op = Push(sel: Selection) | PopBy(token: Option<Token>)

  function After(ops: seq<Op>): Queue {
    if ops == [] then []
    else
      var q := After(ops[..|ops| - 1]);
      match ops[|ops| - 1]
      case Push(sel) => q + [Some(sel)]
      case PopBy(token) => Pop(q, token).rest
  }

  /** The selections that were pushed, and those that pops gave out, in order. */
  function Pushed(ops: seq<Op>): seq<Selection> {
    if ops == [] then []
    else
      var op := ops[|ops| - 1];
      Pushed(ops[..|ops| - 1]) + if op.Push? then [op.sel] else []
  }

  function Given(ops: seq<Op>): seq<Selection> {
    if ops == [] then []
    else
      var op, front := ops[|ops| - 1], ops[..|ops| - 1];
      Given(front) +
      if op.PopBy? && Pop(After(front), op.token).sel.Some? then [Pop(After(front), op.token).sel.value] else []
  }

  function Tokens(list: seq<Selection>): set<Option<Token>> {
    set s | s in list :: s.token
  }

  /** The selections whose token is not among those gone, in their order. */
  function Remaining(list: seq<Selection>, gone: set<Option<Token>>): Queue {
    if list == [] then []
    else
      var last := list[|list| - 1];
      Remaining(list[..|list| - 1], gone) + if last.token in gone then [] else [Some(last)]
  }

  ghost predicate DistinctTokens(list: seq<Selection>) {
    && (forall k | 0 <= k < |list| :: list[k].token.Some?)
    && (forall j, k | 0 <= j < k < |list| :: list[j].token != list[k].token)
  }

  lemma {:induction false} RemainingMembers(list: seq<Selection>, gone: set<Option<Token>>)
    ensures forall o | o in Remaining(list, gone) :: o.Some? && o.value in list && o.value.token !in gone
    ensures forall s | s in list && s.token !in gone :: Some(s) in Remaining(list, gone)
  {
    if list != [] {
      var front, last := list[..|list| - 1], list[|list| - 1];
      assert list == front + [last];
      RemainingMembers(front, gone);
    }
  }

  function RemoveAt(q: Queue, k: nat): Queue
    requires k < |q|
  {
    q[..k] + q[k + 1..]
  }

  function Without(q: Queue, t: Token): Queue {
    var k := Find(q, t);
    if k < |q| then RemoveAt(q, k) else q
  }

  lemma RemoveAtAppend(q: Queue, o: Option<Selection>, k: nat)
    requires k <= |q|
    ensures RemoveAt(q + [o], k) == if k < |q| then RemoveAt(q, k) + [o] else q
  {}

  lemma {:induction false} FindAppend(q: Queue, o: Option<Selection>, t: Token)
    ensures Find(q + [o], t) == if Find(q, t) < |q| then Find(q, t) else if Matches(o, t) then |q| else |q| + 1
  {
    if q != [] && !Matches(q[0], t) {
      FindAppend(q[1..], o, t);
      assert (q + [o])[1..] == q[1..] + [o];
    }
  }

  lemma WithoutAppend(q: Queue, o: Option<Selection>, t: Token)
    ensures Without(q + [o], t) == if Find(q, t) < |q| then Without(q, t) + [o] else if Matches(o, t) then q else q + [o]
  {
    FindAppend(q, o, t);
    if Find(q, t) < |q| || Matches(o, t) {
      RemoveAtAppend(q, o, Find(q, t));
    }
  }

  lemma NotAmongEarlier(list: seq<Selection>, gone: set<Option<Token>>, t: Token)
    requires DistinctTokens(list) && list != [] && list[|list| - 1].token == Some(t)
    ensures var q := Remaining(list[..|list| - 1], gone); Find(q, t) == |q|
  {
    var front := list[..|list| - 1];
    var q := Remaining(front, gone);
    RemainingMembers(front, gone);
    forall i | 0 <= i < |q|
      ensures !Matches(q[i], t)
    {
      assert q[i] in q && q[i].value in front;
    }
  }

  /** One more token gone: its entry, and only it, is missing. */
  lemma {:induction false} OneMoreGone(list: seq<Selection>, gone: set<Option<Token>>, t: Token)
    requires DistinctTokens(list)
    ensures Remaining(list, gone + {Some(t)}) == Without(Remaining(list, gone), t)
  {
    if list != [] {
      var front, last := list[..|list| - 1], list[|list| - 1];
      OneMoreGone(front, gone, t);
      var q := Remaining(front, gone);
      if last.token in gone {
        assert Remaining(list, gone) == q && Remaining(list, gone + {Some(t)}) == Without(q, t);
      } else {
        WithoutAppend(q, Some(last), t);
        if last.token == Some(t) {
          NotAmongEarlier(list, gone, t);
          assert Remaining(list, gone + {Some(t)}) == Without(q, t);
        }
      }
    }
  }

  lemma PopHeld(q: Queue, token: Option<Token>)
    ensures var p := Pop(q, token); Held(q) == Held(p.rest) + One(p.sel)
  {
    if q != [] {
      if token.None? {
        HeldFirst(q);
      } else if Find(q, token.value) < |q| {
        HeldRemoved(q, Find(q, token.value));
      }
    }
  }

  /** Every selection pushed is in the queue or was given out, as often as it was pushed. */
  lemma {:induction false} GivenWasPushed(ops: seq<Op>)
    ensures multiset(Pushed(ops)) == multiset(Given(ops)) + Held(After(ops))
  {
    if ops != [] {
      var front, op := ops[..|ops| - 1], ops[|ops| - 1];
      GivenWasPushed(front);
      match op
      case Push(sel) => HeldAppend(After(front), Some(sel));
      case PopBy(token) => PopHeld(After(front), token);
    }
  }

  function One(o: Option<Selection>): multiset<Selection> {
    if o.Some? then multiset{o.value} else multiset{}
  }

  ghost function Held(q: Queue): multiset<Selection> {
    if q == [] then multiset{}
    else Held(q[..|q| - 1]) + One(q[|q| - 1])
  }

  lemma HeldAppend(q: Queue, o: Option<Selection>)
    ensures Held(q + [o]) == Held(q) + One(o)
  {
    assert (q + [o])[..|q|] == q;
  }

  lemma {:induction false} HeldConcat(a: Queue, b: Queue)
    ensures Held(a + b) == Held(a) + Held(b)
  {
    if b == [] {
      assert a + b == a;
    } else {
      assert (a + b)[..|a + b| - 1] == a + b[..|b| - 1];
      HeldConcat(a, b[..|b| - 1]);
    }
  }

  lemma HeldFirst(q: Queue)
    requires q != []
    ensures Held(q) == One(q[0]) + Held(q[1..])
  {
    assert [q[0]] + q[1..] == q;
    HeldConcat([q[0]], q[1..]);
    assert Held([q[0]]) == Held([]) + One(q[0]);
  }

  lemma HeldSplit(q: Queue, k: nat)
    requires k <= |q|
    ensures Held(q) == Held(q[..k]) + Held(q[k..])
  {
    assert q[..k] + q[k..] == q;
    HeldConcat(q[..k], q[k..]);
  }

  lemma HeldRemoved(q: Queue, k: nat)
    requires k < |q|
    ensures Held(q) == Held(RemoveAt(q, k)) + One(q[k])
  {
    HeldSplit(q, k);
    HeldFirst(q[k..]);
    assert q[k..][1..] == q[k + 1..];
    HeldConcat(q[..k], q[k + 1..]);
  }

  /** With distinct tokens, whatever mix of pops by token and from the front has happened, the queue holds exactly
      the selections that were not given out yet, in the order in which they were pushed. */
  lemma {:induction false} QueueKeepsPushOrder(ops: seq<Op>)
    requires DistinctTokens(Pushed(ops))
    ensures After(ops) == Remaining(Pushed(ops), Tokens(Given(ops)))
  {
    if ops != [] {
      var front, op := ops[..|ops| - 1], ops[|ops| - 1];
      EarlierDistinct(ops);
      QueueKeepsPushOrder(front);
      match op {
        case Push(sel) =>
          assert front + [Push(sel)] == ops;
          PushFresh(front, sel);
        case PopBy(token) =>
          assert front + [PopBy(token)] == ops;
          AfterPop(front, token);
          PopTakes(Pushed(front), Given(front), token);
      }
    }
  }

  lemma EarlierDistinct(ops: seq<Op>)
    requires DistinctTokens(Pushed(ops)) && ops != []
    ensures DistinctTokens(Pushed(ops[..|ops| - 1]))
  {
    var op := ops[|ops| - 1];
    DistinctFront(Pushed(ops[..|ops| - 1]), if op.Push? then [op.sel] else []);
  }

  lemma DistinctFront(a: seq<Selection>, b: seq<Selection>)
    requires DistinctTokens(a + b)
    ensures DistinctTokens(a)
  {
    assert forall k | 0 <= k < |a| :: (a + b)[k] == a[k];
  }

  lemma AfterPop(front: seq<Op>, token: Option<Token>)
    ensures var ops, p := front + [PopBy(token)], Pop(After(front), token);
            && After(ops) == p.rest && Pushed(ops) == Pushed(front)
            && Given(ops) == if p.sel.Some? then Given(front) + [p.sel.value] else Given(front)
  {
    var ops := front + [PopBy(token)];
    assert ops[..|front|] == front;
    assert Pushed(front) + [] == Pushed(front) && Given(front) + [] == Given(front);
  }

  /** A pop on the queue of what remains: what it gives out is what is missing afterwards. */
  lemma PopTakes(list: seq<Selection>, given: seq<Selection>, token: Option<Token>)
    requires DistinctTokens(list)
    ensures var p := Pop(Remaining(list, Tokens(given)), token);
            p.rest == Remaining(list, Tokens(if p.sel.Some? then given + [p.sel.value] else given))
  {
    var gone := Tokens(given);
    var q := Remaining(list, gone);
    var p := Pop(q, token);
    RemainingMembers(list, gone);
    if p.sel.Some? {
      TakenAt(q, token);
      var t := p.sel.value.token.value;
      assert Tokens(given + [p.sel.value]) == gone + {Some(t)};
      OneMoreGone(list, gone, t);
    } else {
      assert forall k | 0 <= k < |q| :: q[k] in q;
    }
  }

  /** A new selection's token cannot have been given out. */
  lemma PushFresh(front: seq<Op>, sel: Selection)
    requires DistinctTokens(Pushed(front + [Push(sel)]))
    ensures var gone := Tokens(Given(front));
            && Given(front + [Push(sel)]) == Given(front)
            && Remaining(Pushed(front + [Push(sel)]), gone) == Remaining(Pushed(front), gone) + [Some(sel)]
  {
    var ops := front + [Push(sel)];
    assert ops[..|front|] == front;
    GivenWasPushed(front);
    var list := Pushed(front);
    assert Pushed(ops) == list + [sel] && (list + [sel])[..|list|] == list;
    forall s | s in Given(front)
      ensures s.token != sel.token
    {
      assert multiset(Given(front))[s] > 0;
      assert s in multiset(list);
      var k :| 0 <= k < |list| && list[k] == s;
      assert Pushed(ops)[k] == s && Pushed(ops)[|list|] == sel;
    }
  }

  /** What a pop gives out is the first entry with its token. */
  lemma TakenAt(q: Queue, token: Option<Token>)
    requires Pop(q, token).sel.Some? && Pop(q, token).sel.value.token.Some?
    ensures Pop(q, token).rest == Without(q, Pop(q, token).sel.value.token.value)
  {
    if token.None? {
      assert Find(q, q[0].value.token.value) == 0;
      assert q[..0] + q[1..] == q[1..];
    }
  }

  /** A pop by token gives out the selection that was pushed with the token, unless it was given out before. */
  lemma PopGivesWhatWasPushed(ops: seq<Op>, t: Token)
    requires DistinctTokens(Pushed(ops))
    ensures var sel := Pop(After(ops), Some(t)).sel;
            && (sel.Some? <==> Some(t) in Tokens(Pushed(ops)) && Some(t) !in Tokens(Given(ops)))
            && (sel.Some? ==> sel.value in Pushed(ops) && sel.value.token == Some(t))
  {
    QueueKeepsPushOrder(ops);
    var list, gone, q := Pushed(ops), Tokens(Given(ops)), After(ops);
    RemainingMembers(list, gone);
    var k := Find(q, t);
    if k < |q| {
      assert q[k] in q;
    }
  }

  /** The first entry of the queue, null entries aside, whose token is `t`. */
  ghost predicate IsFirstWith(q: Queue, t: Token, k: nat) {
    && k < |q| && q[k].Some? && q[k].value.token == Some(t)
    && forall j | 0 <= j < k :: q[j].None? || q[j].value.token != Some(t)
  }

  /** A pop by token takes out the first selection with that token and leaves all others, null entries too, in order; if
      there is none it takes nothing. */
  lemma PopTakesFirst(q: Queue, t: Token, k: nat)
    ensures IsFirstWith(q, t, k) ==> Pop(q, Some(t)) == Popped(q[..k] + q[k + 1..], q[k])
    ensures (forall o | o in q :: o.None? || o.value.token != Some(t)) ==> Pop(q, Some(t)) == Popped(q, None)
  {
    var f := Find(q, t);
    if IsFirstWith(q, t, k) {
      assert Matches(q[k], t);
      assert f == k;
    }
    if f < |q| {
      assert q[f] in q;
    }
  }

  // ---------------------------------------------------------------- the plugin's queues

  function At(queues: map<ProviderId, Queue>, p: ProviderId): Queue {
    if p in queues then queues[p] else []
  }

  class PipelinePlugin {
    var selections: map<ProviderId, Queue>

    constructor ()
      ensures selections == map[]
    {
      selections := map[];
    }

    method PushSelection(p: ProviderId, sel: Option<Selection>)
      modifies this
      ensures selections == old(selections)[p := At(old(selections), p) + [sel]]
    {
      selections := selections[p := At(selections, p) + [sel]];
    }

    method NumOfSelection(p: ProviderId) returns (n: nat)
      modifies this
      ensures selections == old(selections)[p := At(old(selections), p)]
      ensures n == |At(old(selections), p)|
    {
      selections := selections[p := At(selections, p)];
      n := |selections[p]|;
    }

    /** The loop of find_if. */
    static method FindIf(q: Queue, t: Token) returns (k: nat)
      ensures k == Find(q, t)
    {
      k := 0;
      while k < |q| && !Matches(q[k], t)
        invariant k <= |q| && Find(q, t) == k + Find(q[k..], t)
      {
        assert q[k..][1..] == q[k + 1..];
        k := k + 1;
      }
    }

    method PopSelection(p: ProviderId, token: Option<Token>, tokensEnabled: bool) returns (sel: Option<Selection>)
      modifies this
      ensures var r := Pop(At(old(selections), p), if tokensEnabled then token else None);
              sel == r.sel && selections == old(selections)[p := r.rest]
    {
      var q := At(selections, p);
      selections := selections[p := q];
      if q == [] {
        return None;
      }
      if tokensEnabled && token.Some? {
        var k := FindIf(q, token.value);
        if k < |q| {
          sel := q[k];
          selections := selections[p := q[..k] + q[k + 1..]];
        } else {
          sel := None;
        }
      } else {
        sel := q[0];
        selections := selections[p := q[1..]];
      }
    }

    method FrontSelection(p: ProviderId, token: Option<Token>, tokensEnabled: bool) returns (sel: Option<Selection>)
      modifies this
      ensures sel == Pop(At(old(selections), p), if tokensEnabled then token else None).sel
      ensures selections == old(selections)[p := At(old(selections), p)]
    {
      var q := At(selections, p);
      selections := selections[p := q];
      if q == [] {
        return None;
      }
      if tokensEnabled && token.Some? {
        var k := FindIf(q, token.value);
        sel := if k < |q| then q[k] else None;
      } else {
        sel := q[0];
      }
    }
  }

  // ---------------------------------------------------------------- the wrapper's temporary lists

  function Repeat(sel: Option<Selection>, n: nat): Queue {
    if n == 0 then [] else Repeat(sel, n - 1) + [sel]
  }

  /** What pushSelection makes of the selections kept for one provider: a single one stands for all frames. */
  function Expand(kept: Queue, frameCount: nat): Queue {
    if frameCount > 1 && |kept| == 1 then Repeat(kept[0], frameCount) else kept
  }

  lemma {:induction false} RepeatAt(sel: Option<Selection>, n: nat)
    ensures |Repeat(sel, n)| == n && forall k | 0 <= k < n :: Repeat(sel, n)[k] == sel
  {
    if n > 0 {
      RepeatAt(sel, n - 1);
    }
  }

  /** A single kept selection serves every frame of the request: each pop, with its token or with none, gives it and leaves
      it for the frames still to come, and after the last frame the queue is as before. Several kept selections, or one
      for a single frame, are pushed as they are. */
  lemma EveryFrameIsServed(sel: Selection, frameCount: nat, kept: Queue, k: nat, byToken: bool)
    requires frameCount > 1 && k < frameCount
    ensures |Expand([Some(sel)], frameCount)| == frameCount
    ensures var q := Expand([Some(sel)], frameCount);
            Pop(q[k..], if byToken then sel.token else None) == Popped(q[k + 1..], Some(sel))
    ensures |kept| != 1 ==> Expand(kept, frameCount) == kept
    ensures Expand(kept, 1) == kept && Expand(kept, 0) == kept
  {
    RepeatAt(Some(sel), frameCount);
    var q := Expand([Some(sel)], frameCount);
    assert q[k..][0] == Some(sel) && q[k..][1..] == q[k + 1..];
    if byToken && sel.token.Some? {
      PopTakesFirst(q[k..], sel.token.value, 0);
      assert q[k..][..0] + q[k..][1..] == q[k + 1..];
    }
  }

  class PluginWrapper {
    const plugin: PipelinePlugin
    var temp: map<ProviderId, Queue>

    constructor (p: PipelinePlugin)
      ensures plugin == p && temp == map[]
    {
      plugin := p;
      temp := map[];
    }

    method KeepSelection(p: ProviderId, sel: Option<Selection>)
      modifies this
      ensures temp == old(temp)[p := At(old(temp), p) + [sel]]
    {
      if p in temp {
        temp := temp[p := temp[p] + [sel]];
      } else {
        temp := temp[p := [sel]];
        assert [] + [sel] == [sel];
      }
    }

    method PushRepeated(p: ProviderId, sel: Option<Selection>, n: nat)
      modifies plugin
      ensures At(plugin.selections, p) == At(old(plugin.selections), p) + Repeat(sel, n)
      ensures forall k | k != p :: At(plugin.selections, k) == At(old(plugin.selections), k)
    {
      ghost var was := At(plugin.selections, p);
      assert was + Repeat(sel, 0) == was;
      for i := 0 to n
        invariant At(plugin.selections, p) == was + Repeat(sel, i)
        invariant forall k | k != p :: At(plugin.selections, k) == At(old(plugin.selections), k)
      {
        plugin.PushSelection(p, sel);
        assert was + Repeat(sel, i) + [sel] == was + Repeat(sel, i + 1);
      }
    }

    method PushEach(p: ProviderId, kept: Queue)
      modifies plugin
      ensures At(plugin.selections, p) == At(old(plugin.selections), p) + kept
      ensures forall k | k != p :: At(plugin.selections, k) == At(old(plugin.selections), k)
    {
      for i := 0 to |kept|
        invariant At(plugin.selections, p) == At(old(plugin.selections), p) + kept[..i]
        invariant forall k | k != p :: At(plugin.selections, k) == At(old(plugin.selections), k)
      {
        plugin.PushSelection(p, kept[i]);
      }
      assert kept[..|kept|] == kept;
    }

    /** What pushSelection does for one provider. */
    method PushFor(p: ProviderId, kept: Queue, frameCount: nat)
      modifies plugin
      ensures At(plugin.selections, p) == At(old(plugin.selections), p) + Expand(kept, frameCount)
      ensures forall k | k != p :: At(plugin.selections, k) == At(old(plugin.selections), k)
    {
      if frameCount > 1 && |kept| == 1 {
        PushRepeated(p, kept[0], frameCount);
      } else {
        PushEach(p, kept);
      }
    }

    /** pushSelection: in whatever order the providers come, each queue grows by what was kept for its provider. */
    method PushSelection(frameCount: nat)
      requires frameCount < 256
      modifies this, plugin
      ensures temp == map[]
      ensures forall p :: At(plugin.selections, p) ==
                          At(old(plugin.selections), p) + Expand(At(old(temp), p), frameCount)
    {
      var todo := temp.Keys;
      while todo != {}
        invariant todo <= temp.Keys
        invariant forall p :: At(plugin.selections, p) == At(old(plugin.selections), p) +
                              if p in todo then [] else Expand(At(temp, p), frameCount)
        decreases |todo|
        modifies plugin
      {
        var p := Pick(todo);
        todo := todo - {p};
        PushFor(p, temp[p], frameCount);
      }
      temp := map[];
    }

    method Cancel()
      modifies this
      ensures temp == map[]
    {
      temp := map[];
    }
  }
}

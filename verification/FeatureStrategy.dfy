/** Choosing plugins for a capture request (FeatureSettingPolicy_ISP.cpp): single-raw providers are taken greedily by
    priority until their features cover what is asked for or none matches, then one multi-frame provider may cover
    the rest. A feature set that does not work out leaves no selections behind. */
module FeatureStrategy {
  import opened Wrappers
  import opened SelectionQueues

  /** A 64-bit feature mask as the set of its bits; providers are listed by falling priority. */
  type Features = set<nat>

  // ---------------------------------------------------------------- looking a provider up

  /** The place of the first provider that has one of the wanted features, or the number of providers. */
  function FirstMatch(providers: seq<Features>, wanted: Features): (k: nat)
    ensures k <= |providers|
    ensures k < |providers| ==> providers[k] * wanted != {}
    ensures forall i | 0 <= i < k :: providers[i] * wanted == {}
  {
    if providers == [] || providers[0] * wanted != {} then 0 else 1 + FirstMatch(providers[1..], wanted)
  }

  /** The conversion of the loop's 8-bit counter to the signed index that is handed back. */
  function Int8(k: nat): int {
    if k % 256 < 128 then k % 256 else k % 256 - 256
  }

  /** The loop of tryGetKeyFeature is over at turn `k`: its 8-bit counter has left the list, or the provider there
      matches. */
  predicate LookupStops(providers: seq<Features>, wanted: Features, k: nat) {
    k % 256 >= |providers| || providers[k % 256] * wanted != {}
  }

  /** The loop comes to an end if and only if the list is shorter than 256 or one of its first 256 providers
      matches; otherwise the counter goes round for ever. */
  lemma LookupEndsIff(providers: seq<Features>, wanted: Features)
    ensures (exists k: nat :: LookupStops(providers, wanted, k)) <==>
            |providers| < 256 || FirstMatch(providers, wanted) < 256
  {
    var first := FirstMatch(providers, wanted);
    if |providers| < 256 {
      assert |providers| % 256 == |providers|;
      assert LookupStops(providers, wanted, |providers|);
    } else if first < 256 {
      assert first % 256 == first;
      if first < |providers| {
        assert LookupStops(providers, wanted, first);
      }
    } else {
      forall k: nat
        ensures !LookupStops(providers, wanted, k)
      {
        assert k % 256 < first;
      }
    }
  }

  /** tryGetKeyFeature, whenever its loop comes to an end. */
  method TryGetKeyFeature(providers: seq<Features>, wanted: Features)
    returns (found: bool, keyFeature: Features, keyFeatureIndex: int)
    requires |providers| < 256 || FirstMatch(providers, wanted) < 256
    ensures found <==> FirstMatch(providers, wanted) < |providers|
    ensures found ==> keyFeature == providers[FirstMatch(providers, wanted)]
    ensures found ==> keyFeatureIndex == Int8(FirstMatch(providers, wanted))
    ensures !found ==> keyFeature == {} && keyFeatureIndex == 0
  {
    var i := 0;
    while i < |providers|
      invariant 0 <= i <= FirstMatch(providers, wanted) && i < 256
      decreases 256 - i
    {
      keyFeature := providers[i];
      if keyFeature * wanted != {} {
        return true, keyFeature, Int8(i);
      }
      i := (i + 1) % 256;
    }
    return false, {}, 0;
  }

  /** The index handed back is the provider's place if and only if the place is below 128. */
  lemma IndexIsPlace(providers: seq<Features>, wanted: Features)
    requires |providers| < 256 || FirstMatch(providers, wanted) < 256
    ensures Int8(FirstMatch(providers, wanted)) == FirstMatch(providers, wanted) <==> FirstMatch(providers, wanted) < 128
  {}

  // ---------------------------------------------------------------- the plan

  /** The raw providers taken, in turn: each is the first that has a feature still to find. */
  function RawPlan(raws: seq<Features>, check: Features): seq<nat>
    decreases check
  {
    var k := FirstMatch(raws, check);
    if k == |raws| then []
    else
      [k] + if check - raws[k] == {} then [] else RawPlan(raws, check - raws[k])
  }

  /** What the raw providers leave to find. */
  function LeftByRaws(raws: seq<Features>, check: Features): Features
    decreases check
  {
    var k := FirstMatch(raws, check);
    if k == |raws| then check
    else
      if check - raws[k] == {} then {} else LeftByRaws(raws, check - raws[k])
  }

  ghost predicate Distinct(ks: seq<nat>) {
    forall i, j | 0 <= i < j < |ks| :: ks[i] != ks[j]
  }

  function MfpPlan(mfps: seq<Features>, left: Features): seq<nat> {
    var k := FirstMatch(mfps, left);
    if k == |mfps| then [] else [k]
  }

  function Union(providers: seq<Features>, ks: seq<nat>): Features
    requires forall k | k in ks :: k < |providers|
  {
    if ks == [] then {}
    else
      assert ks[0] in ks && forall k | k in ks[1..] :: k in ks;
      providers[ks[0]] + Union(providers, ks[1..])
  }

  lemma {:induction false} RawPlanInRange(raws: seq<Features>, check: Features)
    ensures forall k | k in RawPlan(raws, check) :: k < |raws| && raws[k] * check != {}
    decreases check
  {
    var k := FirstMatch(raws, check);
    if k < |raws| && check - raws[k] != {} {
      RawPlanInRange(raws, check - raws[k]);
      forall i | i in RawPlan(raws, check - raws[k])
        ensures i < |raws| && raws[i] * check != {}
      {
        assert raws[i] * (check - raws[k]) <= raws[i] * check;
      }
    }
  }

  /** No raw provider is taken twice: once taken, none of its features is left to find. */
  lemma {:induction false} RawPlanDistinct(raws: seq<Features>, check: Features)
    ensures Distinct(RawPlan(raws, check))
    decreases check
  {
    var k := FirstMatch(raws, check);
    if k < |raws| && check - raws[k] != {} {
      var left := check - raws[k];
      var rest := RawPlan(raws, left);
      RawPlanDistinct(raws, left);
      RawPlanInRange(raws, left);
      assert raws[k] * left == {};
      forall i, j | 0 <= i < j < |[k] + rest|
        ensures ([k] + rest)[i] != ([k] + rest)[j]
      {
        assert rest[j - 1] in rest;
        if i > 0 {
          assert rest[i - 1] != rest[j - 1];
        }
      }
    }
  }

  /** What is left is exactly what no raw provider of the plan has. */
  lemma {:induction false} LeftIsUncovered(raws: seq<Features>, check: Features)
    requires forall k | k in RawPlan(raws, check) :: k < |raws|
    ensures LeftByRaws(raws, check) == check - Union(raws, RawPlan(raws, check))
    decreases check
  {
    var k := FirstMatch(raws, check);
    if k < |raws| {
      var left := check - raws[k];
      var rest := if left == {} then [] else RawPlan(raws, left);
      assert RawPlan(raws, check) == [k] + rest && ([k] + rest)[1..] == rest;
      if left != {} {
        RawPlanInRange(raws, left);
        LeftIsUncovered(raws, left);
      }
    }
  }

  /** Every provider of the plan was the highest-priority one with a feature that was still to find at its turn. */
  lemma {:induction false} EachIsFirstAtItsTurn(raws: seq<Features>, check: Features, i: nat)
    requires i < |RawPlan(raws, check)|
    ensures forall k | k in RawPlan(raws, check)[..i] :: k < |raws|
    ensures RawPlan(raws, check)[i] == FirstMatch(raws, check - Union(raws, RawPlan(raws, check)[..i]))
    decreases check
  {
    var k := FirstMatch(raws, check);
    var left := check - raws[k];
    var rest := if left == {} then [] else RawPlan(raws, left);
    assert RawPlan(raws, check) == [k] + rest;
    if i == 0 {
      assert check - {} == check;
    } else {
      EachIsFirstAtItsTurn(raws, left, i - 1);
      assert ([k] + rest)[..i] == [k] + rest[..i - 1] && ([k] + rest[..i - 1])[1..] == rest[..i - 1];
      assert check - (raws[k] + Union(raws, rest[..i - 1])) == left - Union(raws, rest[..i - 1]);
    }
  }

  // ---------------------------------------------------------------- a feature set

  /** The providers that negotiate OK for this request. Each provider is asked at most once per feature set. */
  datatype Agreement = Agreement(raws: set<nat>, mfps: set<nat>)

  function AgreedPrefix(plan: seq<nat>, agree: set<nat>): seq<nat> {
    if plan == [] || plan[0] !in agree then [] else [plan[0]] + AgreedPrefix(plan[1..], agree)
  }

  predicate AllAgree(plan: seq<nat>, agree: set<nat>) {
    forall k | k in plan :: k in agree
  }

  /** The outcome of a feature set: it works out if and only if every provider of the plan agrees and together they
      have all features asked for. */
  predicate Works(raws: seq<Features>, mfps: seq<Features>, key: Features, a: Agreement) {
    key == {} ||
    (var left := LeftByRaws(raws, key);
     && AllAgree(RawPlan(raws, key), a.raws)
     && AllAgree(MfpPlan(mfps, left), a.mfps)
     && (if FirstMatch(mfps, left) == |mfps| then left == {} else left - mfps[FirstMatch(mfps, left)] == {}))
  }

  function RawsKept(raws: seq<Features>, key: Features, a: Agreement): seq<nat> {
    if key == {} then [] else AgreedPrefix(RawPlan(raws, key), a.raws)
  }

  function MfpsKept(raws: seq<Features>, mfps: seq<Features>, key: Features, a: Agreement): seq<nat> {
    if key == {} || !AllAgree(RawPlan(raws, key), a.raws) then []
    else AgreedPrefix(MfpPlan(mfps, LeftByRaws(raws, key)), a.mfps)
  }

  lemma {:induction false} AgreedPrefixIsAll(plan: seq<nat>, agree: set<nat>)
    ensures AgreedPrefix(plan, agree) <= plan
    ensures AllAgree(plan, agree) <==> AgreedPrefix(plan, agree) == plan
  {
    if plan != [] && plan[0] in agree {
      AgreedPrefixIsAll(plan[1..], agree);
      assert plan == [plan[0]] + plan[1..];
    }
  }

  /** If a feature set works out, every feature asked for belongs to a provider that negotiated OK: raw providers,
      each once, and at most one multi-frame provider. */
  lemma WorkingCovers(raws: seq<Features>, mfps: seq<Features>, key: Features, a: Agreement)
    requires Works(raws, mfps, key, a)
    ensures var r, m := RawsKept(raws, key, a), MfpsKept(raws, mfps, key, a);
            && (forall k | k in r :: k < |raws| && k in a.raws) && (forall k | k in m :: k < |mfps| && k in a.mfps)
            && key <= Union(raws, r) + Union(mfps, m)
            && |m| <= 1 && Distinct(r)
  {
    if key != {} {
      var plan, left := RawPlan(raws, key), LeftByRaws(raws, key);
      RawPlanInRange(raws, key);
      RawPlanDistinct(raws, key);
      LeftIsUncovered(raws, key);
      AgreedPrefixIsAll(plan, a.raws);
      AgreedPrefixIsAll(MfpPlan(mfps, left), a.mfps);
      var k := FirstMatch(mfps, left);
      if k < |mfps| {
        assert [k][1..] == [];
        assert Union(mfps, [k]) == mfps[k];
      }
    }
  }

  lemma {:induction false} AgreedPrefixAt(plan: seq<nat>, agree: set<nat>, i: nat)
    requires i < |plan|
    ensures i < |AgreedPrefix(plan, agree)| <==> forall j | 0 <= j <= i :: plan[j] in agree
    ensures AgreedPrefix(plan, agree) <= plan
  {
    if plan[0] in agree {
      var rest := plan[1..];
      if i > 0 {
        AgreedPrefixAt(rest, agree, i - 1);
        assert forall j | 0 <= j < i :: rest[j] == plan[j + 1];
        if forall j | 0 <= j < i :: rest[j] in agree {
          forall j | 0 <= j <= i
            ensures plan[j] in agree
          {
            assert j > 0 ==> plan[j] == rest[j - 1];
          }
        }
      } else if rest != [] {
        AgreedPrefixAt(rest, agree, 0);
      }
    }
  }

  /** A feature set works out if and only if the providers of the plan have all its features and all of them agree; the
      empty one always does. */
  lemma WorksIff(raws: seq<Features>, mfps: seq<Features>, key: Features, a: Agreement)
    ensures var plan, m := RawPlan(raws, key), MfpPlan(mfps, LeftByRaws(raws, key));
            && (forall k | k in plan :: k < |raws|) && (forall k | k in m :: k < |mfps|)
            && (Works(raws, mfps, key, a) <==>
                  && key <= Union(raws, plan) + Union(mfps, m)
                  && (forall k | k in plan :: k in a.raws) && (forall k | k in m :: k in a.mfps))
  {
    var plan, left := RawPlan(raws, key), LeftByRaws(raws, key);
    RawPlanInRange(raws, key);
    LeftIsUncovered(raws, key);
    var k := FirstMatch(mfps, left);
    if k < |mfps| {
      assert [k][1..] == [];
      assert Union(mfps, [k]) == mfps[k];
    }
    if key == {} {
      assert FirstMatch(raws, key) == |raws|;
      assert left == {} && k == |mfps|;
    }
  }

  /** Which selections are kept on the way: of the raw providers of the plan those before the first that does not agree,
      and the multi-frame provider only if all raw ones agreed and it does too. */
  lemma KeptUpToRefusal(raws: seq<Features>, mfps: seq<Features>, key: Features, a: Agreement, i: nat)
    requires key != {} && i < |RawPlan(raws, key)|
    ensures RawsKept(raws, key, a) <= RawPlan(raws, key)
    ensures i < |RawsKept(raws, key, a)| <==> forall j | 0 <= j <= i :: RawPlan(raws, key)[j] in a.raws
    ensures forall k :: k in MfpsKept(raws, mfps, key, a) <==>
              && (forall r | r in RawPlan(raws, key) :: r in a.raws)
              && k in MfpPlan(mfps, LeftByRaws(raws, key)) && k in a.mfps
  {
    AgreedPrefixAt(RawPlan(raws, key), a.raws, i);
    var m := MfpPlan(mfps, LeftByRaws(raws, key));
    assert m != [] ==> m == [m[0]] && m[1..] == [] && AgreedPrefix(m[1..], a.mfps) == [];
  }

  // ---------------------------------------------------------------- the object

  datatype Request = Request(requestNo: int, frameIndex: int, openId: int, uniqueKey: int)

  function SelectionFor(r: Request, k: nat): Option<Selection> {
    Some(Selection(Some(Token(r.uniqueKey, r.requestNo, r.frameIndex, r.openId, false)), k))
  }

  function Keep(temp: map<ProviderId, Queue>, k: nat, r: Request): map<ProviderId, Queue> {
    temp[k := At(temp, k) + [SelectionFor(r, k)]]
  }

  function KeepAll(temp: map<ProviderId, Queue>, ks: seq<nat>, r: Request): map<ProviderId, Queue> {
    if ks == [] then temp else Keep(KeepAll(temp, ks[..|ks| - 1], r), ks[|ks| - 1], r)
  }

  lemma KeepOneMore(temp: map<ProviderId, Queue>, ks: seq<nat>, k: nat, r: Request)
    ensures KeepAll(temp, ks + [k], r) == Keep(KeepAll(temp, ks, r), k, r)
  {
    assert (ks + [k])[..|ks|] == ks;
  }

  /** Distinct providers are kept with one selection each. */
  lemma {:induction false} KeptOnce(ks: seq<nat>, r: Request, p: ProviderId)
    requires Distinct(ks)
    ensures At(KeepAll(map[], ks, r), p) == if p >= 0 && p in ks then [SelectionFor(r, p)] else []
  {
    if ks != [] {
      var front, last := ks[..|ks| - 1], ks[|ks| - 1];
      assert ks == front + [last];
      KeptOnce(front, r, p);
      assert last !in front;
    }
  }

  class FeatureSettingPolicy {
    const raws: seq<Features>
    const mfps: seq<Features>
    const rawWrapper: PluginWrapper
    const mfpWrapper: PluginWrapper

    constructor (raws: seq<Features>, mfps: seq<Features>, rawWrapper: PluginWrapper, mfpWrapper: PluginWrapper)
      ensures this.raws == raws && this.mfps == mfps && this.rawWrapper == rawWrapper && this.mfpWrapper == mfpWrapper
    {
      this.raws, this.mfps, this.rawWrapper, this.mfpWrapper := raws, mfps, rawWrapper, mfpWrapper;
    }

    /** strategySingleRawPlugin and strategyMultiFramePlugin: one provider is looked up, asked, and if it agrees its
        selection is kept. Only a refusal makes them fail. */
    method AskProvider(providers: seq<Features>, wrapper: PluginWrapper, check: Features, agree: set<nat>, r: Request)
      returns (ok: bool, foundFeature: Features)
      requires |providers| < 128
      modifies wrapper
      ensures var k := FirstMatch(providers, check);
              if k == |providers| then ok && foundFeature == {} && wrapper.temp == old(wrapper.temp)
              else ok == (k in agree) && foundFeature == providers[k] &&
                   wrapper.temp == if ok then Keep(old(wrapper.temp), k, r) else old(wrapper.temp)
    {
      var found, index;
      found, foundFeature, index := TryGetKeyFeature(providers, check);
      ok := true;
      if found {
        var k: nat := index;
        ok := k in agree;
        if ok {
          wrapper.KeepSelection(k, SelectionFor(r, k));
        }
      }
    }

    /** The do-while loop over the raw providers. */
    method StrategyRaws(key: Features, agree: set<nat>, r: Request) returns (ok: bool, left: Features)
      requires key != {} && |raws| < 128
      modifies rawWrapper
      ensures ok == AllAgree(RawPlan(raws, key), agree)
      ensures ok ==> left == LeftByRaws(raws, key)
      ensures rawWrapper.temp == KeepAll(old(rawWrapper.temp), AgreedPrefix(RawPlan(raws, key), agree), r)
    {
      var check, more := key, true;
      ghost var taken: seq<nat> := [];
      while more
        invariant more ==> check != {}
        invariant Stands(raws, key, agree, taken, check, more)
        invariant rawWrapper.temp == KeepAll(old(rawWrapper.temp), taken, r)
        decreases more, check
      {
        ghost var k := FirstMatch(raws, check);
        OneTurn(raws, key, agree, taken, check);
        var found;
        ok, found := AskProvider(raws, rawWrapper, check, agree, r);
        if !ok {
          return false, check;
        }
        if k < |raws| {
          KeepOneMore(old(rawWrapper.temp), taken, k, r);
          taken := taken + [k];
        }
        check := check - found;
        more := found != {} && check != {};
      }
      assert taken + [] == taken;
      return true, check;
    }

    /** strategyCaptureFeature. */
    method StrategyCaptureFeature(key: Features, a: Agreement, r: Request) returns (ok: bool)
      requires |raws| < 128 && |mfps| < 128 && rawWrapper != mfpWrapper
      modifies rawWrapper, mfpWrapper
      ensures ok == Works(raws, mfps, key, a)
      ensures rawWrapper.temp == KeepAll(old(rawWrapper.temp), RawsKept(raws, key, a), r)
      ensures mfpWrapper.temp == KeepAll(old(mfpWrapper.temp), MfpsKept(raws, mfps, key, a), r)
    {
      if key == {} {
        return true;
      }
      var left;
      ok, left := StrategyRaws(key, a.raws, r);
      if !ok {
        return false;
      }
      var found;
      ok, found := AskProvider(mfps, mfpWrapper, left, a.mfps, r);
      MfpTurn(old(mfpWrapper.temp), mfps, left, a.mfps, r);
      if !ok {
        return false;
      }
      return left - found == {};
    }

    /** updatePluginSelection: push for one frame, or cancel. */
    method UpdatePluginSelection(isFeatureTrigger: bool, frameCount: nat)
      requires frameCount < 256 && rawWrapper != mfpWrapper && rawWrapper.plugin != mfpWrapper.plugin
      modifies rawWrapper, mfpWrapper, rawWrapper.plugin, mfpWrapper.plugin
      ensures rawWrapper.temp == map[] && mfpWrapper.temp == map[]
      ensures forall p :: At(rawWrapper.plugin.selections, p) == At(old(rawWrapper.plugin.selections), p) +
                          if isFeatureTrigger then Expand(At(old(rawWrapper.temp), p), frameCount) else []
      ensures forall p :: At(mfpWrapper.plugin.selections, p) == At(old(mfpWrapper.plugin.selections), p) +
                          if isFeatureTrigger then Expand(At(old(mfpWrapper.temp), p), frameCount) else []
    {
      if isFeatureTrigger {
        mfpWrapper.PushSelection(frameCount);
        rawWrapper.PushSelection(frameCount);
      } else {
        mfpWrapper.Cancel();
        rawWrapper.Cancel();
      }
    }

    /** One turn of the loop of evaluateCaptureSetting. */
    method TryFeatureSet(key: Features, a: Agreement, r: Request) returns (ok: bool)
      requires |raws| < 128 && |mfps| < 128
      requires rawWrapper != mfpWrapper && rawWrapper.plugin != mfpWrapper.plugin
      requires rawWrapper.temp == map[] && mfpWrapper.temp == map[]
      modifies rawWrapper, mfpWrapper, rawWrapper.plugin, mfpWrapper.plugin
      ensures rawWrapper.temp == map[] && mfpWrapper.temp == map[] && ok == Works(raws, mfps, key, a)
      ensures Grew(old(rawWrapper.plugin.selections), rawWrapper.plugin.selections,
                   if ok then RawsKept(raws, key, a) else [], r)
      ensures Grew(old(mfpWrapper.plugin.selections), mfpWrapper.plugin.selections,
                   if ok then MfpsKept(raws, mfps, key, a) else [], r)
    {
      ok := StrategyCaptureFeature(key, a, r);
      KeptForEach(raws, mfps, key, a, r);
      UpdatePluginSelection(ok, 1);
    }

    /** evaluateCaptureSetting: feature sets are tried in turn, `agreements[k]` says who agrees when set `k` is tried.
        The temporary lists are empty again afterwards, and the queues have grown by one selection for each provider
        of the first set that worked out, or by nothing. */
    method EvaluateCaptureSetting(sets: seq<Features>, agreements: seq<Agreement>, r: Request) returns (ok: bool)
      requires |raws| < 128 && |mfps| < 128 && |agreements| == |sets|
      requires rawWrapper != mfpWrapper && rawWrapper.plugin != mfpWrapper.plugin
      requires rawWrapper.temp == map[] && mfpWrapper.temp == map[]
      modifies rawWrapper, mfpWrapper, rawWrapper.plugin, mfpWrapper.plugin
      ensures rawWrapper.temp == map[] && mfpWrapper.temp == map[]
      ensures var k := FirstWorking(raws, mfps, sets, agreements);
              && ok == (k < |sets|)
              && Grew(old(rawWrapper.plugin.selections), rawWrapper.plugin.selections,
                      if ok then RawsKept(raws, sets[k], agreements[k]) else [], r)
              && Grew(old(mfpWrapper.plugin.selections), mfpWrapper.plugin.selections,
                      if ok then MfpsKept(raws, mfps, sets[k], agreements[k]) else [], r)
    {
      ghost var rawWas, mfpWas := rawWrapper.plugin.selections, mfpWrapper.plugin.selections;
      NothingGrew(rawWas, r);
      NothingGrew(mfpWas, r);
      for k := 0 to |sets|
        invariant forall i | 0 <= i < k :: !Works(raws, mfps, sets[i], agreements[i])
        invariant rawWrapper.temp == map[] && mfpWrapper.temp == map[]
        invariant Grew(rawWas, rawWrapper.plugin.selections, [], r) && Grew(mfpWas, mfpWrapper.plugin.selections, [], r)
      {
        ghost var raw, mfp := rawWrapper.plugin.selections, mfpWrapper.plugin.selections;
        ok := TryFeatureSet(sets[k], agreements[k], r);
        GrewFromSame(rawWas, raw, rawWrapper.plugin.selections,
                     if ok then RawsKept(raws, sets[k], agreements[k]) else [], r);
        GrewFromSame(mfpWas, mfp, mfpWrapper.plugin.selections,
                     if ok then MfpsKept(raws, mfps, sets[k], agreements[k]) else [], r);
        if ok {
          FirstWorkingIs(raws, mfps, sets, agreements, k);
          return true;
        }
      }
      FirstWorkingIs(raws, mfps, sets, agreements, |sets|);
      return false;
    }
  }

  /** Each queue has grown by one selection for its provider if that is among `ks`, and by nothing otherwise. */
  ghost predicate Grew(before: map<ProviderId, Queue>, after: map<ProviderId, Queue>, ks: seq<nat>, r: Request) {
    forall p :: At(after, p) == At(before, p) + OneEach(ks, p, r)
  }

  /** After a feature set has worked out for a request, each plugin of the plan, and no other, finds its selection by the
      request's pipeline key, number, frame index and sensor; once it is taken the queue is as before. Selections under
      other tokens are found as before. */
  lemma PluginFindsItsSelection(before: map<ProviderId, Queue>, after: map<ProviderId, Queue>, ks: seq<nat>, r: Request,
                                p: ProviderId, t: Token)
    requires Grew(before, after, ks, r)
    requires Find(At(before, p), Token(r.uniqueKey, r.requestNo, r.frameIndex, r.openId, false)) == |At(before, p)|
    ensures var own := Token(r.uniqueKey, r.requestNo, r.frameIndex, r.openId, false);
            && Pop(At(after, p), Some(own)) ==
                 Popped(At(before, p), if p >= 0 && p in ks then Some(Selection(Some(own), p)) else None)
            && (t != own ==> Pop(At(after, p), Some(t)).sel == Pop(At(before, p), Some(t)).sel)
  {
    var own := Token(r.uniqueKey, r.requestNo, r.frameIndex, r.openId, false);
    var q := At(before, p);
    if p >= 0 && p in ks {
      assert At(after, p) == q + [SelectionFor(r, p)];
      FindAppend(q, SelectionFor(r, p), own);
      FindAppend(q, SelectionFor(r, p), t);
      RemoveAtAppend(q, SelectionFor(r, p), |q|);
    } else {
      assert At(after, p) == q;
    }
  }

  lemma NothingGrew(queues: map<ProviderId, Queue>, r: Request)
    ensures Grew(queues, queues, [], r)
  {}

  lemma GrewFromSame(before: map<ProviderId, Queue>, now: map<ProviderId, Queue>, after: map<ProviderId, Queue>,
                     ks: seq<nat>, r: Request)
    requires Grew(before, now, [], r) && Grew(now, after, ks, r)
    ensures Grew(before, after, ks, r)
  {
    forall p
      ensures At(after, p) == At(before, p) + OneEach(ks, p, r)
    {
      assert At(now, p) == At(before, p) + OneEach([], p, r) == At(before, p);
    }
  }

  lemma FirstWorkingIs(raws: seq<Features>, mfps: seq<Features>, sets: seq<Features>, agreements: seq<Agreement>, k: nat)
    requires |agreements| == |sets| && k <= |sets|
    requires forall i | 0 <= i < k :: !Works(raws, mfps, sets[i], agreements[i])
    requires k < |sets| ==> Works(raws, mfps, sets[k], agreements[k])
    ensures FirstWorking(raws, mfps, sets, agreements) == k
  {}

  lemma MfpTurn(temp: map<ProviderId, Queue>, mfps: seq<Features>, left: Features, agree: set<nat>, r: Request)
    ensures var k := FirstMatch(mfps, left);
            if k == |mfps| then AllAgree(MfpPlan(mfps, left), agree) && AgreedPrefix(MfpPlan(mfps, left), agree) == []
            else
              && (AllAgree(MfpPlan(mfps, left), agree) <==> k in agree)
              && KeepAll(temp, AgreedPrefix(MfpPlan(mfps, left), agree), r) == if k in agree then Keep(temp, k, r) else temp
  {
    var k := FirstMatch(mfps, left);
    assert [k][1..] == [] && [k] + [] == [k] && [k][..0] == [];
    assert k in [k];
  }

  /** The place of the first feature set that works out, or the number of sets. */
  function FirstWorking(raws: seq<Features>, mfps: seq<Features>, sets: seq<Features>, agreements: seq<Agreement>): (k: nat)
    requires |agreements| == |sets|
    ensures k <= |sets|
    ensures k < |sets| ==> Works(raws, mfps, sets[k], agreements[k])
    ensures forall i | 0 <= i < k :: !Works(raws, mfps, sets[i], agreements[i])
  {
    if sets == [] || Works(raws, mfps, sets[0], agreements[0]) then 0
    else 1 + FirstWorking(raws, mfps, sets[1..], agreements[1..])
  }

  function OneEach(ks: seq<nat>, p: ProviderId, r: Request): Queue {
    if p >= 0 && p in ks then [SelectionFor(r, p)] else []
  }

  lemma {:induction false} PrefixDistinct(plan: seq<nat>, agree: set<nat>)
    requires Distinct(plan)
    ensures Distinct(AgreedPrefix(plan, agree))
  {
    AgreedPrefixIsAll(plan, agree);
  }

  /** What was kept for each provider is one selection, which one frame leaves as it is. */
  lemma KeptForEach(raws: seq<Features>, mfps: seq<Features>, key: Features, a: Agreement, r: Request)
    ensures forall p :: Expand(At(KeepAll(map[], RawsKept(raws, key, a), r), p), 1) ==
                        OneEach(RawsKept(raws, key, a), p, r)
    ensures forall p :: Expand(At(KeepAll(map[], MfpsKept(raws, mfps, key, a), r), p), 1) ==
                        OneEach(MfpsKept(raws, mfps, key, a), p, r)
  {
    if key != {} {
      RawPlanDistinct(raws, key);
      PrefixDistinct(RawPlan(raws, key), a.raws);
      PrefixDistinct(MfpPlan(mfps, LeftByRaws(raws, key)), a.mfps);
    }
    forall p
      ensures At(KeepAll(map[], RawsKept(raws, key, a), r), p) == OneEach(RawsKept(raws, key, a), p, r)
      ensures At(KeepAll(map[], MfpsKept(raws, mfps, key, a), r), p) == OneEach(MfpsKept(raws, mfps, key, a), p, r)
    {
      KeptOnce(RawsKept(raws, key, a), r, p);
      KeptOnce(MfpsKept(raws, mfps, key, a), r, p);
    }
  }

  /** Where the loop stands: some providers are taken, and if there is more to come it is the plan for the rest. */
  ghost predicate Stands(raws: seq<Features>, key: Features, agree: set<nat>, taken: seq<nat>, check: Features, more: bool) {
    && AllAgree(taken, agree)
    && RawPlan(raws, key) == taken + (if more then RawPlan(raws, check) else [])
    && AgreedPrefix(RawPlan(raws, key), agree) == taken + (if more then AgreedPrefix(RawPlan(raws, check), agree) else [])
    && LeftByRaws(raws, key) == if more then LeftByRaws(raws, check) else check
  }

  lemma TakenMore(taken: seq<nat>, k: nat, rest: seq<nat>)
    ensures taken + ([k] + rest) == (taken + [k]) + rest
  {}

  lemma NoMoreTurns(raws: seq<Features>, key: Features, agree: set<nat>, taken: seq<nat>, check: Features)
    requires Stands(raws, key, agree, taken, check, true) && FirstMatch(raws, check) == |raws|
    ensures Stands(raws, key, agree, taken, check - {}, false)
  {
    PlanUnfolds(raws, check, agree);
    assert check - {} == check;
  }

  lemma RefusedTurn(raws: seq<Features>, key: Features, agree: set<nat>, taken: seq<nat>, check: Features)
    requires Stands(raws, key, agree, taken, check, true)
    requires FirstMatch(raws, check) < |raws| && FirstMatch(raws, check) !in agree
    ensures !AllAgree(RawPlan(raws, key), agree) && AgreedPrefix(RawPlan(raws, key), agree) == taken
  {
    PlanUnfolds(raws, check, agree);
    var k := FirstMatch(raws, check);
    assert k in RawPlan(raws, check);
    assert k in RawPlan(raws, key);
    assert taken + [] == taken;
  }

  lemma AgreedTurn(raws: seq<Features>, key: Features, agree: set<nat>, taken: seq<nat>, check: Features)
    requires Stands(raws, key, agree, taken, check, true)
    requires FirstMatch(raws, check) < |raws| && FirstMatch(raws, check) in agree
    ensures var k := FirstMatch(raws, check); var left := check - raws[k];
            Stands(raws, key, agree, taken + [k], left, left != {})
  {
    PlanUnfolds(raws, check, agree);
    var k := FirstMatch(raws, check);
    var left := check - raws[k];
    var rest := if left == {} then [] else RawPlan(raws, left);
    TakenMore(taken, k, rest);
    TakenMore(taken, k, AgreedPrefix(rest, agree));
  }

  lemma OneTurn(raws: seq<Features>, key: Features, agree: set<nat>, taken: seq<nat>, check: Features)
    requires Stands(raws, key, agree, taken, check, true) && check != {}
    ensures var k := FirstMatch(raws, check);
            if k == |raws| then Stands(raws, key, agree, taken, check - {}, false)
            else
              var left := check - raws[k];
              && raws[k] != {} && left < check
              && (k in agree ==> Stands(raws, key, agree, taken + [k], left, left != {}))
              && (k !in agree ==> !AllAgree(RawPlan(raws, key), agree) && AgreedPrefix(RawPlan(raws, key), agree) == taken)
  {
    var k := FirstMatch(raws, check);
    if k == |raws| {
      NoMoreTurns(raws, key, agree, taken, check);
    } else if k in agree {
      AgreedTurn(raws, key, agree, taken, check);
    } else {
      RefusedTurn(raws, key, agree, taken, check);
    }
  }

  /** One turn of the loop on the plan. */
  lemma PlanUnfolds(raws: seq<Features>, check: Features, agree: set<nat>)
    ensures var k := FirstMatch(raws, check);
            if k == |raws| then
              RawPlan(raws, check) == [] && AgreedPrefix([], agree) == [] && LeftByRaws(raws, check) == check
            else
              var rest := if check - raws[k] == {} then [] else RawPlan(raws, check - raws[k]);
              && RawPlan(raws, check) == [k] + rest
              && AgreedPrefix([k] + rest, agree) == (if k in agree then [k] + AgreedPrefix(rest, agree) else [])
              && AgreedPrefix([k], agree) == (if k in agree then [k] else [])
              && raws[k] != {}
              && LeftByRaws(raws, check) ==
                   if check - raws[k] == {} then {} else LeftByRaws(raws, check - raws[k])
  {
    var k := FirstMatch(raws, check);
    if k < |raws| {
      var rest := if check - raws[k] == {} then [] else RawPlan(raws, check - raws[k]);
      assert ([k] + rest)[1..] == rest && [k][1..] == [];
    }
  }
}

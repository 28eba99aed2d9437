/** A user that is added while a buffer's users manager is in use (addUser in UsersManagerImp.cpp): its bits do not
    move with its users. What the two questions about all users can still answer is said here by the marks that the
    users have at that moment. */
module LateUsers {
  import opened Users
  import opened SortedKeys
  import opened UsersManager

  type Marks = seq<(UserId, Status)>

  // ---------------------------------------------------------------- what any marks lead to

  ghost predicate ListReady(users: map<UserId, Known>, l: UserMap) {
    && Ascending(l.keys) && (forall w | w in l.keys :: w in users)
    && (forall t: Status | HasBit(t) :: t in l.bits && forall k | k in l.bits[t] :: k < |l.keys|)
  }

  /** A manager that is set up, wherever its bits are. */
  ghost predicate Ready(m: Manager) {
    && m.init && ListReady(m.users, m.producers) && ListReady(m.users, m.consumers)
    && (forall w | w in m.producers.keys :: w !in m.consumers.keys)
  }

  predicate Listed(m: Manager, w: UserId) {
    w in m.producers.keys || w in m.consumers.keys
  }

  /** A mark that has not been there and is made now. */
  predicate Newly(users: map<UserId, Known>, marks: Marks, w: UserId, t: Status)
    requires w in users
  {
    t !in users[w].status && (w, t) in marks
  }

  ghost predicate BitsAfter(users: map<UserId, Known>, a: UserMap, marks: Marks, b: UserMap, t: Status)
    requires ListReady(users, a) && HasBit(t)
  {
    && t in b.bits && (forall k | k in b.bits[t] :: k < |a.keys|)
    && (forall k: nat | k < |a.keys| :: k in b.bits[t] <==> k in a.bits[t] || Newly(users, marks, a.keys[k], t))
  }

  ghost predicate ListAfter(users: map<UserId, Known>, a: UserMap, marks: Marks, b: UserMap)
    requires ListReady(users, a)
  {
    b.keys == a.keys && forall t: Status | HasBit(t) :: BitsAfter(users, a, marks, b, t)
  }

  ghost predicate StatusAfter(m: Manager, marks: Marks, r: Manager, w: UserId)
    requires w in m.users && w in r.users
  {
    forall t: Status :: t in r.users[w].status <==> t in m.users[w].status || (w, t) in marks
  }

  /** A mark adds to the status of its user; it sets a bit only if the user did not have it. */
  ghost predicate After(m: Manager, marks: Marks, r: Manager)
    requires Ready(m)
  {
    && r.init && r.users.Keys == m.users.Keys
    && ListAfter(m.users, m.producers, marks, r.producers) && ListAfter(m.users, m.consumers, marks, r.consumers)
    && (forall w | Listed(m, w) :: StatusAfter(m, marks, r, w))
  }

  lemma NothingMore(users: map<UserId, Known>, a: UserMap, marks: Marks, b: UserMap, u: UserId, s: Status)
    requires ListReady(users, a) && ListAfter(users, a, marks, b)
    requires u in a.keys ==> s in users[u].status || (u, s) in marks
    ensures ListAfter(users, a, marks + [(u, s)], b)
  {
    forall t: Status | HasBit(t)
      ensures BitsAfter(users, a, marks + [(u, s)], b, t)
    {
      assert BitsAfter(users, a, marks, b, t);
      forall k: nat | k < |a.keys|
        ensures Newly(users, marks + [(u, s)], a.keys[k], t) <==> Newly(users, marks, a.keys[k], t)
      {
        assert a.keys[k] in a.keys;
      }
    }
  }

  lemma OneMoreBit(users: map<UserId, Known>, a: UserMap, marks: Marks, b: UserMap, u: UserId, s: Status)
    requires ListReady(users, a) && ListAfter(users, a, marks, b) && u in a.keys && s !in users[u].status
    ensures ListAfter(users, a, marks + [(u, s)], SetBit(b, u, s))
  {
    var i := IndexOf(a.keys, u);
    forall t: Status | HasBit(t)
      ensures BitsAfter(users, a, marks + [(u, s)], SetBit(b, u, s), t)
    {
      assert BitsAfter(users, a, marks, b, t);
      forall k: nat | k < |a.keys|
        ensures Newly(users, marks + [(u, s)], a.keys[k], t) <==> Newly(users, marks, a.keys[k], t) || (k == i && t == s)
      {
        assert a.keys[k] in a.keys;
        assert k < i ==> a.keys[k] < a.keys[i];
        assert i < k ==> a.keys[i] < a.keys[k];
      }
    }
  }

  lemma OneMoreStatus(m: Manager, marks: Marks, r: Manager, u: UserId, s: Status)
    requires Ready(m) && After(m, marks, r)
    ensures forall w | Listed(m, w) :: w in Mark(r, u, s).users && StatusAfter(m, marks + [(u, s)], Mark(r, u, s), w)
  {
    forall w | Listed(m, w)
      ensures w in Mark(r, u, s).users && StatusAfter(m, marks + [(u, s)], Mark(r, u, s), w)
    {
      assert StatusAfter(m, marks, r, w);
    }
  }

  lemma OneMoreMark(m: Manager, marks: Marks, r: Manager, u: UserId, s: Status)
    requires Ready(m) && After(m, marks, r)
    ensures After(m, marks + [(u, s)], Mark(r, u, s))
  {
    OneMoreStatus(m, marks, r, u, s);
    if Listed(m, u) {
      assert StatusAfter(m, marks, r, u);
    }
    if u in m.producers.keys && s !in r.users[u].status {
      OneMoreBit(m.users, m.producers, marks, r.producers, u, s);
      NothingMore(m.users, m.consumers, marks, r.consumers, u, s);
    } else if u in m.consumers.keys && s !in r.users[u].status {
      OneMoreBit(m.users, m.consumers, marks, r.consumers, u, s);
      NothingMore(m.users, m.producers, marks, r.producers, u, s);
    } else {
      NothingMore(m.users, m.producers, marks, r.producers, u, s);
      NothingMore(m.users, m.consumers, marks, r.consumers, u, s);
    }
  }

  /** Place by place, what a manager has become after any marks. */
  lemma {:induction false} MarksLeadTo(m: Manager, marks: Marks)
    requires Ready(m)
    ensures After(m, marks, MarkAll(m, marks))
  {
    if marks != [] {
      var front, last := marks[..|marks| - 1], marks[|marks| - 1];
      MarksLeadTo(m, front);
      assert front + [last] == marks;
      OneMoreMark(m, front, MarkAll(m, front), last.0, last.1);
    }
  }

  // ---------------------------------------------------------------- what the questions answer then

  predicate LetGo(users: map<UserId, Known>, w: UserId)
    requires w in users
  {
    RELEASE in users[w].status || PRE_RELEASE in users[w].status
  }

  predicate LetGoTwice(users: map<UserId, Known>, w: UserId)
    requires w in users
  {
    RELEASE in users[w].status && PRE_RELEASE in users[w].status
  }

  predicate EitherBit(l: UserMap, k: nat) {
    RELEASE in l.bits && PRE_RELEASE in l.bits && (k in l.bits[RELEASE] || k in l.bits[PRE_RELEASE])
  }

  /** Every user has let go, and every user has released: what the two questions are for. */
  ghost predicate AllLetGo(m: Manager) {
    forall w | Listed(m, w) :: w in m.users && LetGo(m.users, w)
  }

  ghost predicate AllReleased(m: Manager) {
    forall w | Listed(m, w) :: w in m.users && RELEASE in m.users[w].status
  }

  predicate OkAfter(m: Manager, marks: Marks) {
    HaveAllUsersReleasedOrPreReleased(MarkAll(m, marks))
  }

  predicate ReleaseOkAfter(m: Manager, marks: Marks) {
    HaveAllUsersReleased(MarkAll(m, marks))
  }

  ghost predicate LetGoAfter(m: Manager, marks: Marks) {
    AllLetGo(MarkAll(m, marks))
  }

  predicate NewlyLetGo(users: map<UserId, Known>, marks: Marks, w: UserId)
    requires w in users
  {
    Newly(users, marks, w, RELEASE) || Newly(users, marks, w, PRE_RELEASE)
  }

  lemma EitherCountAfter(users: map<UserId, Known>, a: UserMap, marks: Marks, b: UserMap)
    requires ListReady(users, a) && ListAfter(users, a, marks, b)
    ensures EitherCount(b) <==>
            forall k: nat | k < |a.keys| :: EitherBit(a, k) || NewlyLetGo(users, marks, a.keys[k])
  {
    assert BitsAfter(users, a, marks, b, RELEASE) && BitsAfter(users, a, marks, b, PRE_RELEASE);
    var bits := b.bits[RELEASE] + b.bits[PRE_RELEASE];
    FullBits(bits, |a.keys|);
    forall k: nat | k < |a.keys|
      ensures k in bits <==> EitherBit(a, k) || NewlyLetGo(users, marks, a.keys[k])
    {}
  }

  lemma ReleaseCountAfter(users: map<UserId, Known>, a: UserMap, marks: Marks, b: UserMap)
    requires ListReady(users, a) && ListAfter(users, a, marks, b)
    ensures AllMarked(b, RELEASE) <==>
            forall k: nat | k < |a.keys| :: k in a.bits[RELEASE] || Newly(users, marks, a.keys[k], RELEASE)
  {
    assert BitsAfter(users, a, marks, b, RELEASE);
    FullBits(b.bits[RELEASE], |a.keys|);
  }

  /** Each of these users marked so. */
  function Each(ids: seq<UserId>, t: Status): (marks: Marks)
    ensures forall w, s :: (w, s) in marks <==> w in ids && s == t
  {
    if ids == [] then [] else Each(ids[..|ids| - 1], t) + [(ids[|ids| - 1], t)]
  }

  function Without(ids: seq<UserId>, y: UserId): (rest: seq<UserId>)
    ensures forall w :: w in rest <==> w in ids && w != y
  {
    if ids == [] then []
    else Without(ids[..|ids| - 1], y) + if ids[|ids| - 1] == y then [] else [ids[|ids| - 1]]
  }

  /** No place is without a bit for good: a user that is marked with both can set none any more. */
  ghost predicate Fillable(users: map<UserId, Known>, l: UserMap)
    requires ListReady(users, l)
  {
    forall k: nat | k < |l.keys| :: EitherBit(l, k) || !LetGoTwice(users, l.keys[k])
  }

  ghost predicate ReleaseFits(users: map<UserId, Known>, l: UserMap, k: nat)
    requires ListReady(users, l) && k < |l.keys|
  {
    assert l.keys[k] in l.keys;
    k in l.bits[RELEASE] || RELEASE !in users[l.keys[k]].status
  }

  ghost predicate ReleaseFillable(users: map<UserId, Known>, l: UserMap)
    requires ListReady(users, l)
  {
    forall k: nat | k < |l.keys| :: ReleaseFits(users, l, k)
  }

  /** A user that has let go where no bit is set, and a bit where no user has let go. */
  ghost predicate LostMark(users: map<UserId, Known>, l: UserMap, k: nat)
    requires ListReady(users, l)
  {
    k < |l.keys| && !EitherBit(l, k) && LetGo(users, l.keys[k])
  }

  ghost predicate StrayBit(users: map<UserId, Known>, l: UserMap, k: nat)
    requires ListReady(users, l)
  {
    k < |l.keys| && EitherBit(l, k) && !LetGo(users, l.keys[k])
  }

  /** These users mark both: a list is full then if it can be and the others have bits at their places. */
  lemma FillsUp(users: map<UserId, Known>, a: UserMap, ids: seq<UserId>, b: UserMap)
    requires ListReady(users, a) && Fillable(users, a)
    requires ListAfter(users, a, Each(ids, RELEASE) + Each(ids, PRE_RELEASE), b)
    requires forall k: nat | k < |a.keys| :: EitherBit(a, k) || a.keys[k] in ids
    ensures EitherCount(b)
  {
    var marks := Each(ids, RELEASE) + Each(ids, PRE_RELEASE);
    forall k: nat | k < |a.keys|
      ensures EitherBit(a, k) || NewlyLetGo(users, marks, a.keys[k])
    {
      if !EitherBit(a, k) {
        assert (a.keys[k], RELEASE) in Each(ids, RELEASE) && (a.keys[k], PRE_RELEASE) in Each(ids, PRE_RELEASE);
        assert (a.keys[k], RELEASE) in marks && (a.keys[k], PRE_RELEASE) in marks;
      }
    }
    EitherCountAfter(users, a, marks, b);
  }

  lemma FillsBoth(m: Manager, ids: seq<UserId>) returns (marks: Marks)
    requires Ready(m) && Fillable(m.users, m.producers) && Fillable(m.users, m.consumers)
    requires forall k: nat | k < |m.producers.keys| :: EitherBit(m.producers, k) || m.producers.keys[k] in ids
    requires forall k: nat | k < |m.consumers.keys| :: EitherBit(m.consumers, k) || m.consumers.keys[k] in ids
    ensures marks == Each(ids, RELEASE) + Each(ids, PRE_RELEASE) && HaveAllUsersReleasedOrPreReleased(MarkAll(m, marks))
  {
    marks := Each(ids, RELEASE) + Each(ids, PRE_RELEASE);
    MarksLeadTo(m, marks);
    var r := MarkAll(m, marks);
    FillsUp(m.users, m.producers, ids, r.producers);
    FillsUp(m.users, m.consumers, ids, r.consumers);
  }

  lemma FullIsFillable(users: map<UserId, Known>, a: UserMap, marks: Marks, b: UserMap)
    requires ListReady(users, a) && ListAfter(users, a, marks, b) && EitherCount(b)
    ensures Fillable(users, a)
  {
    EitherCountAfter(users, a, marks, b);
  }

  lemma KeysListed(m: Manager)
    requires Ready(m)
    ensures forall k: nat | k < |m.producers.keys| :: Listed(m, m.producers.keys[k])
    ensures forall k: nat | k < |m.consumers.keys| :: Listed(m, m.consumers.keys[k])
    ensures forall w | Listed(m, w) :: w in m.users
  {}

  lemma OkIsFillable(m: Manager, marks: Marks)
    requires Ready(m) && HaveAllUsersReleasedOrPreReleased(MarkAll(m, marks))
    ensures Fillable(m.users, m.producers) && Fillable(m.users, m.consumers)
  {
    MarksLeadTo(m, marks);
    FullIsFillable(m.users, m.producers, marks, MarkAll(m, marks).producers);
    FullIsFillable(m.users, m.consumers, marks, MarkAll(m, marks).consumers);
  }

  /** haveAllUsersReleasedOrPreReleased can become OK if and only if no place is without a bit for good. */
  lemma OkIsPossible(m: Manager)
    requires Ready(m)
    ensures (exists marks: Marks :: OkAfter(m, marks)) <==>
            Fillable(m.users, m.producers) && Fillable(m.users, m.consumers)
  {
    if Fillable(m.users, m.producers) && Fillable(m.users, m.consumers) {
      KeysListed(m);
      var marks := FillsBoth(m, m.producers.keys + m.consumers.keys);
      assert exists after: Marks :: OkAfter(m, after) by {
        assert OkAfter(m, marks);
      }
    }
    forall marks: Marks | OkAfter(m, marks)
      ensures Fillable(m.users, m.producers) && Fillable(m.users, m.consumers)
    {
      OkIsFillable(m, marks);
    }
  }

  /** The user at a stray bit never marks anything: the rest can make the answer OK. */
  lemma StrayMisleads(m: Manager, c: Category, k: nat) returns (marks: Marks)
    requires Ready(m) && Fillable(m.users, m.producers) && Fillable(m.users, m.consumers)
    requires c != NONE && StrayBit(m.users, ListOf(m, c), k)
    ensures OkAfter(m, marks) && !LetGoAfter(m, marks)
  {
    var w := ListOf(m, c).keys[k];
    KeysListed(m);
    assert w in ListOf(m, c).keys;
    marks := FillsBoth(m, Without(m.producers.keys + m.consumers.keys, w));
    MarksLeadTo(m, marks);
    assert StatusAfter(m, marks, MarkAll(m, marks), w);
    assert Listed(MarkAll(m, marks), w);
  }

  /** If the answer is OK though some user has not let go, there is a stray bit at its place. */
  lemma MisledByStray(m: Manager, marks: Marks, w: UserId) returns (c: Category, k: nat)
    requires Ready(m) && OkAfter(m, marks)
    requires Listed(m, w) && w in MarkAll(m, marks).users && !LetGo(MarkAll(m, marks).users, w)
    ensures c != NONE && StrayBit(m.users, ListOf(m, c), k)
  {
    MarksLeadTo(m, marks);
    var r := MarkAll(m, marks);
    assert StatusAfter(m, marks, r, w);
    c := if w in m.producers.keys then PRODUCER else CONSUMER;
    k := IndexOf(ListOf(m, c).keys, w);
    EitherCountAfter(m.users, ListOf(m, c), marks, ListOf(r, c));
  }

  ghost predicate AnyStray(m: Manager)
    requires Ready(m)
  {
    exists c: Category, k: nat :: c != NONE && StrayBit(m.users, ListOf(m, c), k)
  }

  ghost predicate AnyLost(m: Manager)
    requires Ready(m)
  {
    exists c: Category, k: nat :: c != NONE && LostMark(m.users, ListOf(m, c), k)
  }

  lemma OkTooEarly(m: Manager)
    requires Ready(m)
    ensures (exists marks: Marks :: OkAfter(m, marks) && !LetGoAfter(m, marks)) <==>
            Fillable(m.users, m.producers) && Fillable(m.users, m.consumers) && AnyStray(m)
  {
    if Fillable(m.users, m.producers) && Fillable(m.users, m.consumers) && AnyStray(m) {
      var c: Category, k: nat :| c != NONE && StrayBit(m.users, ListOf(m, c), k);
      var marks := StrayMisleads(m, c, k);
    }
    forall marks: Marks | OkAfter(m, marks) && !LetGoAfter(m, marks)
      ensures Fillable(m.users, m.producers) && Fillable(m.users, m.consumers) && AnyStray(m)
    {
      OkIsFillable(m, marks);
      MarksLeadTo(m, marks);
      KeysListed(m);
      var w :| Listed(MarkAll(m, marks), w) && !(w in MarkAll(m, marks).users && LetGo(MarkAll(m, marks).users, w));
      var c, k := MisledByStray(m, marks, w);
    }
  }

  /** The user at a lost mark has let go; when all the others have, too, its place still has no bit. */
  lemma LostMisses(m: Manager, c: Category, k: nat) returns (marks: Marks)
    requires Ready(m) && c != NONE && LostMark(m.users, ListOf(m, c), k)
    ensures !OkAfter(m, marks) && LetGoAfter(m, marks)
  {
    var ids := m.producers.keys + m.consumers.keys;
    var y := ListOf(m, c).keys[k];
    assert y in ListOf(m, c).keys;
    marks := Each(Without(ids, y), RELEASE);
    MarksLeadTo(m, marks);
    var r := MarkAll(m, marks);
    forall w | Listed(r, w)
      ensures w in r.users && LetGo(r.users, w)
    {
      assert Listed(m, w) && StatusAfter(m, marks, r, w);
      assert w in ids;
      assert w != y ==> (w, RELEASE) in marks;
    }
    EitherCountAfter(m.users, ListOf(m, c), marks, ListOf(r, c));
    assert !EitherBit(ListOf(m, c), k) && !NewlyLetGo(m.users, marks, y);
  }

  lemma MissedByLost(m: Manager, marks: Marks, c: Category) returns (k: nat)
    requires Ready(m) && LetGoAfter(m, marks) && c != NONE && !EitherCount(ListOf(MarkAll(m, marks), c))
    ensures LostMark(m.users, ListOf(m, c), k)
  {
    MarksLeadTo(m, marks);
    KeysListed(m);
    var r, a := MarkAll(m, marks), ListOf(m, c);
    EitherCountAfter(m.users, a, marks, ListOf(r, c));
    k :| k < |a.keys| && !(EitherBit(a, k) || NewlyLetGo(m.users, marks, a.keys[k]));
    assert Listed(r, a.keys[k]) && StatusAfter(m, marks, r, a.keys[k]);
  }

  lemma OkIsMissed(m: Manager)
    requires Ready(m)
    ensures (exists marks: Marks :: !OkAfter(m, marks) && LetGoAfter(m, marks)) <==> AnyLost(m)
  {
    if AnyLost(m) {
      var c: Category, k: nat :| c != NONE && LostMark(m.users, ListOf(m, c), k);
      var marks := LostMisses(m, c, k);
    }
    forall marks: Marks | !OkAfter(m, marks) && LetGoAfter(m, marks)
      ensures AnyLost(m)
    {
      MarksLeadTo(m, marks);
      var c := if EitherCount(MarkAll(m, marks).producers) then CONSUMER else PRODUCER;
      var k := MissedByLost(m, marks, c);
      assert LostMark(m.users, ListOf(m, c), k);
    }
  }

  /** haveAllUsersReleased can become OK if and only if every user that has released has its bit. */
  lemma ReleasePossible(m: Manager)
    requires Ready(m)
    ensures (exists marks: Marks :: ReleaseOkAfter(m, marks)) <==>
            ReleaseFillable(m.users, m.producers) && ReleaseFillable(m.users, m.consumers)
  {
    if ReleaseFillable(m.users, m.producers) && ReleaseFillable(m.users, m.consumers) {
      var ids := m.producers.keys + m.consumers.keys;
      var marks := Each(ids, RELEASE);
      MarksLeadTo(m, marks);
      ReleaseFillsUp(m.users, m.producers, ids, MarkAll(m, marks).producers);
      ReleaseFillsUp(m.users, m.consumers, ids, MarkAll(m, marks).consumers);
      assert ReleaseOkAfter(m, marks);
    }
    forall marks: Marks | ReleaseOkAfter(m, marks)
      ensures ReleaseFillable(m.users, m.producers) && ReleaseFillable(m.users, m.consumers)
    {
      MarksLeadTo(m, marks);
      ReleaseCountAfter(m.users, m.producers, marks, MarkAll(m, marks).producers);
      ReleaseCountAfter(m.users, m.consumers, marks, MarkAll(m, marks).consumers);
    }
  }

  lemma ReleaseFillsUp(users: map<UserId, Known>, a: UserMap, ids: seq<UserId>, b: UserMap)
    requires ListReady(users, a) && ReleaseFillable(users, a) && ListAfter(users, a, Each(ids, RELEASE), b)
    requires forall w | w in a.keys :: w in ids
    ensures AllMarked(b, RELEASE)
  {
    forall k: nat | k < |a.keys|
      ensures k in a.bits[RELEASE] || Newly(users, Each(ids, RELEASE), a.keys[k], RELEASE)
    {
      assert ReleaseFits(users, a, k);
    }
    ReleaseCountAfter(users, a, Each(ids, RELEASE), b);
  }

  // ---------------------------------------------------------------- right after a user was added

  /** Some user with a larger id has let go. */
  ghost predicate LetGoBehind(users: map<UserId, Known>, keys: seq<UserId>, u: UserId) {
    exists v :: v in keys && v > u && v in users && LetGo(users, v)
  }

  /** Some user with a larger id has marked both RELEASE and PRE_RELEASE, and the next one has not let go or there is
      none. */
  ghost predicate GapBehind(users: map<UserId, Known>, keys: seq<UserId>, u: UserId)
    requires forall w | w in keys :: w in users
  {
    exists k :: 0 <= k < |keys| && keys[k] > u && GapAt(users, keys, k)
  }

  ghost predicate GapAt(users: map<UserId, Known>, keys: seq<UserId>, k: nat)
    requires k < |keys| && forall w | w in keys :: w in users
  {
    && keys[k] in users && LetGoTwice(users, keys[k])
    && !(k + 1 < |keys| && keys[k + 1] in users && LetGo(users, keys[k + 1]))
  }

  ghost predicate LateUser(m: Manager, u: UserId, c: Category) {
    Valid(m) && m.init && u !in m.users && c != NONE
  }

  lemma LateUserReady(m: Manager, u: UserId, c: Category)
    requires LateUser(m, u, c)
    ensures Ready(m) && Ready(AddUser(m, u, c))
  {
    LateUserKeepsShape(m, u, c);
    LateListReady(m, u, c, PRODUCER);
    LateListReady(m, u, c, CONSUMER);
  }

  lemma LateListReady(m: Manager, u: UserId, c: Category, d: Category)
    requires LateUser(m, u, c) && d != NONE && Shape(AddUser(m, u, c))
    ensures ListReady(m.users, ListOf(m, d)) && ListReady(AddUser(m, u, c).users, ListOf(AddUser(m, u, c), d))
  {
    var l := ListOf(m, d);
    assert u !in l.keys;
    var p := InsertPlaces(l.keys, u);
    forall t: Status | HasBit(t)
      ensures t in l.bits && forall k | k in l.bits[t] :: k < |l.keys|
    {
      assert PlacesOk(m.users, l, t);
    }
  }

  /** In a list whose bits are at their users nothing is lost or stray. */
  lemma ExactList(users: map<UserId, Known>, l: UserMap)
    requires ListReady(users, l) && PlacesOk(users, l, RELEASE) && PlacesOk(users, l, PRE_RELEASE)
    ensures forall k: nat :: !LostMark(users, l, k) && !StrayBit(users, l, k)
    ensures Fillable(users, l) && ReleaseFillable(users, l)
  {}

  lemma OtherListExact(m: Manager, u: UserId, c: Category, d: Category)
    requires LateUser(m, u, c) && d != NONE && d != c
    ensures var r := AddUser(m, u, c);
            && Ready(r) && Fillable(r.users, ListOf(r, d)) && ReleaseFillable(r.users, ListOf(r, d))
            && forall k: nat :: !LostMark(r.users, ListOf(r, d), k) && !StrayBit(r.users, ListOf(r, d), k)
  {
    LateUserReady(m, u, c);
    assert StatusOk(m, RELEASE) && StatusOk(m, PRE_RELEASE);
    OthersUntouched(m.users, ListOf(m, d), u, c, RELEASE);
    OthersUntouched(m.users, ListOf(m, d), u, c, PRE_RELEASE);
    ExactList(AddUser(m, u, c).users, ListOf(AddUser(m, u, c), d));
  }

  /** The new user is at place `p` and the larger ones are one further, while the bits are where they were: they tell
      who had let go before. */
  ghost predicate Shifted(users: map<UserId, Known>, keys: seq<UserId>, u: UserId, after: map<UserId, Known>, l: UserMap,
                          p: nat)
    requires (forall w | w in keys :: w in users) && ListReady(after, l)
  {
    && p <= |keys| && |l.keys| == |keys| + 1 && l.keys[p] == u && u in after && after[u].status == {}
    && (forall k | 0 <= k < p :: keys[k] < u && l.keys[k] == keys[k])
    && (forall k | p <= k < |keys| :: keys[k] > u)
    && (forall k | p < k <= |keys| :: l.keys[k] == keys[k - 1])
    && (forall k: nat :: EitherBit(l, k) <==> k < |keys| && LetGo(users, keys[k]))
    && (forall k: nat :: k in l.bits[RELEASE] <==> k < |keys| && RELEASE in users[keys[k]].status)
    && (forall w | w in keys :: w in after && after[w] == users[w])
  }

  lemma ListShifts(users: map<UserId, Known>, list: UserMap, u: UserId, c: Category) returns (p: nat)
    requires PlacesOk(users, list, RELEASE) && PlacesOk(users, list, PRE_RELEASE) && Ascending(list.keys)
    requires u !in users && forall w | w in list.keys :: w in users
    requires ListReady(users[u := Known(c, {}, [])], list.(keys := InsertKey(list.keys, u)))
    ensures Shifted(users, list.keys, u, users[u := Known(c, {}, [])], list.(keys := InsertKey(list.keys, u)), p)
  {
    assert u !in list.keys;
    p := InsertPlaces(list.keys, u);
    forall k: nat
      ensures EitherBit(list, k) <==> k < |list.keys| && LetGo(users, list.keys[k])
    {
      if k < |list.keys| {
        assert list.keys[k] in users;
      }
    }
  }

  lemma LateUserShifts(m: Manager, u: UserId, c: Category) returns (p: nat)
    requires LateUser(m, u, c)
    ensures Ready(m) && Ready(AddUser(m, u, c))
    ensures Shifted(m.users, ListOf(m, c).keys, u, AddUser(m, u, c).users, ListOf(AddUser(m, u, c), c), p)
  {
    LateUserReady(m, u, c);
    assert StatusOk(m, RELEASE) && StatusOk(m, PRE_RELEASE);
    p := ListShifts(m.users, ListOf(m, c), u, c);
  }

  /** The last user who has let go, from place `j` on. */
  lemma {:induction false} LastLetGo(users: map<UserId, Known>, keys: seq<UserId>, j: nat, n: nat) returns (k: nat)
    requires (forall w | w in keys :: w in users) && j < n <= |keys| && LetGo(users, keys[j])
    ensures j <= k < n && LetGo(users, keys[k]) && forall i | k < i < n :: !LetGo(users, keys[i])
  {
    if LetGo(users, keys[n - 1]) {
      k := n - 1;
    } else {
      k := LastLetGo(users, keys, j, n - 1);
    }
  }

  /** The first one. */
  lemma {:induction false} FirstLetGo(users: map<UserId, Known>, keys: seq<UserId>, p: nat, j: nat) returns (k: nat)
    requires (forall w | w in keys :: w in users) && p <= j < |keys| && LetGo(users, keys[j])
    ensures p <= k <= j && LetGo(users, keys[k]) && forall i | p <= i < k :: !LetGo(users, keys[i])
    decreases j
  {
    k := j;
    if i: nat :| p <= i < j && LetGo(users, keys[i]) {
      k := FirstLetGo(users, keys, p, i);
    }
  }

  lemma PlaceBehind(users: map<UserId, Known>, keys: seq<UserId>, u: UserId, after: map<UserId, Known>, l: UserMap,
                    p: nat) returns (j: nat)
    requires (forall w | w in keys :: w in users) && ListReady(after, l) && Shifted(users, keys, u, after, l, p)
    requires LetGoBehind(users, keys, u)
    ensures p <= j < |keys| && LetGo(users, keys[j])
  {
    var v :| v in keys && v > u && v in users && LetGo(users, v);
    j := IndexOf(keys, v);
  }

  lemma LostIffBehind(users: map<UserId, Known>, keys: seq<UserId>, u: UserId, after: map<UserId, Known>, l: UserMap, p: nat)
    requires (forall w | w in keys :: w in users) && ListReady(after, l) && Shifted(users, keys, u, after, l, p)
    ensures (exists k: nat :: LostMark(after, l, k)) <==> LetGoBehind(users, keys, u)
  {
    if LetGoBehind(users, keys, u) {
      var j := PlaceBehind(users, keys, u, after, l, p);
      var k := LastLetGo(users, keys, j, |keys|);
      assert l.keys[k + 1] == keys[k] && keys[k] in keys;
      assert LostMark(after, l, k + 1);
    }
    forall k: nat | LostMark(after, l, k)
      ensures LetGoBehind(users, keys, u)
    {
      if k < p {
        assert l.keys[k] == keys[k] && keys[k] in keys;
      } else {
        assert k != p;
        assert l.keys[k] == keys[k - 1] && keys[k - 1] in keys && keys[k - 1] > u;
      }
    }
  }

  lemma StrayIffBehind(users: map<UserId, Known>, keys: seq<UserId>, u: UserId, after: map<UserId, Known>, l: UserMap, p: nat)
    requires (forall w | w in keys :: w in users) && ListReady(after, l) && Shifted(users, keys, u, after, l, p)
    ensures (exists k: nat :: StrayBit(after, l, k)) <==> LetGoBehind(users, keys, u)
  {
    if LetGoBehind(users, keys, u) {
      var j := PlaceBehind(users, keys, u, after, l, p);
      var k := FirstLetGo(users, keys, p, j);
      assert k > p ==> l.keys[k] == keys[k - 1] && keys[k - 1] in keys;
      assert StrayBit(after, l, k);
    }
    forall k: nat | StrayBit(after, l, k)
      ensures LetGoBehind(users, keys, u)
    {
      assert k < |keys| && LetGo(users, keys[k]) && keys[k] in keys;
      assert k >= p;
    }
  }

  lemma FillableIffNoGap(users: map<UserId, Known>, keys: seq<UserId>, u: UserId, after: map<UserId, Known>, l: UserMap,
                         p: nat)
    requires (forall w | w in keys :: w in users) && ListReady(after, l) && Shifted(users, keys, u, after, l, p)
    ensures Fillable(after, l) <==> !GapBehind(users, keys, u)
  {
    forall k: nat | k < |l.keys|
      ensures EitherBit(l, k) || !LetGoTwice(after, l.keys[k]) <==> !(k > p && GapAt(users, keys, k - 1))
    {
      if k < p {
        assert l.keys[k] == keys[k] && keys[k] in keys;
      } else if k > p {
        assert l.keys[k] == keys[k - 1] && keys[k - 1] in keys;
        assert k < |keys| ==> keys[k] in keys;
      }
    }
    if !Fillable(after, l) {
      var k: nat :| k < |l.keys| && !(EitherBit(l, k) || !LetGoTwice(after, l.keys[k]));
      assert k > p && GapAt(users, keys, k - 1) && keys[k - 1] > u;
    }
    if GapBehind(users, keys, u) {
      var j: nat :| j < |keys| && keys[j] > u && GapAt(users, keys, j);
      assert j >= p;
      assert !(EitherBit(l, j + 1) || !LetGoTwice(after, l.keys[j + 1]));
    }
  }

  lemma ReleaseFillableIff(users: map<UserId, Known>, keys: seq<UserId>, u: UserId, after: map<UserId, Known>, l: UserMap,
                           p: nat)
    requires (forall w | w in keys :: w in users) && ListReady(after, l) && Shifted(users, keys, u, after, l, p)
    ensures ReleaseFillable(after, l) <==> NoneBehind(users, keys, u, RELEASE)
  {
    if !NoneBehind(users, keys, u, RELEASE) {
      var v :| v in keys && v > u && v in users && RELEASE in users[v].status;
      var k := LastMarked(users, keys, RELEASE, |keys|, IndexOf(keys, v));
      assert IndexOf(keys, v) >= p;
      assert l.keys[k + 1] == keys[k] && keys[k] in keys;
      assert !ReleaseFits(after, l, k + 1);
    } else {
      forall k: nat | k < |l.keys|
        ensures ReleaseFits(after, l, k)
      {
        if k < p {
          assert l.keys[k] == keys[k] && keys[k] in keys;
        } else if k > p {
          assert l.keys[k] == keys[k - 1] && keys[k - 1] in keys;
        }
      }
    }
  }

  // ---------------------------------------------------------------- what adding a user does to the answers

  /** What the added user's list makes of the conditions; the other list is as it should be. */
  lemma LateUserPlaces(m: Manager, u: UserId, c: Category)
    requires LateUser(m, u, c)
    ensures Ready(m) && Ready(AddUser(m, u, c))
    ensures var r, keys := AddUser(m, u, c), ListOf(m, c).keys;
            && (AnyLost(r) <==> LetGoBehind(m.users, keys, u))
            && (AnyStray(r) <==> LetGoBehind(m.users, keys, u))
            && (Fillable(r.users, r.producers) && Fillable(r.users, r.consumers) <==> !GapBehind(m.users, keys, u))
            && (ReleaseFillable(r.users, r.producers) && ReleaseFillable(r.users, r.consumers) <==>
                  NoneBehind(m.users, keys, u, RELEASE))
  {
    var p := LateUserShifts(m, u, c);
    var r, keys, d := AddUser(m, u, c), ListOf(m, c).keys, if c == PRODUCER then CONSUMER else PRODUCER;
    OtherListExact(m, u, c, d);
    LostIffBehind(m.users, keys, u, r.users, ListOf(r, c), p);
    StrayIffBehind(m.users, keys, u, r.users, ListOf(r, c), p);
    FillableIffNoGap(m.users, keys, u, r.users, ListOf(r, c), p);
    ReleaseFillableIff(m.users, keys, u, r.users, ListOf(r, c), p);
  }

  lemma {:induction false} MarksKeepStatusOk(m: Manager, marks: Marks, t: Status)
    requires Shape(m) && HasBit(t) && StatusOk(m, t)
    ensures Shape(MarkAll(m, marks)) && StatusOk(MarkAll(m, marks), t)
  {
    if marks != [] {
      var front, last := marks[..|marks| - 1], marks[|marks| - 1];
      MarksKeepStatusOk(m, front, t);
      MarkKeepsShape(MarkAll(m, front), last.0, last.1);
      MarkStatusOk(MarkAll(m, front), last.0, last.1, t);
    }
  }

  lemma ReleaseCountIsExact(m: Manager)
    requires m.init && Shape(m) && StatusOk(m, RELEASE)
    ensures HaveAllUsersReleased(m) <==> AllReleased(m)
  {
    CountTellsAll(m.users, m.producers, RELEASE);
    CountTellsAll(m.users, m.consumers, RELEASE);
    if HaveAllUsersReleased(m) {
      assert forall w | Listed(m, w) :: w in m.users && RELEASE in m.users[w].status;
    }
    if AllReleased(m) {
      assert forall w | w in m.producers.keys || w in m.consumers.keys :: Listed(m, w);
    }
  }

  /** A user is added to a manager that is set up. haveAllUsersReleased can still become OK if and only if no larger
      user of the category has released; then it becomes OK exactly when all users have. */
  lemma LateUserCanBeReleased(m: Manager, u: UserId, c: Category)
    requires LateUser(m, u, c)
    ensures (exists marks: Marks :: ReleaseOkAfter(AddUser(m, u, c), marks)) <==>
            NoneBehind(m.users, ListOf(m, c).keys, u, RELEASE)
    ensures NoneBehind(m.users, ListOf(m, c).keys, u, RELEASE) ==>
              forall marks: Marks :: ReleaseOkAfter(AddUser(m, u, c), marks) <==> AllReleased(MarkAll(AddUser(m, u, c), marks))
  {
    var r := AddUser(m, u, c);
    LateUserPlaces(m, u, c);
    ReleasePossible(r);
    if NoneBehind(m.users, ListOf(m, c).keys, u, RELEASE) {
      LateUserKeepsShape(m, u, c);
      LateUserStatusOk(m, u, c, RELEASE);
      forall marks: Marks
        ensures ReleaseOkAfter(r, marks) <==> AllReleased(MarkAll(r, marks))
      {
        MarksLeadTo(r, marks);
        MarksKeepStatusOk(r, marks, RELEASE);
        ReleaseCountIsExact(MarkAll(r, marks));
      }
    }
  }

  /** haveAllUsersReleasedOrPreReleased can still become OK if and only if every larger user that has marked both is
      followed by one that has let go. */
  lemma LateUserCanBeOk(m: Manager, u: UserId, c: Category)
    requires LateUser(m, u, c)
    ensures Ready(m)
    ensures (exists marks: Marks :: OkAfter(AddUser(m, u, c), marks)) <==> !GapBehind(m.users, ListOf(m, c).keys, u)
  {
    LateUserPlaces(m, u, c);
    OkIsPossible(AddUser(m, u, c));
  }

  /** It can become OK too early, with some user that has not let go, if and only if moreover some larger user has let
      go. */
  lemma LateUserMisleads(m: Manager, u: UserId, c: Category)
    requires LateUser(m, u, c)
    ensures Ready(m)
    ensures (exists marks: Marks :: OkAfter(AddUser(m, u, c), marks) && !LetGoAfter(AddUser(m, u, c), marks)) <==>
            LetGoBehind(m.users, ListOf(m, c).keys, u) && !GapBehind(m.users, ListOf(m, c).keys, u)
  {
    LateUserPlaces(m, u, c);
    OkTooEarly(AddUser(m, u, c));
  }

  /** Its answer is right whatever is marked afterwards if and only if no larger user of the category has marked RELEASE
      or PRE_RELEASE. */
  lemma LateUserExactIff(m: Manager, u: UserId, c: Category)
    requires LateUser(m, u, c)
    ensures (forall marks: Marks :: OkAfter(AddUser(m, u, c), marks) <==> LetGoAfter(AddUser(m, u, c), marks)) <==>
            (&& NoneBehind(m.users, ListOf(m, c).keys, u, RELEASE)
             && NoneBehind(m.users, ListOf(m, c).keys, u, PRE_RELEASE))
  {
    LateUserPlaces(m, u, c);
    OkIsMissed(AddUser(m, u, c));
    OkTooEarly(AddUser(m, u, c));
  }

  /** User 5 has marked PRE_RELEASE when user 3 is added; its RELEASE then sets the second bit, and the manager says OK
      although user 3 has marked nothing. */
  lemma OkWithoutTheLateUser() returns (m: Manager)
    ensures LateUser(m, 3, CONSUMER)
    ensures var r := MarkAll(AddUser(m, 3, CONSUMER), [(5, RELEASE)]);
            HaveAllUsersReleasedOrPreReleased(r) && 3 in r.consumers.keys && 3 in r.users && r.users[3].status == {}
  {
    m := Manager(true, map[5 := Known(CONSUMER, {PRE_RELEASE}, [])], UserMap([], NoBits()),
                 UserMap([5], NoBits()[PRE_RELEASE := {0}]));
    var r := AddUser(m, 3, CONSUMER);
    assert InsertKey([5], 3) == [3, 5];
    OneIsInUse(m);
    assert MarkAll(r, [(5, RELEASE)]) == Mark(r, 5, RELEASE) by {
      var marks: Marks := [(5, RELEASE)];
      assert marks[..0] == [];
    }
    SecondBitIsOk(r);
  }

  lemma OneIsInUse(m: Manager)
    requires m.init && m.users == map[5 := Known(CONSUMER, {PRE_RELEASE}, [])] && m.producers == UserMap([], NoBits())
    requires m.consumers == UserMap([5], NoBits()[PRE_RELEASE := {0}])
    ensures LateUser(m, 3, CONSUMER)
  {
    forall t: Status | HasBit(t)
      ensures StatusOk(m, t)
    {
      match t
      case PRE_RELEASE =>
      case USED =>
      case RELEASE =>
      case RELEASE_STILLUSE =>
    }
  }

  lemma SecondBitIsOk(r: Manager)
    requires r.init && r.producers == UserMap([], NoBits()) && 5 in r.users && r.users[5].status == {PRE_RELEASE}
    requires r.consumers == UserMap([3, 5], NoBits()[PRE_RELEASE := {0}])
    ensures HaveAllUsersReleasedOrPreReleased(Mark(r, 5, RELEASE))
    ensures Mark(r, 5, RELEASE).consumers.keys == r.consumers.keys
    ensures 3 in r.users ==> 3 in Mark(r, 5, RELEASE).users && Mark(r, 5, RELEASE).users[3] == r.users[3]
  {
    assert IndexOf([3, 5], 5) == 1;
    assert Mark(r, 5, RELEASE).consumers.bits[RELEASE] == {1};
    assert {1} + {0} == {0, 1};
  }

  // ---------------------------------------------------------------- what it stands for

  /** A consumer that is added to the manager is the one that the frame adds to the value, and the bits stay with their
      users if it is known already or no larger consumer has been marked. */
  lemma LateConsumerStandsFor(m: Manager, rank: map<UserId, nat>, us: Users, u: UserId)
    requires Valid(m) && m.init
    requires GraphOk(m.users, rank) && (forall w | w in m.users :: w in rank) && StandsFor(m, rank, us)
    ensures var r, rank' := AddUser(m, u, CONSUMER), RankWith(m, rank, u);
            && GraphOk(r.users, rank') && (forall w | w in r.users :: w in rank')
            && StandsFor(r, rank', WithConsumer(us, u))
    ensures Valid(AddUser(m, u, CONSUMER)) <==> u in m.users || NoneMarkedBehind(m, m.consumers, u)
  {
    if u !in m.users {
      LateUserIsFineExactly(m, u, CONSUMER);
      LateUserKeepsGraph(m, rank, u, CONSUMER);
      var r := AddUser(m, u, CONSUMER);
      assert OfCategory(r, PRODUCER) == OfCategory(m, PRODUCER);
      assert OfCategory(r, CONSUMER) == OfCategory(m, CONSUMER) + {u};
      forall s: Status
        ensures Marked(r, s) == Marked(m, s)
      {}
    }
  }

  function MarkedAll(us: Users, marks: Marks): Users {
    if marks == [] then us
    else MarkedAll(us, marks[..|marks| - 1]).Mark(marks[|marks| - 1].0, marks[|marks| - 1].1)
  }

  lemma {:induction false} MarksStandFor(m: Manager, rank: map<UserId, nat>, us: Users, marks: Marks)
    requires Valid(m) && GraphOk(m.users, rank) && (forall v | v in m.users :: v in rank) && StandsFor(m, rank, us)
    ensures var r := MarkAll(m, marks);
            && Valid(r) && GraphOk(r.users, rank) && (forall v | v in r.users :: v in rank)
            && StandsFor(r, rank, MarkedAll(us, marks))
  {
    if marks != [] {
      var front, last := marks[..|marks| - 1], marks[|marks| - 1];
      MarksStandFor(m, rank, us, front);
      MarkOk(MarkAll(m, front), last.0, last.1);
      MarkStandsFor(MarkAll(m, front), rank, MarkedAll(us, front), last.0, last.1);
    }
  }

  /** Then, whatever is marked afterwards, the manager answers both questions as the value does. */
  lemma LateConsumerAnswers(m: Manager, rank: map<UserId, nat>, us: Users, u: UserId, marks: Marks)
    requires Valid(m) && m.init
    requires GraphOk(m.users, rank) && (forall w | w in m.users :: w in rank) && StandsFor(m, rank, us)
    requires u in m.users || NoneMarkedBehind(m, m.consumers, u)
    ensures var r, to := MarkAll(AddUser(m, u, CONSUMER), marks), MarkedAll(WithConsumer(us, u), marks);
            && (HaveAllUsersReleased(r) <==> to.AllReleased())
            && (HaveAllUsersReleasedOrPreReleased(r) <==> to.AllDone())
  {
    LateConsumerStandsFor(m, rank, us, u);
    MarksStandFor(AddUser(m, u, CONSUMER), RankWith(m, rank, u), WithConsumer(us, u), marks);
    CountsAreExact(MarkAll(AddUser(m, u, CONSUMER), marks), RankWith(m, rank, u), MarkedAll(WithConsumer(us, u), marks));
  }
}

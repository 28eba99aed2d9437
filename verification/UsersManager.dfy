/** The bookkeeping of a stream buffer's users (UsersManagerImp.cpp): users in keyed vectors, status bits by the
    user's place in them, and a graph that says who comes before whom. It stands for the value of Users.dfy as long
    as no user is added in front of one that has been marked. */
module UsersManager {
  import opened Users
  import opened SortedKeys
  import opened Wrappers

  datatype Category = PRODUCER | CONSUMER | NONE

  /** A MyUserMap: the users of one category and, for each status, the places of those marked. */
  datatype UserMap = UserMap(keys: seq<UserId>, bits: map<Status, set<nat>>)

  function NoBits(): map<Status, set<nat>> {
    map[PRE_RELEASE := {}, USED := {}, RELEASE := {}, RELEASE_STILLUSE := {}]
  }

  /** There are bits for all statuses but one. */
  predicate HasBit(s: Status) {
    s != ACQUIRE
  }

  /** What is known of each user of the graph, by id: its category, its status and the users right before it. */
  datatype Known = Known(category: Category, status: set<Status>, before: seq<UserId>)

  datatype Manager = Manager(init: bool, users: map<UserId, Known>, producers: UserMap, consumers: UserMap)

  function IndexOf(keys: seq<UserId>, u: UserId): (k: nat)
    requires u in keys
    ensures k < |keys| && keys[k] == u
  {
    if keys[|keys| - 1] == u then |keys| - 1
    else
      assert keys == keys[..|keys| - 1] + [keys[|keys| - 1]];
      IndexOf(keys[..|keys| - 1], u)
  }

  // ---------------------------------------------------------------- validity

  /** The bits of a status say which places hold a user that was marked with it. */
  ghost predicate PlacesOk(users: map<UserId, Known>, m: UserMap, s: Status) {
    && s in m.bits
    && (forall k | k in m.bits[s] :: k < |m.keys|)
    && (forall k | 0 <= k < |m.keys| :: m.keys[k] in users && (k in m.bits[s] <==> s in users[m.keys[k]].status))
  }

  ghost predicate BitsOk(users: map<UserId, Known>, m: UserMap) {
    forall s: Status | HasBit(s) :: PlacesOk(users, m, s)
  }

  ghost predicate MapOk(users: map<UserId, Known>, m: UserMap, c: Category) {
    && Ascending(m.keys)
    && (forall u :: u in m.keys <==> u in users && users[u].category == c)
  }

  ghost predicate Shape(m: Manager) {
    MapOk(m.users, m.producers, PRODUCER) && MapOk(m.users, m.consumers, CONSUMER)
  }

  ghost predicate Valid(m: Manager) {
    Shape(m) && BitsOk(m.users, m.producers) && BitsOk(m.users, m.consumers)
  }

  // ---------------------------------------------------------------- counting bits

  function Count(m: UserMap, s: Status): nat {
    if s in m.bits then |m.bits[s]| else 0
  }

  predicate AllMarked(m: UserMap, s: Status) {
    Count(m, s) == |m.keys|
  }

  ghost function Places(n: nat): set<nat> {
    if n == 0 then {} else Places(n - 1) + {n - 1}
  }

  lemma {:induction false} PlacesCount(n: nat)
    ensures |Places(n)| == n && forall k: nat :: k in Places(n) <==> k < n
  {
    if n > 0 {
      PlacesCount(n - 1);
    }
  }

  lemma FullBits(bits: set<nat>, n: nat)
    requires forall k | k in bits :: k < n
    ensures |bits| <= n
    ensures |bits| == n <==> forall k: nat | k < n :: k in bits
  {
    PlacesCount(n);
    assert bits <= Places(n);
    assert Places(n) == bits + (Places(n) - bits);
    assert |Places(n)| == |bits| + |Places(n) - bits|;
    if |bits| == n {
      assert Places(n) - bits == {};
      forall k: nat | k < n
        ensures k in bits
      {
        assert k in Places(n);
      }
    }
  }

  /** As many bits as users: that is, every user is marked. */
  lemma CountTellsAll(users: map<UserId, Known>, m: UserMap, s: Status)
    requires PlacesOk(users, m, s)
    ensures AllMarked(m, s) <==> forall u | u in m.keys :: s in users[u].status
  {
    FullBits(m.bits[s], |m.keys|);
    if forall u | u in m.keys :: s in users[u].status {
      forall k: nat | k < |m.keys|
        ensures k in m.bits[s]
      {
        assert m.keys[k] in m.keys;
      }
    }
  }

  lemma CountTellsEither(users: map<UserId, Known>, m: UserMap, s: Status, t: Status)
    requires PlacesOk(users, m, s) && PlacesOk(users, m, t)
    ensures |m.bits[s] + m.bits[t]| == |m.keys| <==>
            forall u | u in m.keys :: s in users[u].status || t in users[u].status
  {
    FullBits(m.bits[s] + m.bits[t], |m.keys|);
    if |m.bits[s] + m.bits[t]| == |m.keys| {
      forall u | u in m.keys
        ensures s in users[u].status || t in users[u].status
      {
        var k: nat :| k < |m.keys| && m.keys[k] == u;
        assert k in m.bits[s] + m.bits[t];
      }
    }
    if forall u | u in m.keys :: s in users[u].status || t in users[u].status {
      forall k: nat | k < |m.keys|
        ensures k in m.bits[s] + m.bits[t]
      {
        assert m.keys[k] in m.keys;
      }
    }
  }

  // ---------------------------------------------------------------- the users before a user

  /** Edges lead to users of the graph and `rank` falls along them, so there is no cycle. */
  ghost predicate GraphOk(users: map<UserId, Known>, rank: map<UserId, nat>) {
    forall u, v | u in users && v in users[u].before :: v in users && u in rank && v in rank && rank[v] < rank[u]
  }

  /** DFS: the results of all users right before it, then the user itself. */
  function Dfs(users: map<UserId, Known>, rank: map<UserId, nat>, u: UserId): seq<UserId>
    requires GraphOk(users, rank) && u in users && u in rank
    decreases rank[u], |users[u].before| + 1
  {
    DfsList(users, rank, u, |users[u].before|) + [u]
  }

  function DfsList(users: map<UserId, Known>, rank: map<UserId, nat>, u: UserId, n: nat): seq<UserId>
    requires GraphOk(users, rank) && u in users && u in rank && n <= |users[u].before|
    decreases rank[u], n
  {
    if n == 0 then [] else DfsList(users, rank, u, n - 1) + Dfs(users, rank, users[u].before[n - 1])
  }

  /** A way along the edges from the first user of `p` to its last. */
  ghost predicate IsPath(users: map<UserId, Known>, p: seq<UserId>) {
    && |p| > 0 && (forall k | 0 <= k < |p| :: p[k] in users)
    && (forall k | 0 < k < |p| :: p[k - 1] in users[p[k]].before)
  }

  ghost predicate Reaches(users: map<UserId, Known>, v: UserId, u: UserId) {
    exists p: seq<UserId> :: IsPath(users, p) && p[0] == v && p[|p| - 1] == u
  }

  lemma LongerPath(users: map<UserId, Known>, p: seq<UserId>, u: UserId)
    requires IsPath(users, p) && u in users && p[|p| - 1] in users[u].before
    ensures IsPath(users, p + [u]) && (p + [u])[0] == p[0]
  {}

  lemma {:induction false} DfsReaches(users: map<UserId, Known>, rank: map<UserId, nat>, u: UserId, v: UserId)
    requires GraphOk(users, rank) && u in users && u in rank && v in Dfs(users, rank, u)
    ensures Reaches(users, v, u)
    decreases rank[u], |users[u].before| + 1
  {
    if v == u {
      assert IsPath(users, [u]) && [u][0] == v;
    } else {
      DfsListReaches(users, rank, u, |users[u].before|, v);
    }
  }

  lemma {:induction false} DfsListReaches(users: map<UserId, Known>, rank: map<UserId, nat>, u: UserId, n: nat, v: UserId)
    requires GraphOk(users, rank) && u in users && u in rank && n <= |users[u].before| && v in DfsList(users, rank, u, n)
    ensures Reaches(users, v, u)
    decreases rank[u], n
  {
    if v in DfsList(users, rank, u, n - 1) {
      DfsListReaches(users, rank, u, n - 1, v);
    } else {
      var w := users[u].before[n - 1];
      assert w in users[u].before;
      DfsReaches(users, rank, w, v);
      var p: seq<UserId> :| IsPath(users, p) && p[0] == v && p[|p| - 1] == w;
      LongerPath(users, p, u);
      assert (p + [u])[|p + [u]| - 1] == u;
    }
  }

  lemma {:induction false} DfsListFinds(users: map<UserId, Known>, rank: map<UserId, nat>, u: UserId, n: nat, k: nat, v: UserId)
    requires GraphOk(users, rank) && u in users && u in rank && k < n <= |users[u].before|
    requires v in Dfs(users, rank, users[u].before[k])
    ensures v in DfsList(users, rank, u, n)
  {
    if k < n - 1 {
      DfsListFinds(users, rank, u, n - 1, k, v);
    }
  }

  lemma {:induction false} PathIsFound(users: map<UserId, Known>, rank: map<UserId, nat>, p: seq<UserId>)
    requires GraphOk(users, rank) && IsPath(users, p) && forall u | u in users :: u in rank
    ensures p[0] in Dfs(users, rank, p[|p| - 1])
    decreases |p|
  {
    if |p| > 1 {
      var u, w := p[|p| - 1], p[|p| - 2];
      var q := p[..|p| - 1];
      PathIsFound(users, rank, q);
      assert w in users[u].before;
      var k :| 0 <= k < |users[u].before| && users[u].before[k] == w;
      DfsListFinds(users, rank, u, |users[u].before|, k, p[0]);
    }
  }

  /** getPriorUsers finds exactly the users from which a way leads here, this one included. */
  lemma DfsFindsAncestors(users: map<UserId, Known>, rank: map<UserId, nat>, u: UserId, v: UserId)
    requires GraphOk(users, rank) && u in users && forall w | w in users :: w in rank
    ensures v in Dfs(users, rank, u) <==> Reaches(users, v, u)
  {
    if v in Dfs(users, rank, u) {
      DfsReaches(users, rank, u, v);
    }
    if Reaches(users, v, u) {
      var p: seq<UserId> :| IsPath(users, p) && p[0] == v && p[|p| - 1] == u;
      PathIsFound(users, rank, p);
    }
  }

  // ---------------------------------------------------------------- what it stands for

  ghost function Marked(m: Manager, s: Status): set<UserId> {
    set u | u in m.users && s in m.users[u].status
  }

  ghost function OfCategory(m: Manager, c: Category): set<UserId> {
    set u | u in m.users && m.users[u].category == c
  }

  ghost function Ahead(m: Manager, rank: map<UserId, nat>, u: UserId): set<UserId>
    requires GraphOk(m.users, rank) && u in m.users && u in rank
  {
    (set v | v in Dfs(m.users, rank, u)) - {u}
  }

  /** The value `us` is what the manager stands for. */
  ghost predicate StandsFor(m: Manager, rank: map<UserId, nat>, us: Users)
    requires GraphOk(m.users, rank) && forall u | u in m.users :: u in rank
  {
    && us.active == m.init
    && us.producers == OfCategory(m, PRODUCER) && us.consumers == OfCategory(m, CONSUMER)
    && us.released == Marked(m, RELEASE) && us.preReleased == Marked(m, PRE_RELEASE)
    && us.stillUse == Marked(m, RELEASE_STILLUSE)
    && us.prior.Keys == m.users.Keys
    && (forall u | u in m.users :: us.prior[u] == Ahead(m, rank, u))
  }

  // ---------------------------------------------------------------- asking

  /** haveAllUsersReleased and haveAllUsersReleasedOrPreReleased, by counting bits. */
  predicate HaveAllUsersReleased(m: Manager) {
    m.init && AllMarked(m.consumers, RELEASE) && AllMarked(m.producers, RELEASE)
  }

  predicate EitherCount(m: UserMap) {
    RELEASE in m.bits && PRE_RELEASE in m.bits && |m.bits[RELEASE] + m.bits[PRE_RELEASE]| == |m.keys|
  }

  predicate HaveAllUsersReleasedOrPreReleased(m: Manager) {
    m.init && EitherCount(m.consumers) && EitherCount(m.producers)
  }

  lemma KeysAreUsers(m: Manager)
    requires Shape(m)
    ensures forall u :: u in m.producers.keys <==> u in OfCategory(m, PRODUCER)
    ensures forall u :: u in m.consumers.keys <==> u in OfCategory(m, CONSUMER)
  {}

  /** The counts answer for all users: the manager says OK if and only if every user is marked. */
  lemma CountsAreExact(m: Manager, rank: map<UserId, nat>, us: Users)
    requires Valid(m) && GraphOk(m.users, rank) && (forall u | u in m.users :: u in rank) && StandsFor(m, rank, us)
    ensures HaveAllUsersReleased(m) <==> us.AllReleased()
    ensures HaveAllUsersReleasedOrPreReleased(m) <==> us.AllDone()
  {
    KeysAreUsers(m);
    CountTellsAll(m.users, m.consumers, RELEASE);
    CountTellsAll(m.users, m.producers, RELEASE);
    CountTellsEither(m.users, m.consumers, RELEASE, PRE_RELEASE);
    CountTellsEither(m.users, m.producers, RELEASE, PRE_RELEASE);
    SubsetByStatus(m, m.producers, PRODUCER);
    SubsetByStatus(m, m.consumers, CONSUMER);
  }

  lemma SubsetByStatus(m: Manager, list: UserMap, c: Category)
    requires MapOk(m.users, list, c)
    ensures OfCategory(m, c) <= Marked(m, RELEASE) <==> forall u | u in list.keys :: RELEASE in m.users[u].status
    ensures OfCategory(m, c) <= Marked(m, RELEASE) + Marked(m, PRE_RELEASE) <==>
            forall u | u in list.keys :: RELEASE in m.users[u].status || PRE_RELEASE in m.users[u].status
  {
    assert forall u :: u in list.keys <==> u in OfCategory(m, c);
    if forall u | u in list.keys :: RELEASE in m.users[u].status {
      assert forall u | u in OfCategory(m, c) :: u in Marked(m, RELEASE);
    }
    if OfCategory(m, c) <= Marked(m, RELEASE) {
      forall u | u in list.keys
        ensures RELEASE in m.users[u].status
      {
        assert u in Marked(m, RELEASE);
      }
    }
  }

  /** haveAllUsersReleasedOrPreReleased for a user: whoever is found before it and takes part has let go. */
  predicate HavePriorUsersReleased(m: Manager, rank: map<UserId, nat>, u: UserId)
    requires GraphOk(m.users, rank) && forall v | v in m.users :: v in rank
  {
    && m.init && u in m.users && m.users[u].category != NONE
    && forall v | v in Dfs(m.users, rank, u) && v != u && v in m.users && m.users[v].category != NONE ::
         RELEASE in m.users[v].status || RELEASE_STILLUSE in m.users[v].status || PRE_RELEASE in m.users[v].status
  }

  lemma {:induction false} DfsInUsers(users: map<UserId, Known>, rank: map<UserId, nat>, u: UserId, v: UserId)
    requires GraphOk(users, rank) && u in users && u in rank && v in Dfs(users, rank, u)
    ensures v in users
  {
    DfsReaches(users, rank, u, v);
    var p: seq<UserId> :| IsPath(users, p) && p[0] == v && p[|p| - 1] == u;
  }

  /** It answers whether the user may acquire the buffer. */
  lemma PriorIsMayAcquire(m: Manager, rank: map<UserId, nat>, us: Users, u: UserId)
    requires GraphOk(m.users, rank) && (forall v | v in m.users :: v in rank) && StandsFor(m, rank, us)
    ensures HavePriorUsersReleased(m, rank, u) <==> us.MayAcquire(u)
  {
    if u in m.users {
      forall v | v in Dfs(m.users, rank, u)
        ensures v in m.users
      {
        DfsInUsers(m.users, rank, u, v);
      }
      assert us.prior[u] == Ahead(m, rank, u);
      assert forall v | v in m.users :: us.IsUser(v) <==> m.users[v].category != NONE;
    }
  }

  // ---------------------------------------------------------------- marking

  function WithStatus(users: map<UserId, Known>, u: UserId, s: Status): map<UserId, Known>
    requires u in users
  {
    users[u := users[u].(status := users[u].status + {s})]
  }

  /** The bit of a user that is in the list, if the status has bits; a first-time mark only. */
  function SetBit(m: UserMap, u: UserId, s: Status): UserMap
    requires u in m.keys
  {
    if !HasBit(s) then m
    else m.(bits := m.bits[s := (if s in m.bits then m.bits[s] else {}) + {IndexOf(m.keys, u)}])
  }

  /** markUserStatus for one status bit; a bit that was marked before is skipped. */
  function Mark(m: Manager, u: UserId, s: Status): Manager {
    if !m.init || u !in m.users || (u !in m.producers.keys && u !in m.consumers.keys) || s in m.users[u].status then m
    else
      var m1 := m.(users := WithStatus(m.users, u, s));
      if u in m.producers.keys then m1.(producers := SetBit(m.producers, u, s))
      else m1.(consumers := SetBit(m.consumers, u, s))
  }

  lemma SetBitOk(users: map<UserId, Known>, m: UserMap, u: UserId, s: Status, t: Status)
    requires PlacesOk(users, m, t) && Ascending(m.keys) && u in m.keys && u in users
    ensures HasBit(t) ==> PlacesOk(WithStatus(users, u, s), SetBit(m, u, s), t)
  {
    var i := IndexOf(m.keys, u);
    forall k | 0 <= k < |m.keys| && k != i
      ensures m.keys[k] != u
    {
      assert if k < i then m.keys[k] < m.keys[i] else m.keys[i] < m.keys[k];
    }
  }

  lemma OtherBitsOk(users: map<UserId, Known>, m: UserMap, u: UserId, s: Status, t: Status)
    requires PlacesOk(users, m, t) && u !in m.keys && u in users
    ensures PlacesOk(WithStatus(users, u, s), m, t)
  {
    forall k | 0 <= k < |m.keys|
      ensures m.keys[k] != u
    {
      assert m.keys[k] in m.keys;
    }
  }

  /** The bits of a status that are at their users in both lists. */
  ghost predicate StatusOk(m: Manager, t: Status) {
    PlacesOk(m.users, m.producers, t) && PlacesOk(m.users, m.consumers, t)
  }

  lemma MarkKeepsShape(m: Manager, u: UserId, s: Status)
    requires Shape(m)
    ensures Shape(Mark(m, u, s))
  {}

  lemma MarkStatusOk(m: Manager, u: UserId, s: Status, t: Status)
    requires Shape(m) && HasBit(t) && StatusOk(m, t)
    ensures StatusOk(Mark(m, u, s), t)
  {
    var r := Mark(m, u, s);
    if r != m {
      if u in m.producers.keys {
        assert u !in m.consumers.keys;
        SetBitOk(m.users, m.producers, u, s, t);
        OtherBitsOk(m.users, m.consumers, u, s, t);
      } else {
        SetBitOk(m.users, m.consumers, u, s, t);
        OtherBitsOk(m.users, m.producers, u, s, t);
      }
    }
  }

  /** Marking keeps every bit with its user. */
  lemma MarkOk(m: Manager, u: UserId, s: Status)
    requires Valid(m)
    ensures Valid(Mark(m, u, s))
  {
    MarkKeepsShape(m, u, s);
    forall t | HasBit(t)
      ensures StatusOk(Mark(m, u, s), t)
    {
      MarkStatusOk(m, u, s, t);
    }
  }

  /** The users of `a` have the same edges in `b`. */
  ghost predicate SameEdges(a: map<UserId, Known>, b: map<UserId, Known>) {
    forall u | u in a :: u in b && b[u].before == a[u].before
  }

  lemma {:induction false} DfsSame(a: map<UserId, Known>, ra: map<UserId, nat>, b: map<UserId, Known>, rb: map<UserId, nat>,
                                   u: UserId)
    requires SameEdges(a, b) && GraphOk(a, ra) && GraphOk(b, rb) && u in a && u in ra && u in rb
    ensures Dfs(a, ra, u) == Dfs(b, rb, u)
    decreases ra[u], |a[u].before| + 1
  {
    DfsListSame(a, ra, b, rb, u, |a[u].before|);
  }

  lemma {:induction false} DfsListSame(a: map<UserId, Known>, ra: map<UserId, nat>, b: map<UserId, Known>,
                                       rb: map<UserId, nat>, u: UserId, n: nat)
    requires SameEdges(a, b) && GraphOk(a, ra) && GraphOk(b, rb) && u in a && u in ra && u in rb && n <= |a[u].before|
    ensures DfsList(a, ra, u, n) == DfsList(b, rb, u, n)
    decreases ra[u], n
  {
    if n > 0 {
      DfsListSame(a, ra, b, rb, u, n - 1);
      assert a[u].before[n - 1] in a[u].before && a[u].before[n - 1] in b[u].before;
      DfsSame(a, ra, b, rb, a[u].before[n - 1]);
    }
  }

  lemma MarkedMore(m: Manager, u: UserId, s: Status, t: Status)
    ensures var r := Mark(m, u, s); Marked(r, t) == Marked(m, t) + if t == s && r != m then {u} else {}
  {
    var r := Mark(m, u, s);
    if r != m {
      assert r.users[u].status != m.users[u].status;
    }
  }

  lemma MarkKeepsGraph(m: Manager, rank: map<UserId, nat>, u: UserId, s: Status)
    requires GraphOk(m.users, rank) && forall v | v in m.users :: v in rank
    ensures var r := Mark(m, u, s);
            GraphOk(r.users, rank) && (forall v | v in r.users :: v in rank) && SameEdges(m.users, r.users)
  {}

  lemma MarkKeepsAhead(m: Manager, rank: map<UserId, nat>, u: UserId, s: Status, v: UserId)
    requires GraphOk(m.users, rank) && (forall v | v in m.users :: v in rank) && v in m.users
    requires GraphOk(Mark(m, u, s).users, rank) && v in Mark(m, u, s).users
    ensures Ahead(Mark(m, u, s), rank, v) == Ahead(m, rank, v)
  {
    MarkKeepsGraph(m, rank, u, s);
    DfsSame(m.users, rank, Mark(m, u, s).users, rank, v);
  }

  /** Marking takes effect for users only, and once. */
  lemma MarkTakes(m: Manager, rank: map<UserId, nat>, us: Users, u: UserId, s: Status)
    requires Shape(m) && GraphOk(m.users, rank) && (forall v | v in m.users :: v in rank) && StandsFor(m, rank, us)
    ensures Mark(m, u, s) != m <==> us.active && us.IsUser(u) && u !in Marked(m, s)
    ensures u in Marked(Mark(m, u, s), s) || !us.active || !us.IsUser(u)
  {
    KeysAreUsers(m);
    MarkedMore(m, u, s, s);
  }

  /** What marking leaves as it is. */
  lemma MarkLeavesOrder(m: Manager, rank: map<UserId, nat>, u: UserId, s: Status)
    requires GraphOk(m.users, rank) && (forall v | v in m.users :: v in rank)
    ensures var r := Mark(m, u, s);
            && GraphOk(r.users, rank) && (forall v | v in r.users :: v in rank)
            && r.users.Keys == m.users.Keys && r.init == m.init
            && (forall v | v in m.users :: Ahead(r, rank, v) == Ahead(m, rank, v))
            && (forall c :: OfCategory(r, c) == OfCategory(m, c))
  {
    var r := Mark(m, u, s);
    MarkKeepsGraph(m, rank, u, s);
    forall v | v in m.users
      ensures Ahead(r, rank, v) == Ahead(m, rank, v)
    {
      MarkKeepsAhead(m, rank, u, s, v);
    }
    forall c
      ensures OfCategory(r, c) == OfCategory(m, c)
    {}
  }

  lemma MarkedLikeValue(m: Manager, rank: map<UserId, nat>, us: Users, u: UserId, s: Status)
    requires Shape(m) && GraphOk(m.users, rank) && (forall v | v in m.users :: v in rank) && StandsFor(m, rank, us)
    ensures var r, to := Mark(m, u, s), us.Mark(u, s);
            && to.released == Marked(r, RELEASE) && to.preReleased == Marked(r, PRE_RELEASE)
            && to.stillUse == Marked(r, RELEASE_STILLUSE)
  {
    MarkTakes(m, rank, us, u, s);
    MarkedMore(m, u, s, RELEASE);
    MarkedMore(m, u, s, PRE_RELEASE);
    MarkedMore(m, u, s, RELEASE_STILLUSE);
  }

  /** Marking the manager is marking what it stands for. */
  lemma MarkStandsFor(m: Manager, rank: map<UserId, nat>, us: Users, u: UserId, s: Status)
    requires Valid(m) && GraphOk(m.users, rank) && (forall v | v in m.users :: v in rank) && StandsFor(m, rank, us)
    ensures var r := Mark(m, u, s);
            && GraphOk(r.users, rank) && (forall v | v in r.users :: v in rank)
            && StandsFor(r, rank, us.Mark(u, s))
  {
    MarkLeavesOrder(m, rank, u, s);
    MarkedLikeValue(m, rank, us, u, s);
  }

  // ---------------------------------------------------------------- adding a user late

  /** The list that a category's users are in. */
  function ListOf(m: Manager, c: Category): UserMap
    requires c != NONE
  {
    if c == PRODUCER then m.producers else m.consumers
  }

  /** A new user that has no edges; the bits stay at their places. */
  function AddUser(m: Manager, u: UserId, c: Category): Manager {
    if u in m.users then m
    else
      var m1 := m.(users := m.users[u := Known(c, {}, [])]);
      match c
      case PRODUCER => m1.(producers := m.producers.(keys := InsertKey(m.producers.keys, u)))
      case CONSUMER => m1.(consumers := m.consumers.(keys := InsertKey(m.consumers.keys, u)))
      case NONE => m1
  }

  /** No user behind the new one has been marked with anything that has bits. */
  ghost predicate NoneMarkedBehind(m: Manager, list: UserMap, u: UserId) {
    forall s: Status | HasBit(s) :: NoneBehind(m.users, list.keys, u, s)
  }

  /** No user behind the new one has been marked with `s`. */
  ghost predicate NoneBehind(users: map<UserId, Known>, keys: seq<UserId>, u: UserId, s: Status) {
    forall v | v in keys && v > u :: v in users ==> s !in users[v].status
  }

  /** A new key comes between the smaller and the larger ones. */
  lemma {:induction false} InsertSplits(keys: seq<UserId>, u: UserId) returns (p: nat)
    requires Ascending(keys) && u !in keys
    ensures p <= |keys| && InsertKey(keys, u) == keys[..p] + [u] + keys[p..]
    ensures forall k | 0 <= k < p :: keys[k] < u
    ensures forall k | p <= k < |keys| :: keys[k] > u
  {
    if keys == [] {
      p := 0;
    } else {
      var front, last := keys[..|keys| - 1], keys[|keys| - 1];
      assert keys == front + [last];
      if last < u {
        p := |keys|;
        assert forall k | 0 <= k < |keys| - 1 :: keys[k] < last;
      } else {
        p := InsertSplits(front, u);
        assert keys[..p] == front[..p] && keys[p..] == front[p..] + [last];
        assert forall k | p <= k < |front| :: keys[k] == front[k];
      }
    }
  }

  /** Where the users are after the insertion. */
  lemma InsertPlaces(keys: seq<UserId>, u: UserId) returns (p: nat)
    requires Ascending(keys) && u !in keys
    ensures p <= |keys| && |InsertKey(keys, u)| == |keys| + 1 && InsertKey(keys, u)[p] == u
    ensures forall k | 0 <= k < p :: keys[k] < u && InsertKey(keys, u)[k] == keys[k]
    ensures forall k | p <= k < |keys| :: keys[k] > u
    ensures forall k | p < k <= |keys| :: InsertKey(keys, u)[k] == keys[k - 1]
  {
    p := InsertSplits(keys, u);
  }

  lemma LateUserKeepsBits(users: map<UserId, Known>, m: UserMap, u: UserId, c: Category, s: Status)
    requires PlacesOk(users, m, s) && Ascending(m.keys) && u !in users && NoneBehind(users, m.keys, u, s)
    ensures PlacesOk(users[u := Known(c, {}, [])], m.(keys := InsertKey(m.keys, u)), s)
  {
    var keys, r, users' := m.keys, InsertKey(m.keys, u), users[u := Known(c, {}, [])];
    NewIsNotIn(users, m, u, s);
    var p := InsertPlaces(keys, u);
    forall k | 0 <= k < |r|
      ensures r[k] in users' && (k in m.bits[s] <==> s in users'[r[k]].status)
    {
      if k < p {
        assert r[k] == keys[k] && keys[k] in users;
      } else {
        assert k < |keys| ==> keys[k] in keys && s !in users[keys[k]].status;
        assert k > p ==> r[k] == keys[k - 1] && keys[k - 1] in keys && s !in users[keys[k - 1]].status;
      }
    }
  }

  lemma NewIsNotIn(users: map<UserId, Known>, m: UserMap, u: UserId, s: Status)
    requires PlacesOk(users, m, s) && u !in users
    ensures u !in m.keys
  {
    forall k | 0 <= k < |m.keys|
      ensures m.keys[k] != u
    {}
  }

  /** The last place of a user that was marked so, if there is one. */
  lemma {:induction false} LastMarked(users: map<UserId, Known>, keys: seq<UserId>, s: Status, n: nat, j: nat) returns (k: nat)
    requires (forall i | 0 <= i < |keys| :: keys[i] in users) && j < n <= |keys| && s in users[keys[j]].status
    ensures j <= k < n && s in users[keys[k]].status && forall i | k < i < n :: s !in users[keys[i]].status
  {
    if s in users[keys[n - 1]].status {
      k := n - 1;
    } else {
      k := LastMarked(users, keys, s, n - 1, j);
    }
  }

  /** Some user has been marked but its bit is not set, and it cannot be marked again. */
  ghost predicate Stuck(users: map<UserId, Known>, m: UserMap, s: Status) {
    && s in m.bits && (forall k | k in m.bits[s] :: k < |m.keys|)
    && exists j :: 0 <= j < |m.keys| && m.keys[j] in users && s in users[m.keys[j]].status && j !in m.bits[s]
  }

  /** A user behind the new one keeps its mark but moves away from its bit. */
  lemma LateUserSticks(users: map<UserId, Known>, m: UserMap, u: UserId, c: Category, s: Status, v: UserId)
    requires PlacesOk(users, m, s) && Ascending(m.keys) && u !in users
    requires v in m.keys && v > u && v in users && s in users[v].status
    ensures Stuck(users[u := Known(c, {}, [])], m.(keys := InsertKey(m.keys, u)), s)
  {
    var keys, r := m.keys, InsertKey(m.keys, u);
    NewIsNotIn(users, m, u, s);
    var k := LastMarked(users, keys, s, |keys|, IndexOf(keys, v));
    assert keys[k] >= v;
    var p := InsertPlaces(keys, u);
    assert r[k + 1] == keys[k];
    if k + 1 < |keys| {
      assert s !in users[keys[k + 1]].status;
    }
    assert k + 1 !in m.bits[s];
  }

  lemma StuckIsNotOk(users: map<UserId, Known>, m: UserMap, s: Status)
    requires Stuck(users, m, s)
    ensures !PlacesOk(users, m, s) && !AllMarked(m, s)
  {
    FullBits(m.bits[s], |m.keys|);
    var j :| 0 <= j < |m.keys| && m.keys[j] in users && s in users[m.keys[j]].status && j !in m.bits[s];
    assert !(forall k: nat | k < |m.keys| :: k in m.bits[s]);
  }

  /** A user can be added while the manager is in use without putting any bit in the wrong place if and only if no
      user of its category with a larger id has been marked. */
  lemma LateUserIsFineExactly(m: Manager, u: UserId, c: Category)
    requires Valid(m) && u !in m.users && c != NONE
    ensures Valid(AddUser(m, u, c)) <==> NoneMarkedBehind(m, ListOf(m, c), u)
  {
    LateUserKeepsShape(m, u, c);
    forall s | HasBit(s)
      ensures StatusOk(AddUser(m, u, c), s) <==> NoneBehind(m.users, ListOf(m, c).keys, u, s)
    {
      LateUserStatusOk(m, u, c, s);
    }
    if Valid(AddUser(m, u, c)) {
      assert forall s | HasBit(s) :: StatusOk(AddUser(m, u, c), s);
    }
  }

  /** Status by status: the bits of a status are at their users if and only if no larger user was marked with it. */
  lemma LateUserStatusOk(m: Manager, u: UserId, c: Category, s: Status)
    requires Valid(m) && u !in m.users && c != NONE && HasBit(s)
    ensures StatusOk(AddUser(m, u, c), s) <==> NoneBehind(m.users, ListOf(m, c).keys, u, s)
  {
    var list, r := ListOf(m, c), AddUser(m, u, c);
    assert StatusOk(m, s);
    OthersUntouched(m.users, if c == PRODUCER then m.consumers else m.producers, u, c, s);
    if NoneBehind(m.users, list.keys, u, s) {
      LateUserKeepsBits(m.users, list, u, c, s);
    } else {
      var v :| v in list.keys && v > u && v in m.users && s in m.users[v].status;
      LateUserSticks(m.users, list, u, c, s, v);
      StuckIsNotOk(r.users, ListOf(r, c), s);
    }
  }

  lemma LateUserKeepsShape(m: Manager, u: UserId, c: Category)
    requires Shape(m) && u !in m.users
    ensures Shape(AddUser(m, u, c))
  {
    InsertKeySorts(m.producers.keys, u);
    InsertKeySorts(m.consumers.keys, u);
  }

  lemma OthersUntouched(users: map<UserId, Known>, m: UserMap, u: UserId, c: Category, s: Status)
    requires PlacesOk(users, m, s) && u !in users
    ensures PlacesOk(users[u := Known(c, {}, [])], m, s)
  {}

  /** The rank of a new user that has no edges does not matter. */
  function RankWith(m: Manager, rank: map<UserId, nat>, u: UserId): map<UserId, nat> {
    if u in m.users then rank else rank[u := 0]
  }

  lemma LateUserKeepsGraph(m: Manager, rank: map<UserId, nat>, u: UserId, c: Category)
    requires GraphOk(m.users, rank) && (forall w | w in m.users :: w in rank) && u !in m.users
    ensures var r, rank' := AddUser(m, u, c), RankWith(m, rank, u);
            && GraphOk(r.users, rank') && (forall w | w in r.users :: w in rank')
            && Ahead(r, rank', u) == {} && forall w | w in m.users :: Ahead(r, rank', w) == Ahead(m, rank, w)
  {
    var r, rank' := AddUser(m, u, c), RankWith(m, rank, u);
    assert GraphOk(r.users, rank');
    assert Dfs(r.users, rank', u) == [u];
    forall w | w in m.users
      ensures Ahead(r, rank', w) == Ahead(m, rank, w)
    {
      DfsSame(m.users, rank, r.users, rank', w);
    }
  }

  lemma MarkStaysStuck(m: Manager, u: UserId, s: Status, c: Category)
    requires c != NONE && Stuck(m.users, ListOf(m, c), RELEASE)
    ensures Stuck(Mark(m, u, s).users, ListOf(Mark(m, u, s), c), RELEASE)
  {
    var list := ListOf(m, c);
    var j :| 0 <= j < |list.keys| && list.keys[j] in m.users && RELEASE in m.users[list.keys[j]].status &&
             j !in list.bits[RELEASE];
    var r := Mark(m, u, s);
    assert list.keys[j] in r.users && RELEASE in r.users[list.keys[j]].status;
    assert j !in ListOf(r, c).bits[RELEASE];
  }

  function MarkAll(m: Manager, marks: seq<(UserId, Status)>): Manager {
    if marks == [] then m
    else Mark(MarkAll(m, marks[..|marks| - 1]), marks[|marks| - 1].0, marks[|marks| - 1].1)
  }

  /** If a user is added in front of one of its category that has released, then whatever is marked afterwards, the
      manager never says again that all users have released. */
  lemma {:induction false} LateUserBlocksRelease(m: Manager, u: UserId, c: Category, v: UserId, marks: seq<(UserId, Status)>)
    requires Valid(m) && u !in m.users && c != NONE
    requires v in ListOf(m, c).keys && v > u && RELEASE in m.users[v].status
    ensures var r := MarkAll(AddUser(m, u, c), marks);
            Stuck(r.users, ListOf(r, c), RELEASE) && !HaveAllUsersReleased(r)
  {
    if marks == [] {
      LateUserSticks(m.users, ListOf(m, c), u, c, RELEASE, v);
    } else {
      var front, last := marks[..|marks| - 1], marks[|marks| - 1];
      LateUserBlocksRelease(m, u, c, v, front);
      MarkStaysStuck(MarkAll(AddUser(m, u, c), front), last.0, last.1, c);
    }
    var r := MarkAll(AddUser(m, u, c), marks);
    StuckIsNotOk(r.users, ListOf(r, c), RELEASE);
  }

  // ---------------------------------------------------------------- the object

  class UsersManager {
    var userInit: bool
    var users: map<UserId, Known>
    var producers: UserMap
    var consumers: UserMap
    ghost var rank: map<UserId, nat>

    ghost function Value(): Manager
      reads this
    {
      Manager(userInit, users, producers, consumers)
    }

    ghost predicate Ok()
      reads this
    {
      Valid(Value()) && GraphOk(users, rank) && forall u | u in users :: u in rank
    }

    constructor ()
      ensures Ok() && Value() == Manager(false, map[], UserMap([], NoBits()), UserMap([], NoBits()))
    {
      userInit, users := false, map[];
      producers, consumers := UserMap([], NoBits()), UserMap([], NoBits());
      rank := map[];
      NoBitsOk(map[], UserMap([], NoBits()));
    }

    method Reset()
      modifies this
      ensures Ok() && Value() == Manager(false, map[], UserMap([], NoBits()), UserMap([], NoBits()))
    {
      userInit, users := false, map[];
      producers, consumers := UserMap([], NoBits()), UserMap([], NoBits());
      rank := map[];
      NoBitsOk(map[], UserMap([], NoBits()));
    }

    /** enqueUserGraph_: the users of the graph go to the map of their category. */
    method EnqueUserGraph(graph: map<UserId, Known>, ghost order: map<UserId, nat>)
      requires users == map[] && producers.keys == [] && consumers.keys == [] && !userInit
      requires forall u | u in graph :: graph[u].status == {} && u in order
      requires GraphOk(graph, order)
      modifies this
      ensures Ok() && users == graph && !userInit
    {
      var todo := graph.Keys;
      producers, consumers := UserMap([], NoBits()), UserMap([], NoBits());
      users := graph;
      rank := order;
      while todo != {}
        invariant todo <= graph.Keys && users == graph && rank == order && !userInit
        invariant producers.bits == NoBits() && consumers.bits == NoBits()
        invariant Ascending(producers.keys) && Ascending(consumers.keys)
        invariant forall u :: u in producers.keys <==> u in graph && u !in todo && graph[u].category == PRODUCER
        invariant forall u :: u in consumers.keys <==> u in graph && u !in todo && graph[u].category == CONSUMER
        decreases |todo|
      {
        var u := Pick(todo);
        todo := todo - {u};
        match graph[u].category {
          case PRODUCER =>
            InsertKeySorts(producers.keys, u);
            producers := producers.(keys := InsertKey(producers.keys, u));
          case CONSUMER =>
            InsertKeySorts(consumers.keys, u);
            consumers := consumers.(keys := InsertKey(consumers.keys, u));
          case NONE =>
        }
      }
      KeysKnown(graph, producers.keys);
      KeysKnown(graph, consumers.keys);
      NoBitsOk(graph, producers);
      NoBitsOk(graph, consumers);
    }

    method FinishUserSetup()
      requires Ok()
      modifies `userInit
      ensures Ok() && Value() == old(Value()).(init := true)
    {
      userInit := true;
    }

    /** markUserStatus: the bits of the mask one after the other, lowest first. */
    method MarkUserStatus(u: UserId, mask: seq<Status>)
      requires Ok()
      modifies this
      ensures Ok() && Value() == MarkAll(old(Value()), seq(|mask|, k requires 0 <= k < |mask| => (u, mask[k])))
    {
      ghost var marks := seq(|mask|, k requires 0 <= k < |mask| => (u, mask[k]));
      for k := 0 to |mask|
        invariant Ok() && Value() == MarkAll(old(Value()), marks[..k]) && rank == old(rank)
      {
        assert marks[..k + 1][..k] == marks[..k] && marks[..k + 1][k] == (u, mask[k]);
        MarkOne(u, mask[k]);
      }
      assert marks[..|mask|] == marks;
    }

    method MarkOne(u: UserId, s: Status)
      requires Ok()
      modifies this
      ensures Ok() && Value() == Mark(old(Value()), u, s) && rank == old(rank)
    {
      MarkOk(Value(), u, s);
      MarkKeepsGraph(Value(), rank, u, s);
      if !userInit || u !in users || (u !in producers.keys && u !in consumers.keys) || s in users[u].status {
        return;
      }
      users := WithStatus(users, u, s);
      if u in producers.keys {
        producers := SetBit(producers, u, s);
      } else {
        consumers := SetBit(consumers, u, s);
      }
    }

    /** addUser on a manager that is set up: the graph has one more user and all users are entered again. */
    method AddLateUser(u: UserId, c: Category)
      requires Ok()
      modifies this
      ensures Value() == AddUser(old(Value()), u, c)
      ensures u !in old(users) && c != NONE ==> (Ok() <==> NoneMarkedBehind(old(Value()), ListOf(old(Value()), c), u))
    {
      if u !in users {
        ghost var m := Value();
        if c != NONE {
          LateUserIsFineExactly(m, u, c);
        }
        LateUserKeepsGraph(m, rank, u, c);
        users := users[u := Known(c, {}, [])];
        rank := rank[u := 0];
        if c == PRODUCER {
          producers := producers.(keys := InsertKey(producers.keys, u));
        } else if c == CONSUMER {
          consumers := consumers.(keys := InsertKey(consumers.keys, u));
        }
      }
    }

    method HaveAllUsersReleased() returns (ok: bool)
      requires Ok()
      ensures forall us: Users | StandsFor(Value(), rank, us) :: ok == us.AllReleased()
    {
      ok := userInit && AllMarked(consumers, RELEASE) && AllMarked(producers, RELEASE);
      forall us: Users | StandsFor(Value(), rank, us)
        ensures ok == us.AllReleased()
      {
        CountsAreExact(Value(), rank, us);
      }
    }
  }

  lemma KeysKnown(users: map<UserId, Known>, keys: seq<UserId>)
    requires (forall u | u in users :: users[u].status == {}) && forall u | u in keys :: u in users
    ensures forall k | 0 <= k < |keys| :: keys[k] in users && users[keys[k]].status == {}
  {
    forall k | 0 <= k < |keys|
      ensures keys[k] in users && users[keys[k]].status == {}
    {
      KeyKnown(users, keys, keys[k]);
    }
  }

  lemma KeyKnown(users: map<UserId, Known>, keys: seq<UserId>, u: UserId)
    requires (forall v | v in users :: users[v].status == {}) && (forall v | v in keys :: v in users) && u in keys
    ensures u in users && users[u].status == {}
  {}

  lemma NoBitsOk(users: map<UserId, Known>, m: UserMap)
    requires m.bits == NoBits()
    requires forall k | 0 <= k < |m.keys| :: m.keys[k] in users && users[m.keys[k]].status == {}
    ensures BitsOk(users, m)
  {
    forall s: Status | HasBit(s)
      ensures s in m.bits && m.bits[s] == {}
    {
      match s
      case PRE_RELEASE =>
      case USED =>
      case RELEASE =>
      case RELEASE_STILLUSE =>
    }
  }
}

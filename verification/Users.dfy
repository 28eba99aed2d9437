/** The users of one stream buffer: who they are, who comes before whom, and how far each has come.
    This is the abstract value that the bookkeeping of UsersManagerImp.cpp stands for (see UsersManager.dfy). */
module Users {
  type UserId = int

  /** The status bits a user can be marked with (IUsersManager::UserStatus). */
  datatype Status = ACQUIRE | PRE_RELEASE | USED | RELEASE | RELEASE_STILLUSE

  /** `prior[u]` holds the users ahead of `u` in the user graph, whatever their category.
      The last three fields hold the users marked with that status. */
  datatype Users = Users(
    active: bool,
    producers: set<UserId>,
    consumers: set<UserId>,
    prior: map<UserId, set<UserId>>,
    released: set<UserId>,
    preReleased: set<UserId>,
    stillUse: set<UserId>)
  {
    predicate IsUser(u: UserId) {
      u in producers || u in consumers
    }

    /** The user has marked RELEASE or PRE_RELEASE. */
    predicate Done(u: UserId) {
      active && IsUser(u) && (u in released || u in preReleased)
    }

    predicate AllReleased() {
      active && producers <= released && consumers <= released
    }

    predicate AllDone() {
      active && producers <= released + preReleased && consumers <= released + preReleased
    }

    predicate ProducersDone() {
      active && producers <= released + preReleased
    }

    /** Every user ahead of `u` has let go of the buffer, so `u` may have it. */
    predicate MayAcquire(u: UserId) {
      && active && IsUser(u)
      && (u in prior ==>
            forall p | p in prior[u] && IsUser(p) :: p in released || p in preReleased || p in stillUse)
    }

    function Mark(u: UserId, s: Status): Users {
      if !active || !IsUser(u) then this
      else match s
        case RELEASE => this.(released := released + {u})
        case PRE_RELEASE => this.(preReleased := preReleased + {u})
        case RELEASE_STILLUSE => this.(stillUse := stillUse + {u})
        case _ => this
    }

    function Reset(): Users {
      NoUsers()
    }
  }

  /** A manager before its users are set up, and again after a reset. */
  function NoUsers(): Users {
    Users(false, {}, {}, map[], {}, {}, {})
  }

  /** UsersManager::addUser as seen from outside: it fails for a user the graph already has. */
  function WithConsumer(us: Users, u: UserId): Users {
    if !us.active || u in us.prior then us
    else us.(consumers := us.consumers + {u}, prior := us.prior[u := {}])
  }

  /** `later` can be reached from `earlier` by marking users. */
  ghost predicate Grows(earlier: Users, later: Users) {
    && later.active == earlier.active
    && later.producers == earlier.producers
    && later.consumers == earlier.consumers
    && later.prior == earlier.prior
    && earlier.released <= later.released
    && earlier.preReleased <= later.preReleased
    && earlier.stillUse <= later.stillUse
  }
}

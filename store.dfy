/**
 * The application's database as one object: each route handler updates the
 * tables in place, statement by statement, and is proved to have the effect
 * the corresponding function of Accounts or Ledger describes.
 */
module App {
  import opened Types
  import opened Presence
  import opened Accounts
  import opened Ledger

  /** One line of the friends list. */
  datatype FriendEntry = FriendEntry(name: string, online: bool)

  /** The names listed, as a set. */
  function Names(entries: seq<FriendEntry>): (r: set<string>)
    ensures forall i :: 0 <= i < |entries| ==> entries[i].name in r
    ensures forall g :: g in r ==> exists i :: 0 <= i < |entries| && entries[i].name == g
  {
    if entries == [] then {} else Names(entries[..|entries| - 1]) + {entries[|entries| - 1].name}
  }

  /** No name is listed twice. */
  predicate DistinctNames(entries: seq<FriendEntry>) {
    forall i, j :: 0 <= i < j < |entries| ==> entries[i].name != entries[j].name
  }

  /** A friend listed as online has an account whose timestamp is fresh. */
  predicate OnlineFlag(t: Tables, e: FriendEntry, now: int) {
    e.online <==> e.name in t.users && IsOnline(t.users[e.name].lastSeen, now)
  }

  /** Why the as-written listing fails: a friend row names `name`, who has no account. */
  datatype ListingError = MissingAccount(name: string)

  /** The friends list is incomplete when some friend row names no account. */
  predicate ListingFails(t: Tables, me: string) {
    !(FriendNames(t, me) <= t.users.Keys)
  }

  class Store {
    var users: map<string, User>
    var friends: set<Pair>
    var requests: set<Pair>
    var blocked: set<Pair>

    /** The four tables as a value. */
    function Snapshot(): Tables
      reads this
    {
      Tables(users, friends, requests, blocked)
    }

    /** `init_db` on a fresh database file: four empty tables. */
    constructor ()
      ensures Snapshot() == EmptyTables
    {
      users, friends, requests, blocked := map[], {}, {}, {};
    }

    /** update_last_seen: a no-op for an unknown username. */
    method UpdateLastSeen(username: string, now: int)
      modifies this
      ensures Snapshot() == AfterTouch(old(Snapshot()), username, now)
    {
      if username in users {
        users := users[username := users[username].(lastSeen := Some(now))];
      }
    }

    /** The POST branch of the login route. */
    method Login(username: string, password: string, now: int,
                 hash: string -> string, verify: (string, string) -> bool) returns (outcome: LoginOutcome)
      modifies this
      ensures LoginResult(outcome, Snapshot()) == Accounts.Login(old(Snapshot()), username, password, now, hash, verify)
    {
      if username == "" || password == "" {
        return MissingCredentials;
      }
      if username !in users {
        users := users[username := User(hash(password), DefaultElo, DefaultAvatar, Some(now))];
        return Registered;
      }
      if verify(users[username].password, password) {
        UpdateLastSeen(username, now);
        return LoggedIn;
      }
      return WrongPassword;
    }

    /** add_friend_route. */
    method AddFriend(me: string, f: string)
      modifies this
      ensures Snapshot() == AfterAddFriend(old(Snapshot()), me, f)
    {
      requests := requests + {(me, f)};
    }

    /** accept. */
    method Accept(me: string, f: string)
      modifies this
      ensures Snapshot() == AfterAccept(old(Snapshot()), me, f)
    {
      requests := requests - {(f, me)};
      friends := friends + {(me, f)};
      friends := friends + {(f, me)};
    }

    /** decline. */
    method Decline(me: string, f: string)
      modifies this
      ensures Snapshot() == AfterDecline(old(Snapshot()), me, f)
    {
      requests := requests - {(f, me)};
    }

    /** remove_friend. */
    method RemoveFriend(me: string, f: string)
      modifies this
      ensures Snapshot() == AfterRemoveFriend(old(Snapshot()), me, f)
    {
      friends := friends - {(me, f)};
      friends := friends - {(f, me)};
    }

    /** block. */
    method Block(me: string, f: string)
      modifies this
      ensures Snapshot() == AfterBlock(old(Snapshot()), me, f)
    {
      blocked := blocked + {(me, f)};
      friends := friends - {(me, f)};
      friends := friends - {(f, me)};
      requests := set p | p in requests && !(p.0 == f || p.1 == me);
    }

    /**
     * The friends list of the friends page as the code builds it: one
     * lookup of `last_seen` per friend row, in the order the rows come.
     * The lookup of a friend without an account yields no row, and
     * subscripting it raises, so the page fails.
     */
    method ListFriendsAsWritten(me: string, now: int) returns (r: Result<seq<FriendEntry>, ListingError>)
      ensures r.Failure? <==> ListingFails(Snapshot(), me)
      ensures r.Failure? ==> (me, r.error.name) in friends && r.error.name !in users
      ensures r.Success? ==>
        Names(r.value) == FriendNames(Snapshot(), me) && DistinctNames(r.value) &&
        forall i :: 0 <= i < |r.value| ==> OnlineFlag(Snapshot(), r.value[i], now)
    {
      var todo := FriendNames(Snapshot(), me);
      var list: seq<FriendEntry> := [];
      while todo != {}
        invariant todo <= FriendNames(Snapshot(), me)
        invariant Names(list) == FriendNames(Snapshot(), me) - todo
        invariant Names(list) <= users.Keys
        invariant DistinctNames(list)
        invariant forall i :: 0 <= i < |list| ==> OnlineFlag(Snapshot(), list[i], now)
        decreases todo
      {
        var g :| g in todo;
        if g !in users {
          return Failure(MissingAccount(g));
        }
        list := list + [FriendEntry(g, IsOnline(users[g].lastSeen, now))];
        todo := todo - {g};
      }
      return Success(list);
    }

    /** The friends list with a friend who has no account shown as offline. */
    method ListFriends(me: string, now: int) returns (list: seq<FriendEntry>)
      ensures Names(list) == FriendNames(Snapshot(), me) && DistinctNames(list)
      ensures forall i :: 0 <= i < |list| ==> OnlineFlag(Snapshot(), list[i], now)
    {
      var todo := FriendNames(Snapshot(), me);
      list := [];
      while todo != {}
        invariant todo <= FriendNames(Snapshot(), me)
        invariant Names(list) == FriendNames(Snapshot(), me) - todo
        invariant DistinctNames(list)
        invariant forall i :: 0 <= i < |list| ==> OnlineFlag(Snapshot(), list[i], now)
        decreases todo
      {
        var g :| g in todo;
        var online := if g in users then IsOnline(users[g].lastSeen, now) else false;
        list := list + [FriendEntry(g, online)];
        todo := todo - {g};
      }
    }
  }

  /** accept takes any name, so one accept of a name without an account breaks the listing as written. */
  lemma AcceptOfUnknownNameBreaksListing(t: Tables, me: string, f: string)
    requires f !in t.users
    ensures ListingFails(AfterAccept(t, me, f), me)
  {
  }

  /** Stores that only ever accept existing users keep the listing working. */
  lemma AcceptOfKnownNameKeepsListing(t: Tables, me: string, f: string, x: string)
    requires f in t.users && me in t.users
    requires !ListingFails(t, x)
    ensures !ListingFails(AfterAccept(t, me, f), x)
  {
  }
}

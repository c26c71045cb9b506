/**
 * The relationship ledger: the effect of each friends route on the
 * `friends`, `friend_requests` and `blocked` tables. Each route runs a fixed
 * sequence of INSERT OR IGNORE / DELETE statements and checks nothing
 * beforehand; `me` is the user of the session and `f` the URL argument.
 */
module Ledger {
  import opened Types

  /** add_friend_route: INSERT OR IGNORE the request (me, f). */
  function AfterAddFriend(t: Tables, me: string, f: string): (r: Tables)
    ensures (me, f) in r.requests
    ensures forall p :: p != (me, f) ==> (p in r.requests <==> p in t.requests)
    ensures r.users == t.users && r.friends == t.friends && r.blocked == t.blocked
  {
    t.(requests := t.requests + {(me, f)})
  }

  /** accept: delete the request (f, me), then insert (me, f) and (f, me) into friends. */
  function AfterAccept(t: Tables, me: string, f: string): (r: Tables)
    ensures (me, f) in r.friends && (f, me) in r.friends
    ensures forall p :: p != (me, f) && p != (f, me) ==> (p in r.friends <==> p in t.friends)
    ensures (f, me) !in r.requests
    ensures forall p :: p != (f, me) ==> (p in r.requests <==> p in t.requests)
    ensures r.users == t.users && r.blocked == t.blocked
  {
    t.(requests := t.requests - {(f, me)}, friends := t.friends + {(me, f), (f, me)})
  }

  /** decline: delete the request (f, me). */
  function AfterDecline(t: Tables, me: string, f: string): (r: Tables)
    ensures (f, me) !in r.requests
    ensures forall p :: p != (f, me) ==> (p in r.requests <==> p in t.requests)
    ensures r.users == t.users && r.friends == t.friends && r.blocked == t.blocked
  {
    t.(requests := t.requests - {(f, me)})
  }

  /** remove_friend: delete (me, f) and (f, me) from friends. */
  function AfterRemoveFriend(t: Tables, me: string, f: string): (r: Tables)
    ensures (me, f) !in r.friends && (f, me) !in r.friends
    ensures forall p :: p != (me, f) && p != (f, me) ==> (p in r.friends <==> p in t.friends)
    ensures r.users == t.users && r.requests == t.requests && r.blocked == t.blocked
  {
    t.(friends := t.friends - {(me, f), (f, me)})
  }

  /**
   * block: insert (me, f) into blocked, delete both friendship rows, then
   * `DELETE FROM friend_requests WHERE sender = f OR receiver = me`, which
   * removes every request f sent and every request me received.
   */
  function AfterBlock(t: Tables, me: string, f: string): (r: Tables)
    ensures (me, f) in r.blocked
    ensures forall p :: p != (me, f) ==> (p in r.blocked <==> p in t.blocked)
    ensures (me, f) !in r.friends && (f, me) !in r.friends
    ensures forall p :: p != (me, f) && p != (f, me) ==> (p in r.friends <==> p in t.friends)
    ensures forall p :: p in r.requests ==> p in t.requests && p.0 != f && p.1 != me
    ensures forall p :: p in t.requests && p.0 != f && p.1 != me ==> p in r.requests
    ensures r.users == t.users
  {
    t.(blocked := t.blocked + {(me, f)},
       friends := t.friends - {(me, f), (f, me)},
       requests := set p | p in t.requests && p.0 != f && p.1 != me)
  }

  /** The friends of `me`, as `SELECT friend FROM friends WHERE user = me` returns them. */
  function FriendNames(t: Tables, me: string): (r: set<string>)
    ensures forall g :: g in r <==> (me, g) in t.friends
  {
    set p | p in t.friends && p.0 == me :: p.1
  }

  /** The senders of requests to `me`, as the friends page lists them. */
  function IncomingRequests(t: Tables, me: string): (r: set<string>)
    ensures forall s :: s in r <==> (s, me) in t.requests
  {
    set p | p in t.requests && p.1 == me :: p.0
  }

  // ----- single-step properties -----

  /** Sending the same request twice is the same as sending it once. */
  lemma AddFriendIdempotent(t: Tables, me: string, f: string)
    ensures AfterAddFriend(AfterAddFriend(t, me, f), me, f) == AfterAddFriend(t, me, f)
  {
  }

  /** A second accept of the same name changes nothing. */
  lemma AcceptIdempotent(t: Tables, me: string, f: string)
    ensures AfterAccept(AfterAccept(t, me, f), me, f) == AfterAccept(t, me, f)
  {
  }

  /**
   * Accepting does not need a pending request: with no request from `f`
   * the requests are untouched and the friendship is still created.
   */
  lemma AcceptWithoutRequest(t: Tables, me: string, f: string)
    requires (f, me) !in t.requests
    ensures AfterAccept(t, me, f).requests == t.requests
    ensures f in FriendNames(AfterAccept(t, me, f), me) && me in FriendNames(AfterAccept(t, me, f), f)
  {
  }

  /** A request followed by its acceptance leaves a friendship and no request. */
  lemma RequestThenAccept(t: Tables, a: string, b: string)
    requires (a, b) !in t.requests
    ensures var r := AfterAccept(AfterAddFriend(t, a, b), b, a);
      r.requests == t.requests && a in FriendNames(r, b) && b in FriendNames(r, a)
  {
  }

  /** Removing a friend who is not a friend is a no-op. */
  lemma RemoveAbsentFriend(t: Tables, me: string, f: string)
    requires (me, f) !in t.friends && (f, me) !in t.friends
    ensures AfterRemoveFriend(t, me, f) == t
  {
  }

  /** Blocking empties the blocker's inbox and the target's outbox. */
  lemma BlockClearsRequests(t: Tables, me: string, f: string)
    ensures IncomingRequests(AfterBlock(t, me, f), me) == {}
    ensures forall x :: (f, x) !in AfterBlock(t, me, f).requests
  {
  }

  /** Blocking does not withdraw the blocker's own request to the target. */
  lemma BlockKeepsOwnRequest(t: Tables, me: string, f: string)
    requires me != f
    requires (me, f) in t.requests
    ensures (me, f) in AfterBlock(t, me, f).requests
  {
  }

  /** Requests between two other users survive a block. */
  lemma BlockSparesUnrelatedRequests(t: Tables, me: string, f: string, x: string, y: string)
    requires x != f && y != me
    ensures (x, y) in AfterBlock(t, me, f).requests <==> (x, y) in t.requests
  {
  }

  /**
   * Nothing stops a blocked user from reconnecting: accept, which checks
   * nothing, recreates the friendship while the block row is still there,
   * and add_friend_route lets the target file a new request to the blocker.
   */
  lemma BlockDoesNotPreventFriendship(t: Tables, me: string, f: string)
    ensures var r := AfterAccept(AfterBlock(t, me, f), f, me);
      (me, f) in r.blocked && (me, f) in r.friends && (f, me) in r.friends
    ensures var r := AfterAddFriend(AfterBlock(t, me, f), f, me);
      (me, f) in r.blocked && (f, me) in r.requests
  {
  }

  /**
   * Nothing keeps a friendship row and a request in the same direction
   * apart: friends can still send each other a request.
   */
  lemma FriendsCanStillRequest(t: Tables, me: string, f: string)
    requires (me, f) in t.friends
    ensures (me, f) in AfterAddFriend(t, me, f).friends && (me, f) in AfterAddFriend(t, me, f).requests
  {
  }

  // ----- friendship symmetry -----

  lemma AcceptKeepsSymmetry(t: Tables, me: string, f: string)
    requires Symmetric(t.friends)
    ensures Symmetric(AfterAccept(t, me, f).friends)
  {
  }

  lemma RemoveFriendKeepsSymmetry(t: Tables, me: string, f: string)
    requires Symmetric(t.friends)
    ensures Symmetric(AfterRemoveFriend(t, me, f).friends)
  {
  }

  lemma BlockKeepsSymmetry(t: Tables, me: string, f: string)
    requires Symmetric(t.friends)
    ensures Symmetric(AfterBlock(t, me, f).friends)
  {
  }

  /** After a block neither side lists the other as a friend. */
  lemma BlockEndsFriendship(t: Tables, me: string, f: string)
    ensures f !in FriendNames(AfterBlock(t, me, f), me) && me !in FriendNames(AfterBlock(t, me, f), f)
  {
  }
}

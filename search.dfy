/**
 * The search box of the friends page: an ordered chain of checks in which
 * the first match decides the answer, and only a plain "found" offers the
 * add-friend link.
 */
module Search {
  import opened Types
  import opened Ledger

  datatype SearchOutcome = Yourself | NoSuchUser | BlockedByThem | AlreadyFriends | RequestAlreadySent | Found

  /** The message shown and the name offered to `add_friend_route`, if any. */
  datatype SearchResult = SearchResult(outcome: SearchOutcome, addFriend: Option<string>)

  function Search(t: Tables, me: string, name: string): (r: SearchResult)
    ensures r.addFriend == (if r.outcome == Found then Some(name) else None)
    ensures r.outcome == Yourself <==> name == me
    ensures r.outcome == NoSuchUser <==> name != me && name !in t.users
    ensures r.outcome == BlockedByThem <==> name != me && name in t.users && (name, me) in t.blocked
    ensures r.outcome == AlreadyFriends <==>
      name != me && name in t.users && (name, me) !in t.blocked && (me, name) in t.friends
    ensures r.outcome == RequestAlreadySent <==>
      name != me && name in t.users && (name, me) !in t.blocked && (me, name) !in t.friends &&
      (me, name) in t.requests
    ensures r.outcome == Found <==>
      name != me && name in t.users && (name, me) !in t.blocked && (me, name) !in t.friends &&
      (me, name) !in t.requests
  {
    if name == me then SearchResult(Yourself, None)
    else if name !in t.users then SearchResult(NoSuchUser, None)
    else if (name, me) in t.blocked then SearchResult(BlockedByThem, None)
    else if (me, name) in t.friends then SearchResult(AlreadyFriends, None)
    else if (me, name) in t.requests then SearchResult(RequestAlreadySent, None)
    else SearchResult(Found, Some(name))
  }

  /** Following the link the search offers turns "found" into "request already sent". */
  lemma SearchAfterAddFriend(t: Tables, me: string, name: string)
    requires Search(t, me, name).outcome == Found
    ensures Search(AfterAddFriend(t, me, name), me, name).outcome == RequestAlreadySent
  {
  }

  /** After `me` accepts an existing user who has not blocked them, the search says "already friends". */
  lemma SearchAfterAccept(t: Tables, me: string, f: string)
    requires f != me && f in t.users && (f, me) !in t.blocked
    ensures Search(AfterAccept(t, me, f), me, f).outcome == AlreadyFriends
  {
  }

  /** The blocked user sees the block when searching for the blocker. */
  lemma SearchAfterBlock(t: Tables, me: string, f: string)
    requires f != me && me in t.users
    ensures Search(AfterBlock(t, me, f), f, me).outcome == BlockedByThem
  {
  }

  /**
   * A block is one-way: the blocker's own search for the target never
   * reports it, and once the friendship and the blocker's request are gone
   * the target is offered again.
   */
  lemma BlockerStillFindsTarget(t: Tables, me: string, f: string)
    requires f != me && f in t.users && (f, me) !in t.blocked && (me, f) !in t.requests
    ensures Search(AfterBlock(t, me, f), me, f) == SearchResult(Found, Some(f))
  {
  }

  /**
   * The searcher's view depends only on the request they sent, so declining
   * an incoming request from `name` never changes what searching `name` shows.
   */
  lemma SearchIgnoresDecline(t: Tables, me: string, name: string)
    ensures Search(AfterDecline(t, me, name), me, name) == Search(t, me, name)
  {
  }

  /**
   * `b` asks `a` to be friends and `a` declines: `a` can still add `b`
   * from the search, as long as nothing else stands between them.
   */
  lemma DeclineThenSearch(t: Tables, a: string, b: string)
    requires a != b && b in t.users
    requires (b, a) !in t.blocked && (a, b) !in t.friends && (a, b) !in t.requests
    ensures Search(AfterDecline(AfterAddFriend(t, b, a), a, b), a, b) == SearchResult(Found, Some(b))
  {
  }
}

/**
 * Sequences of requests: what holds of the store after any run of the
 * routes, one request after another.
 */
module Traces {
  import opened Types
  import opened Accounts
  import opened Ledger

  /** One request that changes the store; `me` is the session user. */
  datatype Request =
    | LogIn(username: string, password: string, now: int)
    | Ping(username: string, now: int)
    | AddFriend(me: string, f: string)
    | Accept(me: string, f: string)
    | Decline(me: string, f: string)
    | RemoveFriend(me: string, f: string)
    | Block(me: string, f: string)

  function Apply(t: Tables, q: Request, hash: string -> string, verify: (string, string) -> bool): Tables
  {
    match q
    case LogIn(u, p, now) => Login(t, u, p, now, hash, verify).tables
    case Ping(u, now) => AfterTouch(t, u, now)
    case AddFriend(me, f) => AfterAddFriend(t, me, f)
    case Accept(me, f) => AfterAccept(t, me, f)
    case Decline(me, f) => AfterDecline(t, me, f)
    case RemoveFriend(me, f) => AfterRemoveFriend(t, me, f)
    case Block(me, f) => AfterBlock(t, me, f)
  }

  function Run(t: Tables, trace: seq<Request>, hash: string -> string, verify: (string, string) -> bool): Tables
    decreases |trace|
  {
    if trace == [] then t else Run(Apply(t, trace[0], hash, verify), trace[1..], hash, verify)
  }

  /** Every request keeps the friendship rows paired. */
  lemma ApplyKeepsSymmetry(t: Tables, q: Request, hash: string -> string,
                                              verify: (string, string) -> bool)
    requires Symmetric(t.friends)
    ensures Symmetric(Apply(t, q, hash, verify).friends)
  {
  }

  /** Starting from symmetric friendships, every run of requests ends symmetric. */
  lemma {:induction false} RunKeepsSymmetry(t: Tables, trace: seq<Request>, hash: string -> string,
                                            verify: (string, string) -> bool)
    requires Symmetric(t.friends)
    ensures Symmetric(Run(t, trace, hash, verify).friends)
    decreases |trace|
  {
    if trace != [] {
      ApplyKeepsSymmetry(t, trace[0], hash, verify);
      RunKeepsSymmetry(Apply(t, trace[0], hash, verify), trace[1..], hash, verify);
    }
  }

  /** The store of a fresh database has symmetric friendships, so every reachable store does. */
  lemma ReachableStoresAreSymmetric(trace: seq<Request>, hash: string -> string, verify: (string, string) -> bool)
    ensures Symmetric(Run(EmptyTables, trace, hash, verify).friends)
  {
    RunKeepsSymmetry(EmptyTables, trace, hash, verify);
  }

  /**
   * No modelled request deletes an account, rewrites its hash, rating or
   * avatar, or lifts a block. (The profile upload, which is not modelled,
   * does rewrite `avatar`.)
   */
  lemma ApplyKeepsAccountsAndBlocks(t: Tables, q: Request, hash: string -> string,
                                                       verify: (string, string) -> bool)
    ensures t.users.Keys <= Apply(t, q, hash, verify).users.Keys
    ensures forall u :: u in t.users ==> SameAccount(Apply(t, q, hash, verify).users[u], t.users[u])
    ensures t.blocked <= Apply(t, q, hash, verify).blocked
  {
  }

  /** Two rows of one account agree on hash, rating and avatar. */
  predicate SameAccount(v: User, w: User) {
    v.password == w.password && v.elo == w.elo && v.avatar == w.avatar
  }

  /**
   * Over any run of modelled requests, accounts are never deleted, their
   * rating, avatar and stored hash never change, and blocks are never
   * lifted: no route deletes from `blocked`.
   */
  lemma {:induction false} RunKeepsAccountsAndBlocks(t: Tables, trace: seq<Request>, hash: string -> string,
                                                     verify: (string, string) -> bool)
    ensures t.users.Keys <= Run(t, trace, hash, verify).users.Keys
    ensures forall u :: u in t.users ==> SameAccount(Run(t, trace, hash, verify).users[u], t.users[u])
    ensures t.blocked <= Run(t, trace, hash, verify).blocked
    decreases |trace|
  {
    if trace != [] {
      var next := Apply(t, trace[0], hash, verify);
      ApplyKeepsAccountsAndBlocks(t, trace[0], hash, verify);
      RunKeepsAccountsAndBlocks(next, trace[1..], hash, verify);
    }
  }
}

# Friends ledger and presence of the cs2-platform web application

This project models the core of `main.py`, a Flask application backed by
SQLite. The application has four tables:

- `users`, keyed by username: the stored password hash, the `elo` rating
  (default 1000), the avatar path (default `/static/avatars/default.png`)
  and the `last_seen` timestamp.
- `friends(user, friend)`, `friend_requests(sender, receiver)` and
  `blocked(blocker, blocked)`. Each has a primary key made of both columns,
  so each is a set of ordered pairs.

The route handlers change these tables with short, fixed sequences of
INSERT OR IGNORE, DELETE and UPDATE statements. The friends page lists a
user's friends with an online flag, lists incoming requests and classifies
a searched name.

Layout:

- `types.dfy` (module `Types`): the tables as the value `Tables`, a user row,
  and the column defaults.
- `presence.dfy` (`Presence`): `IsOnline`, which uses a 60-second window.
- `accounts.dfy` (`Accounts`): refreshing `last_seen`, and the login route
  that registers unseen usernames.
- `ledger.dfy` (`Ledger`): one function per friends route (`AfterAddFriend`,
  `AfterAccept`, `AfterDecline`, `AfterRemoveFriend`, `AfterBlock`), plus
  lemmas about single steps.
- `search.dfy` (`Search`): the ordered search classification, and how it
  interacts with the routes.
- `traces.dfy` (`Traces`): the invariants that hold after any sequence of
  requests.
- `store.dfy` (`App`): the class `Store`, which holds the four tables as
  `map` and `set` fields. Each handler is a method that updates the fields
  statement by statement, and each is proved to have exactly the effect of
  its function in `Accounts` or `Ledger`. Two listing methods build the
  friends list with a loop.

Inputs that the program gets from outside are passed in as parameters:

- the current time, `time.time()`, is `now: int`;
- werkzeug's `generate_password_hash` is `hash: string -> string`;
- `check_password_hash` is `verify: (string, string) -> bool`;
- the session user is `me`.

The model follows the code, not the usual intent of a friends graph. In
particular:

- `add_friend_route` checks nothing. A request may go to oneself, to a
  friend, to a name with no account, or to someone who has blocked the
  sender (`FriendsCanStillRequest`, `BlockDoesNotPreventFriendship`).
- `accept` needs no pending request (`AcceptWithoutRequest`). It can
  recreate a friendship across a block (`BlockDoesNotPreventFriendship`).
- `block` deletes every request the target sent and every request the
  blocker received. It keeps the blocker's own request to the target
  (`BlockClearsRequests`, `BlockKeepsOwnRequest`).
- A friendship row and a request in the same direction can coexist.
- Blocks are never lifted (`RunKeepsAccountsAndBlocks`).
- The search checks only the request the searcher sent. Declining an
  incoming request therefore never changes what the search shows
  (`SearchIgnoresDecline`).

## Model

| member | source | states |
|---|---|---|
| `Presence.IsOnline` | main.py:70-73 | a NULL or 0 timestamp is offline; otherwise online exactly when `now` is less than the timestamp plus 60 |
| `Presence.OnlineWhenJustSeen` | main.py:63-73 | a non-zero timestamp written at `now` reads as online at `now` |
| `Presence.OfflineStaysOffline` | main.py:70-73 | once offline, a user stays offline at every later time until the timestamp changes |
| `Presence.OfflineAfterWindow` | main.py:73 | a user last seen at `t` is offline from `t + 60` on |
| `Accounts.AfterTouch` | main.py:63-68 | refreshing `last_seen` sets only that user's timestamp; an unknown name changes nothing; the relationship tables are untouched |
| `Accounts.NewUser` | main.py:94-97 | a new row has rating 1000, the default avatar, the given hash and `last_seen = now` |
| `Accounts.Login` | main.py:83-110 | an empty name or password changes nothing; an unseen name adds one user row with `hash(password)`; a known name with a failing `verify` changes nothing; a passing `verify` only refreshes that user's `last_seen`; the relationship tables never change |
| `Accounts.LoginKeepsAccounts` | main.py:93-110 | login never removes an account and never rewrites a stored hash |
| `Accounts.SuccessfulLoginIsOnline` | main.py:93-107 | after a registering or successful login, the account exists and is online at `now` (for `now != 0`) |
| `Accounts.RegisterThenWrongPassword` | main.py:93-110 | a fresh name registers; a second login with a password its hash rejects fails and leaves the store, stored hash included, unchanged |
| `Accounts.RegisterThenLogIn` | main.py:93-107 | a fresh name registers, and the same password then logs in (given `verify(hash(p), p)`) |
| `Ledger.AfterAddFriend` | main.py:218 | `(me, f)` is a request afterwards; no other request, friendship, block or user changes |
| `Ledger.AfterAccept` | main.py:230-232 | both `(me, f)` and `(f, me)` are friendships, `(f, me)` is no longer a request, nothing else changes, and `blocked` and `users` are untouched |
| `Ledger.AfterDecline` | main.py:244 | only the request `(f, me)` disappears |
| `Ledger.AfterRemoveFriend` | main.py:256-257 | exactly `(me, f)` and `(f, me)` leave `friends`; requests, blocks and users are unchanged |
| `Ledger.AfterBlock` | main.py:269-272 | `(me, f)` is blocked; neither friendship direction remains, other friendships remain; the surviving requests are exactly those not sent by `f` and not received by `me` |
| `Ledger.FriendNames` | main.py:170 | `g` is listed for `me` exactly when `(me, g)` is a friendship row |
| `Ledger.IncomingRequests` | main.py:178-179 | `s` is listed for `me` exactly when `(s, me)` is a request |
| `Ledger.AddFriendIdempotent` | main.py:218 | sending the same request twice equals sending it once |
| `Ledger.AcceptIdempotent` | main.py:230-232 | a second accept of the same name changes nothing |
| `Ledger.AcceptWithoutRequest` | main.py:230-232 | accept without a pending request leaves the requests unchanged and still creates both friendship rows |
| `Ledger.RequestThenAccept` | main.py:218-232 | a new request followed by its acceptance, a self-request included, leaves the requests as before and a friendship in both directions |
| `Ledger.RemoveAbsentFriend` | main.py:256-257 | removing a non-friend is a no-op |
| `Ledger.BlockClearsRequests` | main.py:272 | after a block, the blocker has no incoming request and the target has no outgoing request |
| `Ledger.BlockKeepsOwnRequest` | main.py:272 | the blocker's own request to the target survives the block |
| `Ledger.BlockSparesUnrelatedRequests` | main.py:272 | a request whose sender is not the target and whose receiver is not the blocker is unaffected |
| `Ledger.BlockDoesNotPreventFriendship` | main.py:211-275 | after a block, accept recreates the friendship and add_friend_route files the target's request, while the block row stays |
| `Ledger.FriendsCanStillRequest` | main.py:218 | a friend can still file a request in the same direction as the friendship |
| `Ledger.AcceptKeepsSymmetry` | main.py:231-232 | accept keeps the friendship relation symmetric |
| `Ledger.RemoveFriendKeepsSymmetry` | main.py:256-257 | remove_friend keeps the friendship relation symmetric |
| `Ledger.BlockKeepsSymmetry` | main.py:270-271 | block keeps the friendship relation symmetric |
| `Ledger.BlockEndsFriendship` | main.py:270-271 | after a block, neither side has the other in their friends list |
| `Search.Search` | main.py:184-205 | the first matching check decides, in this order: self, no such user, blocked by them, already friends, request already sent, found; the add-friend name is offered only when found |
| `Search.SearchAfterAddFriend` | main.py:200-218 | following the offered link turns "found" into "request already sent" |
| `Search.SearchAfterAccept` | main.py:196-232 | after accepting an existing user who has not blocked me, the search says "already friends" |
| `Search.SearchAfterBlock` | main.py:192-269 | the blocked user's search for the blocker reports the block |
| `Search.BlockerStillFindsTarget` | main.py:192-272 | the blocker's own search for the target is "found" after the block, when nothing else intervenes |
| `Search.SearchIgnoresDecline` | main.py:200-244 | declining a request from `name` never changes the decliner's search for `name` |
| `Search.DeclineThenSearch` | main.py:184-244 | `b` asks `a`, `a` declines, and `a`'s search for `b` offers to add `b` |
| `Traces.ApplyKeepsSymmetry` | main.py:211-275 | every modelled request keeps friendships symmetric |
| `Traces.RunKeepsSymmetry` | main.py:211-275 | every sequence of requests starting from symmetric friendships ends symmetric |
| `Traces.ReachableStoresAreSymmetric` | main.py:24-60 | every store reachable from a fresh database has symmetric friendships |
| `Traces.ApplyKeepsAccountsAndBlocks` | main.py:63-110 | no modelled request (login, `last_seen` refresh, the friends routes at main.py:211-275) deletes an account, changes its hash, rating or avatar, or lifts a block |
| `Traces.RunKeepsAccountsAndBlocks` | main.py:211-275 | the same holds over any sequence of modelled requests (login and the `last_seen` refresh at main.py:63-110 included) |
| `App.Store.constructor` | main.py:24-58 | a fresh database has four empty tables |
| `App.Store.UpdateLastSeen` | main.py:63-68 | the new tables are `AfterTouch` of the old ones |
| `App.Store.Login` | main.py:82-110 | the outcome and the new tables are those of `Accounts.Login` |
| `App.Store.AddFriend` | main.py:211-221 | the new tables are `AfterAddFriend` of the old ones |
| `App.Store.Accept` | main.py:223-235 | the new tables are `AfterAccept` of the old ones |
| `App.Store.Decline` | main.py:237-247 | the new tables are `AfterDecline` of the old ones |
| `App.Store.RemoveFriend` | main.py:249-260 | the new tables are `AfterRemoveFriend` of the old ones |
| `App.Store.Block` | main.py:262-275 | the new tables are `AfterBlock` of the old ones |
| `App.Store.ListFriendsAsWritten` | main.py:169-175 | fails exactly when some friend row names a user with no account, and the failure names such a friend; otherwise lists each friend once, with `IsOnline` of their timestamp |
| `App.Store.ListFriends` | main.py:169-175 | lists each friend exactly once; a friend is online exactly when they have an account whose timestamp `IsOnline` accepts |
| `App.AcceptOfUnknownNameBreaksListing` | main.py:170-232 | accepting a name that has no account makes the as-written listing fail |
| `App.AcceptOfKnownNameKeepsListing` | main.py:170-232 | accepting between existing accounts keeps every user's listing working |

## Left out

- The Flask layer is not modelled: routing, `session`, `redirect`, `render_template`, `logout` and the messages shown. Results are constructors such as `LoginOutcome` and `SearchOutcome` instead of the page text.
- The `ping` before-request hook (main.py:75-78) reads the session. It is modelled only through the function it calls: `Store.UpdateLastSeen`, and `Ping` requests in `Traces`.
- The connection lifecycle (`get_db`, `commit`, `close`) is not modelled. Of `init_db`, the model keeps only the meaning of the primary keys. The constructor models a fresh database file.
- Password hashing is werkzeug code. It enters the model as the parameters `hash` and `verify`.
- The clock is the parameter `now`. Integers are unbounded. Timestamps in seconds stay far below SQLite's 64-bit limit.
- A missing form field (`None`) is falsy in Python, like the empty string. Login therefore models it as `""`, and the search takes the name as a string.
- The avatar upload and the read-only `home` and `profile` views are not modelled. They are file I/O and plain lookups.
- `Traces.RunKeepsAccountsAndBlocks`: the avatar part of `SameAccount` holds only for the modelled requests. The profile upload (main.py:151) rewrites `avatar` for the user named in the URL.
- `App.Store.ListFriendsAsWritten`: one `now` judges every friend. The source reads the clock once per friend row (main.py:73, called from the loop at main.py:172-175), so a listing that crosses a second boundary can judge friends against different clocks. `App.Store.ListFriends` does the same.
- The order of rows in the friends list and in the incoming-request list is left unspecified, because SQLite gives no order without ORDER BY. `ListFriends` picks rows in any order, and `IncomingRequests` is a set.
- Concurrent requests are not modelled. Each handler runs as one atomic step.

## Findings

| source | as written | input that shows it | evidently intended | confidence | as-written member | corrected member |
|---|---|---|---|---|---|---|
| main.py:172-175 | for each friend row, the page looks up that friend's `users` row and subscripts it without checking that a row came back; `accept` (main.py:231-232) stores friend rows for any name | a logged-in user opens `/accept/nobody` when `nobody` has no account, then opens `/friends`: the lookup returns nothing and subscripting it raises, so the page fails | list that friend as offline; `is_online` already treats a missing timestamp as offline | medium, not executed | `App.Store.ListFriendsAsWritten`, `App.AcceptOfUnknownNameBreaksListing` | `App.Store.ListFriends` |

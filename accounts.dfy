/**
 * The `users` table: refreshing `last_seen` and the login route, which
 * creates an account for an unseen username and otherwise checks the
 * password against the stored hash.
 */
module Accounts {
  import opened Types
  import opened Presence

  /** What the login route answers; the session and the redirect are not modelled. */
  datatype LoginOutcome = MissingCredentials | Registered | LoggedIn | WrongPassword

  datatype LoginResult = LoginResult(outcome: LoginOutcome, tables: Tables)

  /** `UPDATE users SET last_seen = now WHERE username = ?`. */
  function AfterTouch(t: Tables, username: string, now: int): (r: Tables)
    ensures r.friends == t.friends && r.requests == t.requests && r.blocked == t.blocked
    ensures r.users.Keys == t.users.Keys
    ensures forall u :: u in t.users && u != username ==> r.users[u] == t.users[u]
    ensures username in t.users ==>
      r.users[username].lastSeen == Some(now) &&
      r.users[username].password == t.users[username].password &&
      r.users[username].elo == t.users[username].elo &&
      r.users[username].avatar == t.users[username].avatar
  {
    if username in t.users then
      t.(users := t.users[username := t.users[username].(lastSeen := Some(now))])
    else
      t
  }

  /** The row `login` inserts for an unseen username. */
  function NewUser(passwordHash: string, now: int): (u: User)
    ensures u.elo == 1000 && u.avatar == "/static/avatars/default.png"
    ensures u.password == passwordHash && u.lastSeen == Some(now)
  {
    User(passwordHash, DefaultElo, DefaultAvatar, Some(now))
  }

  /**
   * The effect of POSTing the login form. `hash` stands for
   * generate_password_hash and `verify(stored, secret)` for
   * check_password_hash. A missing form field reads as "".
   */
  function Login(t: Tables, username: string, password: string, now: int,
                 hash: string -> string, verify: (string, string) -> bool): (r: LoginResult)
    ensures r.tables.friends == t.friends && r.tables.requests == t.requests && r.tables.blocked == t.blocked
    ensures username == "" || password == "" ==> r.outcome == MissingCredentials && r.tables == t
    ensures username != "" && password != "" && username !in t.users ==>
      r.outcome == Registered && r.tables.users == t.users[username := NewUser(hash(password), now)]
    ensures username != "" && password != "" && username in t.users ==>
      if verify(t.users[username].password, password)
      then r.outcome == LoggedIn && r.tables == AfterTouch(t, username, now)
      else r.outcome == WrongPassword && r.tables == t
  {
    if username == "" || password == "" then
      LoginResult(MissingCredentials, t)
    else if username !in t.users then
      LoginResult(Registered, t.(users := t.users[username := NewUser(hash(password), now)]))
    else if verify(t.users[username].password, password) then
      LoginResult(LoggedIn, AfterTouch(t, username, now))
    else
      LoginResult(WrongPassword, t)
  }

  /** Login never removes an account and never rewrites a stored hash. */
  lemma LoginKeepsAccounts(t: Tables, username: string, password: string, now: int,
                           hash: string -> string, verify: (string, string) -> bool)
    ensures t.users.Keys <= Login(t, username, password, now, hash, verify).tables.users.Keys
    ensures forall u :: u in t.users ==>
      Login(t, username, password, now, hash, verify).tables.users[u].password == t.users[u].password
  {
  }

  /** Whenever login lets the user in, the account exists and is online right away. */
  lemma SuccessfulLoginIsOnline(t: Tables, username: string, password: string, now: int,
                                hash: string -> string, verify: (string, string) -> bool)
    requires now != 0
    requires Login(t, username, password, now, hash, verify).outcome in {Registered, LoggedIn}
    ensures username in Login(t, username, password, now, hash, verify).tables.users
    ensures IsOnline(Login(t, username, password, now, hash, verify).tables.users[username].lastSeen, now)
  {
  }

  /**
   * A fresh username logs in twice: the first call registers it, the second
   * with a password the stored hash rejects fails and leaves the store as the
   * first call left it.
   */
  lemma RegisterThenWrongPassword(t: Tables, username: string, pw1: string, pw2: string,
                                                     now1: int, now2: int,
                                                     hash: string -> string, verify: (string, string) -> bool)
    requires username != "" && pw1 != "" && pw2 != ""
    requires username !in t.users
    requires !verify(hash(pw1), pw2)
    ensures Login(t, username, pw1, now1, hash, verify).outcome == Registered
    ensures Login(Login(t, username, pw1, now1, hash, verify).tables, username, pw2, now2, hash, verify)
            == LoginResult(WrongPassword, Login(t, username, pw1, now1, hash, verify).tables)
  {
  }

  /** A registered user who types the same password again is let in. */
  lemma RegisterThenLogIn(t: Tables, username: string, pw: string, now1: int, now2: int,
                                             hash: string -> string, verify: (string, string) -> bool)
    requires username != "" && pw != ""
    requires username !in t.users
    requires verify(hash(pw), pw)
    ensures Login(Login(t, username, pw, now1, hash, verify).tables, username, pw, now2, hash, verify).outcome
            == LoggedIn
  {
  }
}

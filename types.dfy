/**
 * The persistent state of the application: four SQLite tables.
 * `users` is keyed by username; the three relationship tables have a
 * primary key made of both of their columns, so each of them is a set of
 * ordered pairs.
 */
module Types {

  datatype Option<T> = None | Some(value: T)

  datatype Result<T, E> = Success(value: T) | Failure(error: E)

  /** A row of a two-column table whose primary key is both columns. */
  type Pair = (string, string)

  /** Column defaults of the `users` table. */
  const DefaultElo: int := 1000
  const DefaultAvatar: string := "/static/avatars/default.png"

  /** One row of `users`; `password` holds the stored hash, never the secret. */
  datatype User = User(password: string, elo: int, avatar: string, lastSeen: Option<int>)

  /**
   * The whole store: `friends` holds (user, friend), `requests` holds
   * (sender, receiver) and `blocked` holds (blocker, blocked).
   */
  datatype Tables = Tables(
    users: map<string, User>,
    friends: set<Pair>,
    requests: set<Pair>,
    blocked: set<Pair>)

  /** The store as `init_db` leaves a fresh database file. */
  const EmptyTables: Tables := Tables(map[], {}, {}, {})

  /** Every friendship row has its mirror row. */
  ghost predicate Symmetric(rel: set<Pair>) {
    forall a: string, b: string :: (a, b) in rel ==> (b, a) in rel
  }
}

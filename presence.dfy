/** Presence: a user is online while their last activity is recent. */
module Presence {
  import opened Types

  /** Width of the freshness window, in seconds. */
  const OnlineWindow: int := 60

  /**
   * `lastSeen` is the nullable `last_seen` column; Python's `not last_seen`
   * treats both NULL and 0 as "never seen".
   */
  function IsOnline(lastSeen: Option<int>, now: int): (r: bool)
    ensures lastSeen == None || lastSeen == Some(0) ==> !r
    ensures lastSeen.Some? && lastSeen.value != 0 ==> (r <==> now < lastSeen.value + OnlineWindow)
  {
    match lastSeen
    case None => false
    case Some(t) => t != 0 && now - t < OnlineWindow
  }

  /** A timestamp written at `now` makes its user online at `now`. */
  lemma OnlineWhenJustSeen(now: int)
    requires now != 0
    ensures IsOnline(Some(now), now)
  {
  }

  /** Going offline is permanent until the timestamp is refreshed. */
  lemma OfflineStaysOffline(lastSeen: Option<int>, now: int, later: int)
    requires now <= later
    requires !IsOnline(lastSeen, now)
    ensures !IsOnline(lastSeen, later)
  {
  }

  /** A user last seen at `t` is offline from `t + OnlineWindow` on. */
  lemma OfflineAfterWindow(t: int, now: int)
    requires t + OnlineWindow <= now
    ensures !IsOnline(Some(t), now)
  {
  }
}

/**
 * The victim area's layout: the latest-alert query (alerts ordered by
 * creation time, newest first, at most one), the banner it feeds, and the
 * header user built from the signed-in account. The same latest-alert
 * selection is made by the sign-in pages' layout.
 */
module VictimLayout {
  import opened Wrappers
  import opened Types
  import opened Text

  /** An alert with the greatest creation time; among equals, the first in collection order. */
  function Newest(alerts: seq<DisasterAlert>): (n: Option<DisasterAlert>)
    ensures n.None? <==> alerts == []
    ensures n.Some? ==> n.value in alerts
    ensures n.Some? ==> forall a :: a in alerts ==> a.createdAt <= n.value.createdAt
  {
    if alerts == [] then None
    else
      var rest := Newest(alerts[1..]);
      assert alerts == [alerts[0]] + alerts[1..];
      if rest.None? || rest.value.createdAt <= alerts[0].createdAt then Some(alerts[0]) else rest
  }

  /** `orderBy('createdAt', 'desc'), limit(1)` over the alerts collection. */
  function LatestAlertQuery(alerts: seq<DisasterAlert>): (result: seq<DisasterAlert>)
    ensures |result| <= 1
    ensures |result| == 1 <==> alerts != []
  {
    var n := Newest(alerts);
    if n.Some? then [n.value] else []
  }

  /** `!isLoading && alerts && alerts.length > 0 ? alerts[0] : null`; the banner shows exactly this alert, when there is one. */
  function LatestAlert(isLoading: bool, data: Option<seq<DisasterAlert>>): (latest: Option<DisasterAlert>)
    ensures latest.Some? <==> !isLoading && data.Some? && data.value != []
    ensures latest.Some? ==> latest.value == data.value[0]
  {
    if !isLoading && data.Some? && |data.value| > 0 then Some(data.value[0]) else None
  }

  /** Once loaded, the latest alert is one of the alerts and none is newer. */
  lemma LatestIsNewest(alerts: seq<DisasterAlert>)
    ensures LatestAlert(false, Some(LatestAlertQuery(alerts))).None? <==> alerts == []
    ensures var latest := LatestAlert(false, Some(LatestAlertQuery(alerts)));
            latest.Some? ==> latest.value in alerts && forall a :: a in alerts ==> a.createdAt <= latest.value.createdAt
  {
  }

  /** The header's user: display name or "Anonymous Victim", email or "No Email", always a victim. */
  function HeaderUser(u: AuthUser): (h: User)
    ensures h.id == u.uid && h.role == Victim
    ensures h.name == OrElse(u.displayName, "Anonymous Victim")
    ensures h.email == OrElse(u.email, "No Email")
  {
    User(u.uid, OrElse(u.displayName, "Anonymous Victim"), OrElse(u.email, "No Email"), Victim, None, None, None)
  }

  /** The header is rendered only once the user has loaded and is present. */
  function ShownHeader(isUserLoading: bool, user: Option<AuthUser>): (h: Option<User>)
    ensures h.Some? <==> !isUserLoading && user.Some?
    ensures h.Some? ==> h.value == HeaderUser(user.value)
  {
    if !isUserLoading && user.Some? then Some(HeaderUser(user.value)) else None
  }
}

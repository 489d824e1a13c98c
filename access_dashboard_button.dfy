/**
 * The landing page's "Access Dashboard" button. A signed-in user is sent
 * to the dashboard of the role found by probing the admins collection,
 * then the volunteers collection, with victim as the default. Without a
 * user the button signs in anonymously, writes a victim profile for the
 * new account and sends it to the victim dashboard; if no account comes
 * back, the button stops loading.
 */
module AccessDashboardButton {
  import opened Wrappers
  import opened Types
  import opened Store

  /** `getUserRole`: an admin record wins over a volunteer record; with neither the user is a victim. */
  function GetUserRole(admins: map<string, Doc>, volunteers: map<string, Doc>, uid: string): (role: UserRole)
    ensures role == Admin <==> uid in admins
    ensures role == Volunteer <==> uid !in admins && uid in volunteers
    ensures role == Victim <==> uid !in admins && uid !in volunteers
  {
    if uid in admins then Admin
    else if uid in volunteers then Volunteer
    else Victim
  }

  /** `/${role}/dashboard`. */
  function DashboardRoute(role: UserRole): (route: string)
    ensures |route| > 11 && route[0] == '/' && route[|route| - 10..] == "/dashboard"
    ensures route[1..|route| - 10] == RoleName(role)
  {
    "/" + RoleName(role) + "/dashboard"
  }

  /** Different roles are sent to different dashboards. */
  lemma DashboardRouteInjective(a: UserRole, b: UserRole)
    requires DashboardRoute(a) == DashboardRoute(b)
    ensures a == b
  {
    var ra := DashboardRoute(a);
    var rb := DashboardRoute(b);
    assert ra[1..|ra| - 10] == RoleName(a);
    assert rb[1..|rb| - 10] == RoleName(b);
    ParseRoleName(a);
    ParseRoleName(b);
  }

  /** The route for a signed-in user; a failed lookup falls back to the victim dashboard. */
  function SignedInRoute(role: Option<UserRole>): (route: string)
    ensures role.Some? ==> route == DashboardRoute(role.value)
    ensures role.None? ==> route == DashboardRoute(Victim)
  {
    if role.Some? then DashboardRoute(role.value) else "/victim/dashboard"
  }

  /** The profile written for a new anonymous account. */
  function AnonymousProfile(uid: string): (d: Doc)
    ensures d.Keys == {"id", "name", "email", "location", "phoneNumber", "role"}
    ensures d["id"] == Str(uid) && d["role"] == Str(RoleName(Victim))
  {
    map[
      "id" := Str(uid),
      "name" := Str("Anonymous User"),
      "email" := Str("anonymous@example.com"),
      "location" := Str(""),
      "phoneNumber" := Str(""),
      "role" := Str("victim")]
  }

  class AccessButton {
    const store: ReliefStore
    var isLoading: bool
    /** The last route pushed to the router, if any. */
    var route: Option<string>

    constructor(s: ReliefStore)
      ensures store == s && !isLoading && route.None?
    {
      store := s;
      isLoading := false;
      route := None;
    }

    /**
     * `handleAccessDashboard`. `lookupFails` stands for a rejected profile
     * lookup, `newUser` for what the anonymous sign-in reports.
     */
    method HandleAccessDashboard(user: Option<AuthUser>, lookupFails: bool, newUser: Option<AuthUser>)
      requires store.Valid()
      modifies this, store
      ensures store.Valid()
      ensures user.Some? ==>
        && isLoading && store.victims == old(store.victims)
        && route == Some(SignedInRoute(if lookupFails then None
                                       else Some(GetUserRole(old(store.admins), old(store.volunteers), user.value.uid))))
      ensures user.None? && newUser.Some? ==>
        && isLoading && route == Some(DashboardRoute(Victim))
        && store.victims == old(store.victims)[newUser.value.uid :=
             Merge(if newUser.value.uid in old(store.victims) then old(store.victims)[newUser.value.uid] else map[],
                   AnonymousProfile(newUser.value.uid))]
      ensures user.None? && newUser.None? ==> !isLoading && route == old(route) && store.victims == old(store.victims)
      ensures store.admins == old(store.admins) && store.volunteers == old(store.volunteers)
      ensures store.requests == old(store.requests) && store.alerts == old(store.alerts) && store.shelters == old(store.shelters)
    {
      isLoading := true;
      if user.Some? {
        var role := if lookupFails then None else Some(GetUserRole(store.admins, store.volunteers, user.value.uid));
        route := Some(SignedInRoute(role));
      } else if newUser.Some? {
        store.SetProfile(Victims, newUser.value.uid, AnonymousProfile(newUser.value.uid));
        assert store.Profiles(Admins) == old(store.Profiles(Admins));
        assert store.Profiles(Volunteers) == old(store.Profiles(Volunteers));
        route := Some(DashboardRoute(Victim));
      } else {
        isLoading := false;
      }
    }
  }

  /**
   * For a new anonymous account the route taken on first access is the
   * one a later access resolves: the written profile is a victim's and the
   * account has no admin or volunteer record.
   */
  lemma AnonymousRouteAgrees(admins: map<string, Doc>, volunteers: map<string, Doc>, uid: string)
    requires uid !in admins && uid !in volunteers
    ensures SignedInRoute(Some(GetUserRole(admins, volunteers, uid))) == DashboardRoute(Victim)
    ensures ParseRole(AnonymousProfile(uid)["role"].s) == Some(GetUserRole(admins, volunteers, uid))
  {
    ParseRoleName(Victim);
  }
}

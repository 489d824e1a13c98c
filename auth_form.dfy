/**
 * The sign-in and sign-up form. Login guesses the role from the email
 * address ("admin" anywhere wins over "volunteer", otherwise victim) and
 * sends the user to that dashboard. Signup writes a profile whose
 * collection and shape depend on the chosen role, then sends the user to
 * that role's dashboard. The email-format checks are not modelled.
 */
module AuthForm {
  import opened Wrappers
  import opened Types
  import opened Text
  import opened Store
  import opened AccessDashboardButton

  /** The login heuristic: `includes('admin')` first, then `includes('volunteer')`. */
  function LoginRole(email: string): (role: UserRole)
    ensures role == Admin <==> Contains(email, "admin")
    ensures role == Volunteer <==> !Contains(email, "admin") && Contains(email, "volunteer")
    ensures role == Victim <==> !Contains(email, "admin") && !Contains(email, "volunteer")
  {
    var role := Victim;
    if Contains(email, "admin") then Admin
    else if Contains(email, "volunteer") then Volunteer
    else role
  }

  /** The heuristic in terms of where the words occur in the address. */
  lemma LoginRoleOccurrences(email: string)
    ensures LoginRole(email) == Admin <==> exists i: nat :: OccursAt(email, "admin", i)
    ensures LoginRole(email) == Volunteer <==>
      (forall i: nat :: !OccursAt(email, "admin", i)) && exists i: nat :: OccursAt(email, "volunteer", i)
  {
    ContainsIff(email, "admin");
    ContainsIff(email, "volunteer");
  }

  /** An address naming both roles logs in as admin. */
  lemma AdminWinsOverVolunteer()
    ensures LoginRole("volunteer.admin@example.com") == Admin
  {
    var e := "volunteer.admin@example.com";
    assert OccursAt(e, "admin", 10);
    ContainsIff(e, "admin");
  }

  datatype LoginValues = LoginValues(email: string, password: string)

  /** `loginSchema` without the email-format check: the password must be non-empty. */
  function ValidateLogin(v: LoginValues): (ok: bool)
    ensures ok <==> |v.password| >= 1
  {
    |v.password| >= 1
  }

  datatype SignupValues = SignupValues(name: string, email: string, password: string, roleName: string)

  /** A signup that passed the schema, with the role read from its enum. */
  datatype Signup = Signup(name: string, email: string, password: string, role: UserRole)

  const SignupDefaults: SignupValues := SignupValues("", "", "", "victim")

  /** `signupSchema` without the email-format check. */
  function ValidateSignup(v: SignupValues): (r: Option<Signup>)
    ensures r.Some? <==> |v.name| >= 2 && |v.password| >= 8 && ParseRole(v.roleName).Some?
    ensures r.Some? ==> r.value.name == v.name && r.value.email == v.email && r.value.password == v.password
    ensures r.Some? ==> RoleName(r.value.role) == v.roleName
  {
    var role := ParseRole(v.roleName);
    if |v.name| >= 2 && |v.password| >= 8 && role.Some? then Some(Signup(v.name, v.email, v.password, role.value))
    else None
  }

  /** The defaults cannot be submitted: the name is too short. */
  lemma SignupDefaultsRejected()
    ensures ValidateSignup(SignupDefaults).None?
  {
  }

  /** The collection a role's profile is written to. */
  function ProfileCollectionOf(role: UserRole): (c: ProfileCollection)
    ensures c == Victims <==> role == Victim
    ensures c == Volunteers <==> role == Volunteer
    ensures c == Admins <==> role == Admin
  {
    match role
    case Victim => Victims
    case Volunteer => Volunteers
    case Admin => Admins
  }

  /** The profile a signup writes, by role. */
  function SignupProfile(s: Signup, user: AuthUser): (d: Doc)
    ensures "id" in d && "name" in d && "email" in d
    ensures d["id"] == Str(user.uid) && d["name"] == Str(s.name) && d["email"] == Str(s.email)
    ensures s.role == Victim ==>
      && d.Keys == {"id", "name", "email", "phoneNumber", "location"}
      && d["phoneNumber"] == Str(OrElse(user.phoneNumber, "")) && d["location"] == Str("")
    ensures s.role == Volunteer ==>
      && d.Keys == {"id", "name", "email", "phoneNumber", "availability"}
      && d["phoneNumber"] == Str(OrElse(user.phoneNumber, "")) && d["availability"] == Bool(true)
    ensures s.role == Admin ==> d.Keys == {"id", "name", "email"}
  {
    var base := map["id" := Str(user.uid), "name" := Str(s.name), "email" := Str(s.email)];
    match s.role
    case Victim => base["phoneNumber" := Str(OrElse(user.phoneNumber, ""))]["location" := Str("")]
    case Volunteer => base["phoneNumber" := Str(OrElse(user.phoneNumber, ""))]["availability" := Bool(true)]
    case Admin => base
  }

  class AuthPage {
    const store: ReliefStore
    var isLoading: bool
    /** The last route pushed to the router, if any. */
    var route: Option<string>

    constructor(s: ReliefStore)
      ensures store == s && !isLoading && route.None?
    {
      store := s;
      isLoading := false;
      route := None;
    }

    /**
     * `handleLogin`: once the account is signed in, the role is guessed
     * from the address. Loading is never cleared, since the page navigates
     * away; a failed sign-in leaves the route as it was.
     */
    method HandleLogin(v: LoginValues, user: Option<AuthUser>)
      modifies this
      ensures isLoading
      ensures user.Some? ==> route == Some(DashboardRoute(LoginRole(v.email)))
      ensures user.None? ==> route == old(route)
    {
      isLoading := true;
      if user.Some? {
        route := Some(DashboardRoute(LoginRole(v.email)));
      }
    }

    /**
     * `handleSignup`: once the account exists, its profile is merged into
     * the chosen role's collection and the user is sent to that role's
     * dashboard.
     */
    method HandleSignup(s: Signup, user: Option<AuthUser>)
      requires store.Valid()
      modifies this, store
      ensures store.Valid() && isLoading
      ensures user.None? ==>
        && route == old(route)
        && store.victims == old(store.victims) && store.volunteers == old(store.volunteers) && store.admins == old(store.admins)
      ensures user.Some? ==> route == Some(DashboardRoute(s.role))
      ensures user.Some? ==>
        var c := ProfileCollectionOf(s.role);
        var uid := user.value.uid;
        && store.Profiles(c) == old(store.Profiles(c))[uid :=
             Merge(if uid in old(store.Profiles(c)) then old(store.Profiles(c))[uid] else map[], SignupProfile(s, user.value))]
        && forall other :: other != c ==> store.Profiles(other) == old(store.Profiles(other))
      ensures store.requests == old(store.requests) && store.alerts == old(store.alerts) && store.shelters == old(store.shelters)
    {
      isLoading := true;
      if user.Some? {
        store.SetProfile(ProfileCollectionOf(s.role), user.value.uid, SignupProfile(s, user.value));
        route := Some(DashboardRoute(s.role));
      }
    }
  }

  /**
   * A new account that had no profile anywhere resolves, on its next visit
   * to the landing page, to the role it signed up with.
   */
  lemma SignupRoleResolves(s: Signup, user: AuthUser, admins: map<string, Doc>, volunteers: map<string, Doc>)
    requires user.uid !in admins && user.uid !in volunteers
    ensures var d := SignupProfile(s, user);
            var admins' := if s.role == Admin then admins[user.uid := Merge(map[], d)] else admins;
            var volunteers' := if s.role == Volunteer then volunteers[user.uid := Merge(map[], d)] else volunteers;
            GetUserRole(admins', volunteers', user.uid) == s.role
  {
  }

  /**
   * The login heuristic ignores the stored profile: an admin whose address
   * does not contain "admin" is sent to the victim dashboard.
   */
  lemma LoginIgnoresProfile()
    ensures var email := "ops@relief.org";
            && GetUserRole(map[email := map[]], map[], email) == Admin
            && LoginRole(email) == Victim
  {
    var e := "ops@relief.org";
    assert 'a' !in e && 'v' !in e;
    AbsentFirstChar(e, "admin");
    AbsentFirstChar(e, "volunteer");
  }

  /** A string cannot contain a word whose first character it lacks. */
  lemma AbsentFirstChar(s: string, word: string)
    requires word != [] && word[0] !in s
    ensures !Contains(s, word)
  {
    ContainsIff(s, word);
    forall i: nat | i + |word| <= |s|
      ensures !OccursAt(s, word, i)
    {
      assert s[i..i + |word|][0] == s[i];
    }
  }
}

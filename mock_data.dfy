/**
 * The seed data: six users, the volunteers among them, four requests and
 * one alert. Request and alert times are offsets from the current time
 * `now`, in milliseconds.
 */
module MockData {
  import opened Wrappers
  import opened Types

  function MockUser(id: string, name: string, email: string, role: UserRole): User {
    User(id, name, email, role, None, None, None)
  }

  const MockUsers: seq<User> := [
    MockUser("user1", "Admin User", "admin@relief.link", Admin),
    MockUser("user2", "Maria Garcia", "volunteer1@relief.link", Volunteer),
    MockUser("user3", "John Smith", "volunteer2@relief.link", Volunteer),
    MockUser("user4", "Victim One", "victim1@relief.link", Victim),
    MockUser("user5", "Victim Two", "victim2@relief.link", Victim),
    MockUser("user6", "Chen Wei", "volunteer3@relief.link", Volunteer)
  ]

  /** `users.filter(u => u.role === 'volunteer')`. */
  function VolunteersOf(users: seq<User>): seq<User> {
    if users == [] then []
    else
      (if users[0].role == Volunteer then [users[0]] else []) + VolunteersOf(users[1..])
  }

  /** The candidate volunteers of the assignment dialog. */
  function MockVolunteers(): seq<User> {
    VolunteersOf(MockUsers)
  }

  /** The filter keeps exactly the volunteers. */
  lemma {:induction false} VolunteersOfMembers(users: seq<User>)
    ensures forall u :: u in VolunteersOf(users) <==> u in users && u.role == Volunteer
    ensures |VolunteersOf(users)| <= |users|
  {
    if users != [] {
      VolunteersOfMembers(users[1..]);
      assert users == [users[0]] + users[1..];
    }
  }

  lemma VolunteersOfCons(u: User, rest: seq<User>)
    ensures VolunteersOf([u] + rest) == (if u.role == Volunteer then [u] else []) + VolunteersOf(rest)
  {
    assert ([u] + rest)[1..] == rest;
  }

  /** The filter keeps exactly user2, user3 and user6, in that order. */
  lemma MockVolunteersAreSeeded()
    ensures MockVolunteers() == [MockUsers[1], MockUsers[2], MockUsers[5]]
  {
    var u := MockUsers;
    VolunteersOfCons(u[5], []);
    VolunteersOfCons(u[4], [u[5]]);
    VolunteersOfCons(u[3], [u[4], u[5]]);
    VolunteersOfCons(u[2], [u[3], u[4], u[5]]);
    VolunteersOfCons(u[1], [u[2], u[3], u[4], u[5]]);
    VolunteersOfCons(u[0], [u[1], u[2], u[3], u[4], u[5]]);
    assert [u[0]] + [u[1], u[2], u[3], u[4], u[5]] == u;
  }

  const Hour: int := 60 * 60 * 1000

  /** The seed requests, created relative to `now`. They carry no victim id; the model leaves it empty. */
  function MockRequests(now: int): seq<AidRequest> {
    [
      AidRequest("req1", "", "Family in North Sector", "123 Main St, Cityville",
        [Food, Water], Pending, None, None, now - 2 * Hour),
      AidRequest("req2", "", "Elderly Couple", "456 Oak Ave, Townburg",
        [Medicine, MedicalHelp], Assigned, Some("user2"), Some("Maria Garcia"), now - 5 * Hour),
      AidRequest("req3", "", "Community Shelter", "789 Pine Ln, Villagetown",
        [Food, Water, Medicine], Delivered, Some("user3"), Some("John Smith"), now - 24 * Hour),
      AidRequest("req4", "", "Individual at Bridge", "101 Elm Ct, Hamlet",
        [Water], Pending, None, None, now - 30 * 60 * 1000)
    ]
  }

  function MockAlerts(now: int): seq<DisasterAlert> {
    [DisasterAlert("alert1", Flood,
      "Major flood warning for the Cityville area. Please seek higher ground immediately.",
      now - Hour)]
  }

  /** The seed request ids are distinct. */
  lemma SeedRequestIdsDistinct(now: int)
    ensures forall i, j :: 0 <= i < j < |MockRequests(now)| ==> MockRequests(now)[i].id != MockRequests(now)[j].id
  {
    var rs := MockRequests(now);
    assert rs[0].id != rs[1].id && rs[0].id != rs[2].id && rs[0].id != rs[3].id;
    assert rs[1].id != rs[2].id && rs[1].id != rs[3].id && rs[2].id != rs[3].id;
  }

  /** The assignment fields are present exactly on the seed requests that are assigned or delivered. */
  lemma SeedAssignmentFields(now: int)
    ensures forall r :: r in MockRequests(now) ==>
      (r.assignedVolunteerId.Some? <==> r.status != Pending) &&
      (r.assignedVolunteerName.Some? <==> r.status != Pending)
  {
  }

  /** Each seed assignment names a seeded volunteer by id, under that volunteer's name. */
  lemma SeedAssigneesAreVolunteers(now: int)
    ensures forall r :: r in MockRequests(now) && r.assignedVolunteerId.Some? ==>
      exists v :: v in MockVolunteers() && v.id == r.assignedVolunteerId.value && Some(v.name) == r.assignedVolunteerName
  {
    MockVolunteersAreSeeded();
    var rs := MockRequests(now);
    var vs := MockVolunteers();
    forall r | r in rs && r.assignedVolunteerId.Some?
      ensures exists v :: v in vs && v.id == r.assignedVolunteerId.value && Some(v.name) == r.assignedVolunteerName
    {
      if r == rs[1] {
        assert vs[0] in vs && vs[0].id == "user2";
      } else {
        assert r == rs[2];
        assert vs[1] in vs && vs[1].id == "user3";
      }
    }
  }

  /** The seed alert message is long enough for the broadcast form. */
  lemma SeedAlertMessageLength(now: int)
    ensures forall a :: a in MockAlerts(now) ==> |a.message| >= 10
  {
  }
}

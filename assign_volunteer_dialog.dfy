/**
 * The dialog in which an admin picks a volunteer for a request. Its state
 * is the selected volunteer id and the "assigning" flag; confirming looks
 * the id up among the seeded volunteers, reports the assignment to the
 * dashboard when the lookup succeeds, and closes and clears itself.
 */
module AssignVolunteerDialog {
  import opened Wrappers
  import opened Types
  import opened MockData

  /** `volunteers.find(v => v.id === id)`: the first volunteer with that id. */
  function FindVolunteer(vs: seq<User>, id: string): (found: Option<User>)
    ensures found.Some? ==>
      exists i :: 0 <= i < |vs| && vs[i] == found.value && found.value.id == id &&
        forall j :: 0 <= j < i ==> vs[j].id != id
    ensures found.None? ==> forall v :: v in vs ==> v.id != id
  {
    if vs == [] then None
    else if vs[0].id == id then Some(vs[0])
    else
      var rest := FindVolunteer(vs[1..], id);
      assert rest.Some? ==> exists i :: 0 <= i < |vs| && vs[i] == rest.value && forall j :: 0 <= j < i ==> vs[j].id != id by {
        if rest.Some? {
          var i :| 0 <= i < |vs[1..]| && vs[1..][i] == rest.value && forall j :: 0 <= j < i ==> vs[1..][j].id != id;
          assert vs[i + 1] == rest.value;
          forall j | 0 <= j < i + 1 ensures vs[j].id != id {
            if j > 0 {
              assert vs[j] == vs[1..][j - 1];
            }
          }
        }
      }
      assert forall v :: v in vs ==> v == vs[0] || v in vs[1..];
      rest
  }

  /** Only volunteers can be found among the seeded volunteers: an admin or victim id finds nobody. */
  lemma FoundIsVolunteer(id: string)
    ensures FindVolunteer(MockVolunteers(), id).Some? ==> FindVolunteer(MockVolunteers(), id).value.role == Volunteer
    ensures FindVolunteer(MockVolunteers(), id).Some? <==> id in {"user2", "user3", "user6"}
  {
    MockVolunteersAreSeeded();
    var vs := MockVolunteers();
    assert vs[0].id == "user2" && vs[1].id == "user3" && vs[2].id == "user6";
    if id in {"user2", "user3", "user6"} {
      if id == "user2" {
        assert vs[0] in vs;
      } else if id == "user3" {
        assert vs[1] in vs;
      } else {
        assert vs[2] in vs;
      }
    }
  }

  /** What `onAssign` receives. */
  datatype AssignCall = AssignCall(requestId: string, volunteerId: string, volunteerName: string)

  /** `!!selectedVolunteerId`: a selection is present and not the empty string. */
  predicate HasSelection(sel: Option<string>) {
    sel.Some? && sel.value != ""
  }

  class Dialog {
    var selectedVolunteerId: Option<string>
    var isAssigning: bool

    constructor()
      ensures selectedVolunteerId == None && !isAssigning
    {
      selectedVolunteerId := None;
      isAssigning := false;
    }

    /** Picking a volunteer in the select box. */
    method Select(id: string)
      modifies this
      ensures selectedVolunteerId == Some(id) && isAssigning == old(isAssigning)
    {
      selectedVolunteerId := Some(id);
    }

    /** The Assign button is disabled while nothing is selected or an assignment is running. */
    predicate AssignDisabled(): (disabled: bool)
      reads this
      ensures selectedVolunteerId.None? || isAssigning ==> disabled
      ensures !disabled ==> selectedVolunteerId.Some? && selectedVolunteerId.value != ""
    {
      !HasSelection(selectedVolunteerId) || isAssigning
    }

    /**
     * `handleAssign`. Without a request or a selection nothing happens.
     * Otherwise `onAssign` is called exactly when the selected id belongs
     * to a seeded volunteer, with that volunteer's name, and in every case
     * the dialog asks to be closed and its selection is cleared.
     */
    method HandleAssign(request: Option<AidRequest>) returns (call: Option<AssignCall>, close: bool)
      modifies this
      ensures request.None? || !HasSelection(old(selectedVolunteerId)) ==>
        call.None? && !close && selectedVolunteerId == old(selectedVolunteerId) && isAssigning == old(isAssigning)
      ensures request.Some? && HasSelection(old(selectedVolunteerId)) ==>
        var found := FindVolunteer(MockVolunteers(), old(selectedVolunteerId).value);
        && (call.Some? <==> found.Some?)
        && (call.Some? ==> call.value == AssignCall(request.value.id, old(selectedVolunteerId).value, found.value.name))
        && close && selectedVolunteerId == None && !isAssigning
    {
      if request.None? || !HasSelection(selectedVolunteerId) {
        return None, false;
      }
      isAssigning := true;
      var id := selectedVolunteerId.value;
      var volunteer := FindVolunteer(MockVolunteers(), id);
      call := None;
      if volunteer.Some? {
        call := Some(AssignCall(request.value.id, id, volunteer.value.name));
      }
      isAssigning := false;
      close := true;
      selectedVolunteerId := None;
    }
  }
}

/**
 * The admin dashboard's handlers over the store: assigning a volunteer to
 * a request, broadcasting an alert and updating a shelter's occupancy,
 * plus the dialog state the Assign buttons open. Assigning has no status
 * guard; the only thing that keeps it to pending requests is that the
 * table shows the button for pending rows only.
 */
module AdminDashboard {
  import opened Wrappers
  import opened Types
  import opened Store
  import opened MockData
  import opened AssignVolunteerDialog
  import opened BroadcastAlertForm
  import opened Inventory
  import opened VolunteerDashboard
  import opened ShelterManagementTable

  /** The request after the assignment update: status, volunteer id and name overwritten, nothing else. */
  function AssignTo(r: AidRequest, volunteerId: string, volunteerName: string): (a: AidRequest)
    ensures a.status == Assigned
    ensures a.assignedVolunteerId == Some(volunteerId) && a.assignedVolunteerName == Some(volunteerName)
    ensures a.(status := r.status, assignedVolunteerId := r.assignedVolunteerId,
               assignedVolunteerName := r.assignedVolunteerName) == r
  {
    r.(status := Assigned, assignedVolunteerId := Some(volunteerId), assignedVolunteerName := Some(volunteerName))
  }

  /**
   * With no guard, assigning a delivered request puts it back among the
   * outstanding ones: its items count towards demand again.
   */
  lemma AssignDeliveredRaisesDemand(a: seq<AidRequest>, r: AidRequest, b: seq<AidRequest>,
                                    volunteerId: string, volunteerName: string, k: AidRequestItem)
    requires r.status == Delivered
    ensures Demand(a + [AssignTo(r, volunteerId, volunteerName)] + b, k)
         == Demand(a + [r] + b, k) + multiset(Tracked(r.items))[k]
  {
    var r' := AssignTo(r, volunteerId, volunteerName);
    DemandIgnoresDelivered(a, r, b, k);
    OutstandingAppend(a + [r'], b);
    OutstandingAppend(a, [r']);
    OutstandingAppend(a, b);
    assert Outstanding([r']) == [r'];
    assert Outstanding(a + [r'] + b) == Outstanding(a) + [r'] + Outstanding(b);
    TrackedItemsAppend(Outstanding(a) + [r'], Outstanding(b));
    TrackedItemsAppend(Outstanding(a), [r']);
    TrackedItemsAppend(Outstanding(a), Outstanding(b));
    assert TrackedItems([r']) == Tracked(r.items);
  }

  /** After the assignment the request is in the chosen volunteer's task list. */
  lemma AssignedIsTask(a: seq<AidRequest>, r: AidRequest, b: seq<AidRequest>, volunteerId: string, volunteerName: string)
    ensures AssignTo(r, volunteerId, volunteerName) in Tasks(a + [AssignTo(r, volunteerId, volunteerName)] + b, volunteerId)
  {
    TasksMembers(a + [AssignTo(r, volunteerId, volunteerName)] + b, volunteerId);
  }

  class Dashboard {
    const store: ReliefStore
    const dialog: Dialog
    var selectedRequest: Option<AidRequest>
    var isDialogOpen: bool

    constructor(s: ReliefStore)
      ensures store == s && fresh(dialog)
      ensures selectedRequest.None? && !isDialogOpen
      ensures dialog.selectedVolunteerId.None? && !dialog.isAssigning
    {
      store := s;
      dialog := new Dialog();
      selectedRequest := None;
      isDialogOpen := false;
    }

    /** `handleAssignClick`: remembers the row's request and opens the dialog. */
    method HandleAssignClick(r: AidRequest)
      modifies this
      ensures selectedRequest == Some(r) && isDialogOpen
    {
      selectedRequest := Some(r);
      isDialogOpen := true;
    }

    /**
     * `handleAssignVolunteer`: once the requests have loaded, overwrites the
     * stored request's status and assignment, whatever its status was. A
     * missing request is not updated.
     */
    method HandleAssignVolunteer(requestsLoaded: bool, requestId: string, volunteerId: string, volunteerName: string)
      requires store.Valid()
      modifies store
      ensures store.Valid()
      ensures requestsLoaded && requestId in old(store.requests) ==>
        store.requests == old(store.requests)[requestId := AssignTo(old(store.requests)[requestId], volunteerId, volunteerName)]
      ensures !requestsLoaded || requestId !in old(store.requests) ==> store.requests == old(store.requests)
      ensures store.alerts == old(store.alerts) && store.shelters == old(store.shelters)
      ensures store.victims == old(store.victims) && store.volunteers == old(store.volunteers) && store.admins == old(store.admins)
    {
      if !requestsLoaded {
        return;
      }
      store.UpdateRequest(requestId, r => AssignTo(r, volunteerId, volunteerName));
    }

    /** `handleNewAlert`: appends the sent alert, stamped with the current time, under a new id. */
    method HandleNewAlert(draft: AlertDraft, now: int, newId: string)
      requires store.Valid()
      requires newId !in store.alerts
      modifies store
      ensures store.Valid()
      ensures store.alerts == old(store.alerts)[newId := DisasterAlert(newId, draft.alertType, draft.message, now)]
      ensures store.requests == old(store.requests) && store.shelters == old(store.shelters)
      ensures store.victims == old(store.victims) && store.volunteers == old(store.volunteers) && store.admins == old(store.admins)
    {
      store.AddAlert(newId, DisasterAlert(newId, draft.alertType, draft.message, now));
    }

    /** `handleUpdateOccupancy`: once the shelters have loaded, writes the new occupancy, with no bounds check. */
    method HandleUpdateOccupancy(sheltersLoaded: bool, shelterId: string, newOccupancy: int)
      requires store.Valid()
      modifies store
      ensures store.Valid()
      ensures sheltersLoaded && shelterId in old(store.shelters) ==>
        store.shelters == old(store.shelters)[shelterId := old(store.shelters)[shelterId].(currentOccupancy := newOccupancy)]
      ensures !sheltersLoaded || shelterId !in old(store.shelters) ==> store.shelters == old(store.shelters)
      ensures store.requests == old(store.requests) && store.alerts == old(store.alerts)
      ensures store.victims == old(store.victims) && store.volunteers == old(store.volunteers) && store.admins == old(store.admins)
    {
      if !sheltersLoaded {
        return;
      }
      store.UpdateShelterOccupancy(shelterId, newOccupancy);
    }

    /**
     * A shelter dialog's Save button wired to `handleUpdateOccupancy`: a
     * value the dialog accepts is written to the dialog's shelter, a
     * refused one writes nothing.
     */
    method SaveOccupancy(d: OccupancyDialog, sheltersLoaded: bool)
      requires store.Valid()
      modifies d, store
      ensures store.Valid()
      ensures
        var id := d.shelter.id;
        var n := old(d.newOccupancy);
        var written := Accepts(d.shelter.capacity, n) && sheltersLoaded && id in old(store.shelters);
        && (written ==> store.shelters == old(store.shelters)[id := old(store.shelters)[id].(currentOccupancy := n)])
        && (!written ==> store.shelters == old(store.shelters))
      ensures store.requests == old(store.requests) && store.alerts == old(store.alerts)
      ensures store.victims == old(store.victims) && store.volunteers == old(store.volunteers) && store.admins == old(store.admins)
      ensures d.newOccupancy == old(d.newOccupancy)
      ensures Accepts(d.shelter.capacity, old(d.newOccupancy)) ==> !d.isOpen
      ensures !Accepts(d.shelter.capacity, old(d.newOccupancy)) ==> d.isOpen == old(d.isOpen)
    {
      var update := d.HandleUpdate();
      if update.Some? {
        HandleUpdateOccupancy(sheltersLoaded, update.value.shelterId, update.value.newOccupancy);
      }
    }

    /**
     * The dialog's Assign button: the dialog looks up the selected
     * volunteer, its callback runs the assignment on the selected request's
     * id, and the dialog's close request closes it.
     */
    method ConfirmAssignment(requestsLoaded: bool)
      requires store.Valid()
      modifies this, dialog, store
      ensures store.Valid()
      ensures selectedRequest == old(selectedRequest)
      ensures
        var sel := old(dialog.selectedVolunteerId);
        var go := old(selectedRequest).Some? && HasSelection(sel);
        var found := if go then FindVolunteer(MockVolunteers(), sel.value) else None;
        && (go && found.Some? && requestsLoaded && old(selectedRequest).value.id in old(store.requests) ==>
              store.requests == old(store.requests)[old(selectedRequest).value.id :=
                AssignTo(old(store.requests)[old(selectedRequest).value.id], sel.value, found.value.name)])
        && (!(go && found.Some? && requestsLoaded && old(selectedRequest).value.id in old(store.requests)) ==>
              store.requests == old(store.requests))
        && (isDialogOpen == (old(isDialogOpen) && !go))
      ensures store.alerts == old(store.alerts) && store.shelters == old(store.shelters)
      ensures store.victims == old(store.victims) && store.volunteers == old(store.volunteers) && store.admins == old(store.admins)
      ensures old(selectedRequest).Some? && HasSelection(old(dialog.selectedVolunteerId)) ==>
        dialog.selectedVolunteerId.None? && !dialog.isAssigning
      ensures !(old(selectedRequest).Some? && HasSelection(old(dialog.selectedVolunteerId))) ==>
        dialog.selectedVolunteerId == old(dialog.selectedVolunteerId) && dialog.isAssigning == old(dialog.isAssigning)
    {
      var call, close := dialog.HandleAssign(selectedRequest);
      if call.Some? {
        HandleAssignVolunteer(requestsLoaded, call.value.requestId, call.value.volunteerId, call.value.volunteerName);
      }
      if close {
        isDialogOpen := false;
      }
    }
  }
}

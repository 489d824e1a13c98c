/**
 * The victim's dashboard: the request list it reads and the handler that
 * turns submitted request data into a new pending request in the store.
 * The form on this page calls the handler with no argument, and the
 * handler then writes a document with no items, no location and no
 * victim id (`SubmitAsWritten`); `CreateFromForm` is the corrected
 * wiring, in which the validated form values reach the handler.
 */
module VictimDashboard {
  import opened Wrappers
  import opened Types
  import opened Text
  import opened Store
  import opened AidRequestForm
  import opened RequestsTable

  /** What the handler receives: a request without id, creation time, status and victim name. */
  datatype NewRequestData = NewRequestData(
    victimId: string,
    location: string,
    items: seq<AidRequestItem>,
    assignedVolunteerId: Option<string>,
    assignedVolunteerName: Option<string>)

  /**
   * The record the handler builds: the data's fields, the user's display
   * name or "Anonymous", status pending and the current time. The id is
   * the one the store assigns.
   */
  function NewRequest(user: AuthUser, data: NewRequestData, now: int): (r: AidRequest)
    ensures r.status == Pending
    ensures r.victimName == OrElse(user.displayName, "Anonymous")
    ensures r.createdAt == now
    ensures r.victimId == data.victimId && r.location == data.location && r.items == data.items
    ensures r.assignedVolunteerId == data.assignedVolunteerId && r.assignedVolunteerName == data.assignedVolunteerName
  {
    AidRequest("", data.victimId, OrElse(user.displayName, "Anonymous"), data.location, data.items,
      Pending, data.assignedVolunteerId, data.assignedVolunteerName, now)
  }

  /** Whatever the data, the new request is pending, so the admin table offers Assign for it. */
  lemma NewRequestIsAssignable(user: AuthUser, data: NewRequestData, now: int)
    ensures RequestRow(NewRequest(user, data, now)).assign == Some(NewRequest(user, data, now))
  {
  }

  /**
   * `handleNewRequest`: with no signed-in user nothing is written; otherwise
   * the built request is added to the requests collection under a new id.
   */
  method HandleNewRequest(store: ReliefStore, user: Option<AuthUser>, data: NewRequestData, now: int, newId: string)
    requires store.Valid()
    requires newId !in store.requests
    modifies store
    ensures store.Valid()
    ensures user.None? ==> store.requests == old(store.requests)
    ensures user.Some? ==> store.requests == old(store.requests)[newId := NewRequest(user.value, data, now).(id := newId)]
    ensures store.alerts == old(store.alerts) && store.shelters == old(store.shelters)
    ensures store.victims == old(store.victims) && store.volunteers == old(store.volunteers) && store.admins == old(store.admins)
  {
    if user.None? {
      return;
    }
    store.AddRequest(newId, NewRequest(user.value, data, now));
  }

  /** The fields the spread of the handler's argument contributes; an absent assignment contributes none. */
  function DataFields(data: NewRequestData): (d: Doc)
    ensures "victimId" in d && "location" in d && "items" in d
    ensures d.Keys <= {"victimId", "location", "items", "assignedVolunteerId", "assignedVolunteerName"}
  {
    var base := map["victimId" := Str(data.victimId), "location" := Str(data.location), "items" := List(ItemIds(data.items))];
    var withId := if data.assignedVolunteerId.Some? then base["assignedVolunteerId" := Str(data.assignedVolunteerId.value)] else base;
    if data.assignedVolunteerName.Some? then withId["assignedVolunteerName" := Str(data.assignedVolunteerName.value)] else withId
  }

  /**
   * The document `handleNewRequest` hands to the store: the spread of its
   * argument, then the victim name, the status and the creation time.
   * Spreading a missing argument contributes no field at all.
   */
  function RequestDocument(user: AuthUser, data: Option<NewRequestData>, now: int): (d: Doc)
    ensures data.None? ==> d.Keys == {"victimName", "status", "createdAt"}
    ensures data.Some? ==> {"victimId", "location", "items", "victimName", "status", "createdAt"} <= d.Keys
    ensures "victimName" in d && "status" in d && "createdAt" in d
    ensures d["status"] == Str("pending") && d["createdAt"] == Num(now)
  {
    var spread := if data.Some? then DataFields(data.value) else map[];
    spread["victimName" := Str(OrElse(user.displayName, "Anonymous"))]["status" := Str("pending")]["createdAt" := Num(now)]
  }

  /**
   * With an argument, the document carries the same victim, location,
   * name and time as the request record, and its item list reads back as
   * the request's items.
   */
  lemma DocumentOfRequest(user: AuthUser, data: NewRequestData, now: int)
    ensures var d := RequestDocument(user, Some(data), now);
            var r := NewRequest(user, data, now);
            && d["victimId"] == Str(r.victimId) && d["location"] == Str(r.location)
            && d["victimName"] == Str(r.victimName) && d["createdAt"] == Num(r.createdAt)
            && d["items"].List? && ParseItems(d["items"].items) == r.items
  {
    ParseItemsIds(data.items);
  }

  /** The requests collection, seen as raw documents, after one submission as the page wires the form. */
  function StoredAsWritten(docs: map<string, Doc>, user: Option<AuthUser>, v: FormValues, now: int, newId: string): map<string, Doc> {
    if user.Some? && Validate(v) then docs[newId := RequestDocument(user.value, None, now)] else docs
  }

  /**
   * The form as this page wires it: a valid submission resets the form and
   * calls `handleNewRequest` with no argument, which for a signed-in user
   * writes the argument-less document. `docs` is the requests collection
   * seen as raw documents.
   */
  method SubmitAsWritten(form: Form, user: Option<AuthUser>, now: int, newId: string, docs: map<string, Doc>)
    returns (written: map<string, Doc>)
    modifies form
    ensures written == StoredAsWritten(docs, user, old(form.values), now, newId)
    ensures Validate(old(form.values)) ==> form.values == FormValues([], old(form.values).location) && !form.isSubmitting
    ensures !Validate(old(form.values)) ==> form.values == old(form.values) && form.isSubmitting == old(form.isSubmitting)
    ensures form.isFetchingLocation == old(form.isFetchingLocation)
  {
    var called := form.Submit();
    written := docs;
    if called && user.Some? {
      written := docs[newId := RequestDocument(user.value, None, now)];
    }
  }

  /**
   * As written, any two valid submissions leave the same requests
   * collection, whatever their items and locations, and the document
   * written has no items, no location and no victim id.
   */
  lemma ChoicesLostAsWritten(docs: map<string, Doc>, user: AuthUser, v1: FormValues, v2: FormValues, now: int, newId: string)
    requires Validate(v1) && Validate(v2)
    ensures StoredAsWritten(docs, Some(user), v1, now, newId) == StoredAsWritten(docs, Some(user), v2, now, newId)
    ensures var d := StoredAsWritten(docs, Some(user), v1, now, newId)[newId];
            "items" !in d && "location" !in d && "victimId" !in d && d["status"] == Str("pending")
  {
  }

  /** The item kind named by a checkbox id, if any. */
  function ParseItem(s: string): (item: Option<AidRequestItem>)
    ensures item.Some? ==> ItemId(item.value) == s
  {
    if s == "food" then Some(Food)
    else if s == "water" then Some(Water)
    else if s == "medicine" then Some(Medicine)
    else if s == "medical help" then Some(MedicalHelp)
    else if s == "boat transport" then Some(BoatTransport)
    else if s == "life jackets" then Some(LifeJackets)
    else if s == "blankets" then Some(Blankets)
    else if s == "tents" then Some(Tents)
    else None
  }

  lemma {:induction false} ParseItemId(item: AidRequestItem)
    ensures ParseItem(ItemId(item)) == Some(item)
  {
    match item
    case Food =>
    case Water =>
      assert ItemId(item) != "food";
    case Medicine =>
      assert ItemId(item) != "food" && ItemId(item) != "water";
    case MedicalHelp =>
      assert ItemId(item) != "food" && ItemId(item) != "water" && ItemId(item) != "medicine";
    case BoatTransport =>
      assert ItemId(item) != "food" && ItemId(item) != "water" && ItemId(item) != "medicine";
      assert ItemId(item) != "medical help";
    case LifeJackets =>
      assert ItemId(item) != "food" && ItemId(item) != "water" && ItemId(item) != "medicine";
      assert ItemId(item) != "medical help" && ItemId(item) != "boat transport";
    case Blankets =>
      assert ItemId(item) != "food" && ItemId(item) != "water" && ItemId(item) != "medicine";
      assert ItemId(item) != "medical help" && ItemId(item) != "boat transport" && ItemId(item) != "life jackets";
    case Tents =>
      assert ItemId(item) != "food" && ItemId(item) != "water" && ItemId(item) != "medicine";
      assert ItemId(item) != "medical help" && ItemId(item) != "boat transport" && ItemId(item) != "life jackets";
      assert ItemId(item) != "blankets";
  }

  /** The checked ids that name an item kind, as kinds, in order. */
  function ParseItems(ids: seq<string>): seq<AidRequestItem> {
    if ids == [] then []
    else (match ParseItem(ids[0]) case Some(k) => [k] case None => []) + ParseItems(ids[1..])
  }

  /** Ids produced by the checkboxes come back unchanged: parsing inverts `ItemId`. */
  lemma {:induction false} ParseItemsIds(items: seq<AidRequestItem>)
    ensures ParseItems(ItemIds(items)) == items
  {
    if items != [] {
      ParseItemsIds(items[1..]);
      ParseItemId(items[0]);
      assert ItemIds(items)[1..] == ItemIds(items[1..]);
    }
  }

  /** The data the corrected form hands over: the signed-in victim, the location and the chosen kinds, unassigned. */
  function DataFromForm(user: AuthUser, v: FormValues): (data: NewRequestData)
    ensures data.victimId == user.uid && data.location == v.location
    ensures data.assignedVolunteerId.None? && data.assignedVolunteerName.None?
  {
    NewRequestData(user.uid, v.location, ParseItems(v.items), None, None)
  }

  /**
   * The corrected wiring: a valid submission becomes a pending request that
   * carries exactly the chosen items and the form's location.
   */
  lemma CorrectedRequestCarriesChoices(user: AuthUser, chosen: seq<AidRequestItem>, location: string, now: int)
    requires chosen != [] && location != ""
    ensures var v := FormValues(ItemIds(chosen), location);
            && SubmitPayload(v) == Some(v)
            && NewRequest(user, DataFromForm(user, v), now).items == chosen
            && NewRequest(user, DataFromForm(user, v), now).location == location
            && NewRequest(user, DataFromForm(user, v), now).status == Pending
  {
    var v := FormValues(ItemIds(chosen), location);
    ParseItemsIds(chosen);
    assert v.items[0] != "";
  }

  /** The corrected handler call for a form submission: nothing is written for invalid values or without a user. */
  method CreateFromForm(store: ReliefStore, user: Option<AuthUser>, v: FormValues, now: int, newId: string)
    requires store.Valid()
    requires newId !in store.requests
    modifies store
    ensures store.Valid()
    ensures user.Some? && Validate(v) ==>
      store.requests == old(store.requests)[newId := NewRequest(user.value, DataFromForm(user.value, v), now).(id := newId)]
    ensures user.None? || !Validate(v) ==> store.requests == old(store.requests)
    ensures store.alerts == old(store.alerts) && store.shelters == old(store.shelters)
    ensures store.victims == old(store.victims) && store.volunteers == old(store.volunteers) && store.admins == old(store.admins)
  {
    var sent := SubmitPayload(v);
    if sent.Some? && user.Some? {
      HandleNewRequest(store, user, DataFromForm(user.value, sent.value), now, newId);
    }
  }

  /**
   * The page's request query: the whole requests collection once a user is
   * signed in (it is not narrowed to the victim), nothing before.
   */
  function MyRequests(user: Option<AuthUser>, requests: seq<AidRequest>): (shown: seq<AidRequest>)
    ensures user.None? ==> shown == []
    ensures user.Some? ==> shown == requests
  {
    if user.Some? then requests else []
  }
}

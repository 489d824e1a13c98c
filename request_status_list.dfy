/**
 * The victim's "My Requests" list: the empty state for an empty list,
 * otherwise one entry per request in input order with the joined item
 * summary, the "volunteer on the way" line for assigned requests that name
 * a volunteer, the QR code for requests not yet delivered, and the status
 * badge. The component takes no loading flag of its own.
 */
module RequestStatusList {
  import opened Wrappers
  import opened Types
  import opened Text
  import opened RequestsTable

  /** One entry; `onTheWay` is the volunteer name of the "is on the way" line, `qrFor` the id the QR code encodes. */
  datatype Entry = Entry(
    summary: string,
    onTheWay: Option<string>,
    qrFor: Option<string>,
    badge: RequestStatus)

  datatype StatusView = NoActiveRequests | Entries(entries: seq<Entry>)

  /** `request.items.join(', ')`. */
  function ItemSummary(items: seq<AidRequestItem>): string {
    Join(ItemIds(items), ", ")
  }

  /** The on-the-way line: `status === 'assigned' && assignedVolunteerName`. */
  function OnTheWay(r: AidRequest): (name: Option<string>)
    ensures name.Some? <==> r.status == Assigned && r.assignedVolunteerName.Some? && r.assignedVolunteerName.value != ""
    ensures name.Some? ==> name == r.assignedVolunteerName
  {
    if r.status == Assigned && r.assignedVolunteerName.Some? && r.assignedVolunteerName.value != "" then
      r.assignedVolunteerName
    else None
  }

  function RequestEntry(r: AidRequest): (e: Entry)
    ensures e.qrFor.Some? <==> r.status != Delivered
    ensures e.qrFor.Some? ==> e.qrFor.value == r.id
    ensures e.onTheWay == OnTheWay(r) && e.badge == r.status
    ensures e.summary == ItemSummary(r.items)
  {
    Entry(ItemSummary(r.items), OnTheWay(r), if r.status != Delivered then Some(r.id) else None, r.status)
  }

  function StatusListView(rs: seq<AidRequest>): (v: StatusView)
    ensures v == NoActiveRequests <==> rs == []
    ensures v.Entries? ==> |v.entries| == |rs| && forall i :: 0 <= i < |rs| ==> v.entries[i] == RequestEntry(rs[i])
  {
    if rs == [] then NoActiveRequests
    else Entries(seq(|rs|, i requires 0 <= i < |rs| => RequestEntry(rs[i])))
  }

  lemma {:induction false} SumLengthsPositive(parts: seq<string>)
    requires forall i :: 0 <= i < |parts| ==> parts[i] != ""
    ensures SumLengths(parts) >= |parts|
  {
    if parts != [] {
      SumLengthsPositive(parts[1..]);
    }
  }

  /**
   * The summary is empty exactly for a request without items, and it is at
   * least as long as the item names and the ", " separators between them.
   */
  lemma ItemSummaryLength(items: seq<AidRequestItem>)
    ensures ItemSummary(items) == "" <==> items == []
    ensures |ItemSummary(items)| >= if items == [] then 0 else 3 * |items| - 2
  {
    var ids := ItemIds(items);
    JoinLength(ids, ", ");
    SumLengthsPositive(ids);
  }
}

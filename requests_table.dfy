/**
 * The admin's table of all requests: one row per request, in input order,
 * showing the victim, the location, the requested items, the status, who
 * the request is assigned to and, for pending requests only, an Assign
 * button that hands the row's request to the dashboard.
 */
module RequestsTable {
  import opened Wrappers
  import opened Types
  import opened Text

  /** The "Assigned To" cell: `assignedVolunteerName || 'N/A'`. */
  function AssignedToCell(r: AidRequest): (cell: string)
    ensures r.assignedVolunteerName.Some? && r.assignedVolunteerName.value != "" ==> cell == r.assignedVolunteerName.value
    ensures r.assignedVolunteerName.None? || r.assignedVolunteerName.value == "" ==> cell == "N/A"
  {
    OrElse(r.assignedVolunteerName, "N/A")
  }

  /** The item ids in request order. */
  function ItemIds(items: seq<AidRequestItem>): (ids: seq<string>)
    ensures |ids| == |items|
    ensures forall i :: 0 <= i < |items| ==> ids[i] == ItemId(items[i])
  {
    seq(|items|, i requires 0 <= i < |items| => ItemId(items[i]))
  }

  /** One table row; `assign` is the request the Assign button passes on, when there is a button. */
  datatype Row = Row(
    victim: string,
    location: string,
    requested: string,
    status: RequestStatus,
    assignedTo: string,
    assign: Option<AidRequest>)

  function RequestRow(r: AidRequest): (row: Row)
    ensures row.assign.Some? <==> r.status == Pending
    ensures row.assign.Some? ==> row.assign.value == r
    ensures row.assignedTo == AssignedToCell(r)
    ensures row.victim == r.victimName && row.location == r.location && row.status == r.status
    ensures row.requested == Join(ItemIds(r.items), ", ")
  {
    Row(r.victimName, r.location, Join(ItemIds(r.items), ", "), r.status,
      AssignedToCell(r), if r.status == Pending then Some(r) else None)
  }

  /** The table body: `requests.map(...)`. */
  function RequestRows(rs: seq<AidRequest>): (rows: seq<Row>)
    ensures |rows| == |rs|
    ensures forall i :: 0 <= i < |rs| ==> rows[i] == RequestRow(rs[i])
  {
    seq(|rs|, i requires 0 <= i < |rs| => RequestRow(rs[i]))
  }

  /** Every Assign button the table shows belongs to a pending request of the list. */
  lemma AssignOfferedOnlyForPending(rs: seq<AidRequest>)
    ensures forall row :: row in RequestRows(rs) && row.assign.Some? ==>
      row.assign.value in rs && row.assign.value.status == Pending
  {
    var rows := RequestRows(rs);
    forall row | row in rows && row.assign.Some?
      ensures row.assign.value in rs && row.assign.value.status == Pending
    {
      var i :| 0 <= i < |rows| && rows[i] == row;
      assert row == RequestRow(rs[i]);
    }
  }
}

/**
 * The volunteer's task page: the query for the requests assigned to the
 * signed-in volunteer that are assigned or delivered, and what the page
 * shows while loading, with tasks, and with none.
 */
module VolunteerDashboard {
  import opened Wrappers
  import opened Types

  /** The query's two `where` clauses. */
  predicate IsTaskOf(r: AidRequest, uid: string) {
    r.assignedVolunteerId == Some(uid) && (r.status == Assigned || r.status == Delivered)
  }

  /** The query is built only for a signed-in user; it filters on that user's id. */
  function TasksQuery(user: Option<AuthUser>): (uid: Option<string>)
    ensures uid.Some? <==> user.Some?
    ensures uid.Some? ==> uid.value == user.value.uid
  {
    if user.Some? then Some(user.value.uid) else None
  }

  /** The query's result over the requests collection, in collection order. */
  function Tasks(rs: seq<AidRequest>, uid: string): (tasks: seq<AidRequest>)
    ensures |tasks| <= |rs|
    ensures forall i :: 0 <= i < |tasks| ==> IsTaskOf(tasks[i], uid) && tasks[i].status != Pending
  {
    if rs == [] then []
    else (if IsTaskOf(rs[0], uid) then [rs[0]] else []) + Tasks(rs[1..], uid)
  }

  /** A volunteer's task list is exactly the requests assigned to `uid` that are assigned or delivered. */
  lemma {:induction false} TasksMembers(rs: seq<AidRequest>, uid: string)
    ensures forall r :: r in Tasks(rs, uid) <==> r in rs && IsTaskOf(r, uid)
    ensures |Tasks(rs, uid)| <= |rs|
  {
    if rs != [] {
      TasksMembers(rs[1..], uid);
      assert rs == [rs[0]] + rs[1..];
    }
  }

  /** A pending request is in nobody's task list, whoever it names as volunteer. */
  lemma PendingNeverATask(rs: seq<AidRequest>, uid: string)
    ensures forall r :: r in Tasks(rs, uid) ==> r.status != Pending
  {
    TasksMembers(rs, uid);
  }

  /** Task lists of different volunteers never share a request. */
  lemma TasksDisjoint(rs: seq<AidRequest>, a: string, b: string)
    requires a != b
    ensures forall r :: r in Tasks(rs, a) ==> r !in Tasks(rs, b)
  {
    TasksMembers(rs, a);
    TasksMembers(rs, b);
  }

  datatype TaskView = Skeletons | TaskGrid(tasks: seq<AidRequest>) | EmptyState

  /** The page body for the query state: skeletons while loading, else the cards or the empty state. */
  function View(isLoading: bool, tasks: Option<seq<AidRequest>>): (v: TaskView)
    ensures v == Skeletons <==> isLoading
    ensures v == EmptyState <==> !isLoading && (tasks.None? || tasks.value == [])
    ensures v.TaskGrid? ==> tasks.Some? && v.tasks == tasks.value && v.tasks != []
  {
    if isLoading then Skeletons
    else if tasks.Some? && |tasks.value| > 0 then TaskGrid(tasks.value)
    else EmptyState
  }
}

/** routes/staff.js: a staff member's dashboard, the detail of one complaint, and
    the response that resolves an assignment. */
module StaffRoutes {
  import opened Common
  import opened Sorting
  import opened Store

  /** `SELECT * FROM assignments WHERE complaint_id = $1 AND user_id = $2` is non-empty. */
  predicate IsAssignedTo(assignments: seq<Assignment>, complaintId: int, userId: int) {
    exists a :: a in assignments && a.complaintId == complaintId && a.userId == userId
  }

  /** `SELECT * FROM responses WHERE complaint_id = $1 AND user_id = $2` is non-empty. */
  predicate HasResponded(responses: seq<Response>, complaintId: int, userId: int) {
    exists r :: r in responses && r.complaintId == complaintId && r.userId == userId
  }

  /** `UPDATE assignments SET status = 'resolved' WHERE complaint_id = $1 AND user_id = $2`:
      every matching row is resolved, only the status column changes, and no
      other row changes. */
  function ResolveAssignments(assignments: seq<Assignment>, complaintId: int, userId: int)
    : (r: seq<Assignment>)
    ensures |r| == |assignments|
    ensures forall i :: 0 <= i < |r| ==> r[i].(status := assignments[i].status) == assignments[i]
    ensures forall i :: 0 <= i < |r| ==>
      if assignments[i].complaintId == complaintId && assignments[i].userId == userId
      then r[i].status == "resolved" else r[i] == assignments[i]
  {
    seq(|assignments|, i requires 0 <= i < |assignments| =>
      if assignments[i].complaintId == complaintId && assignments[i].userId == userId
      then assignments[i].(status := "resolved") else assignments[i])
  }

  datatype RespondOutcome =
    | NotAssigned(message: string)       // 403
    | AlreadyResponded(message: string)  // 400
    | Responded                          // redirect to /dashboard
    | Crashed                            // a statement was refused; nothing catches it

  /** POST /respond by the logged-in staff member `userId`. `insertFails` and
      `updateFails` stand for the database refusing the INSERT or the UPDATE;
      the two statements are not in a transaction. */
  method Respond(db: Db, complaintId: int, userId: int, responseText: string, now: int,
                 insertFails: bool, updateFails: bool)
    returns (outcome: RespondOutcome)
    requires db.Valid()
    modifies db`responses, db`nextResponseId, db`assignments
    ensures db.Valid()
    ensures outcome.NotAssigned? <==> !IsAssignedTo(old(db.assignments), complaintId, userId)
    ensures outcome.NotAssigned? ==> outcome.message == "You are not assigned to this complaint."
    ensures outcome.AlreadyResponded? <==>
      IsAssignedTo(old(db.assignments), complaintId, userId)
      && HasResponded(old(db.responses), complaintId, userId)
    ensures outcome.AlreadyResponded? ==>
      outcome.message == "You have already submitted a response for this complaint."
    ensures outcome == Responded <==>
      IsAssignedTo(old(db.assignments), complaintId, userId)
      && !HasResponded(old(db.responses), complaintId, userId)
      && !insertFails && !updateFails
    ensures outcome.NotAssigned? || outcome.AlreadyResponded? || (outcome == Crashed && insertFails) ==>
      db.responses == old(db.responses) && db.nextResponseId == old(db.nextResponseId)
      && db.assignments == old(db.assignments)
    ensures outcome == Responded || (outcome == Crashed && !insertFails) ==>
      db.responses == old(db.responses)
                      + [Response(old(db.nextResponseId), complaintId, userId, responseText, now)]
      && db.nextResponseId == old(db.nextResponseId) + 1
    ensures outcome == Responded ==>
      db.assignments == ResolveAssignments(old(db.assignments), complaintId, userId)
    ensures outcome == Crashed && !insertFails ==> db.assignments == old(db.assignments)
    ensures outcome == Responded ==> HasResponded(db.responses, complaintId, userId)
  {
    if !Exists(db.assignments, (a: Assignment) => a.complaintId == complaintId && a.userId == userId) {
      return NotAssigned("You are not assigned to this complaint.");
    }
    if Exists(db.responses, (r: Response) => r.complaintId == complaintId && r.userId == userId) {
      return AlreadyResponded("You have already submitted a response for this complaint.");
    }
    if insertFails {
      return Crashed;
    }
    var row := Response(db.nextResponseId, complaintId, userId, responseText, now);
    SerialAppend(db.responses, (r: Response) => r.id, db.nextResponseId, row);
    db.responses := db.responses + [row];
    db.nextResponseId := db.nextResponseId + 1;
    if updateFails {
      return Crashed;
    }
    db.assignments := ResolveAssignments(db.assignments, complaintId, userId);
    outcome := Responded;
  }

  /** One row of the dashboard join: the assignment, its complaint, and the
      staff member's own response when there is one. */
  datatype DashboardRow = DashboardRow(complaint: Complaint, assignment: Assignment,
                                       response: Option<Response>)

  datatype DashboardResult =
    | NoComplaints              // 404 "Complaint not found"
    | Dashboard(rows: seq<DashboardRow>)

  function ResponseBy(responses: seq<Response>, complaintId: int, userId: int): (r: Option<Response>)
    ensures r.None? <==> !HasResponded(responses, complaintId, userId)
    ensures r.Some? ==> r.value in responses && r.value.complaintId == complaintId
                        && r.value.userId == userId
  {
    First(responses, (r: Response) => r.complaintId == complaintId && r.userId == userId)
  }

  /** The INNER JOIN keeps an assignment of the user whose complaint exists. */
  predicate Joins(a: Assignment, complaints: seq<Complaint>, userId: int) {
    a.userId == userId && ComplaintById(complaints, a.complaintId).Some?
  }

  /** The user's assignments whose complaint exists, in table order. */
  function JoinedAssignments(assignments: seq<Assignment>, complaints: seq<Complaint>,
                             userId: int): seq<Assignment> {
    Filter(assignments, (a: Assignment) => Joins(a, complaints, userId))
  }

  lemma JoinedAssignmentsStep(assignments: seq<Assignment>, complaints: seq<Complaint>, userId: int)
    requires assignments != []
    ensures JoinedAssignments(assignments, complaints, userId)
         == if Joins(assignments[0], complaints, userId)
            then [assignments[0]] + JoinedAssignments(assignments[1..], complaints, userId)
            else JoinedAssignments(assignments[1..], complaints, userId)
  {
  }

  /** `complaints INNER JOIN assignments ... LEFT JOIN responses ... WHERE a.user_id = $1`,
      one row per assignment of the user whose complaint exists. */
  function AssignedRows(assignments: seq<Assignment>, complaints: seq<Complaint>,
                        responses: seq<Response>, userId: int): (r: seq<DashboardRow>)
    ensures forall row :: row in r ==>
      && row.assignment in assignments && row.assignment.userId == userId
      && row.complaint in complaints && row.complaint.id == row.assignment.complaintId
      && row.response == ResponseBy(responses, row.complaint.id, userId)
    ensures forall a :: (a in assignments && a.userId == userId
                         && ComplaintById(complaints, a.complaintId).Some?) ==>
      exists row :: row in r && row.assignment == a
  {
    if assignments == [] then []
    else
      var a := assignments[0];
      var rest := AssignedRows(assignments[1..], complaints, responses, userId);
      assert forall x :: x in assignments <==> x == a || x in assignments[1..];
      var c := ComplaintById(complaints, a.complaintId);
      if a.userId == userId && c.Some? then
        [DashboardRow(c.value, a, ResponseBy(responses, c.value.id, userId))] + rest
      else rest
  }

  /** The assignments of some dashboard rows, one per row, in the same order. */
  function AssignmentsOf(rows: seq<DashboardRow>): (r: seq<Assignment>)
    ensures |r| == |rows|
  {
    if rows == [] then [] else [rows[0].assignment] + AssignmentsOf(rows[1..])
  }

  /** The join has one row per assignment of the user whose complaint exists,
      in table order: its assignments are exactly those, each once. */
  lemma {:induction false} AssignedRowsFollowJoin(assignments: seq<Assignment>,
                                                  complaints: seq<Complaint>,
                                                  responses: seq<Response>, userId: int)
    ensures AssignmentsOf(AssignedRows(assignments, complaints, responses, userId))
         == JoinedAssignments(assignments, complaints, userId)
  {
    if assignments != [] {
      AssignedRowsFollowJoin(assignments[1..], complaints, responses, userId);
      JoinedAssignmentsStep(assignments, complaints, userId);
      var r := AssignedRows(assignments, complaints, responses, userId);
      if Joins(assignments[0], complaints, userId) {
        assert r[1..] == AssignedRows(assignments[1..], complaints, responses, userId);
      }
    }
  }

  /** `ORDER BY c.created_at DESC` */
  predicate NewestComplaintFirst(x: DashboardRow, y: DashboardRow) {
    x.complaint.createdAt >= y.complaint.createdAt
  }

  /** GET /dashboard for the logged-in staff member `userId`: only complaints
      assigned to them, newest first; 404 when there are none. */
  function ShowDashboard(db: Db, userId: int): (r: DashboardResult)
    reads db
    ensures r.Dashboard? ==> forall row :: row in r.rows ==>
      row.assignment in db.assignments && row.assignment.userId == userId
      && row.complaint in db.complaints && row.complaint.id == row.assignment.complaintId
    ensures r.Dashboard? ==>
      forall a :: (a in db.assignments && a.userId == userId
                   && ComplaintById(db.complaints, a.complaintId).Some?) ==>
        exists row :: row in r.rows && row.assignment == a
    ensures r.Dashboard? ==> SortedBy(r.rows, NewestComplaintFirst) && r.rows != []
    ensures r.Dashboard? ==>
      multiset(r.rows) == multiset(AssignedRows(db.assignments, db.complaints, db.responses, userId))
    ensures r.Dashboard? ==> |r.rows| == |JoinedAssignments(db.assignments, db.complaints, userId)|
    ensures r == NoComplaints <==>
      forall a :: a in db.assignments && a.userId == userId ==>
        ComplaintById(db.complaints, a.complaintId).None?
  {
    var joined := AssignedRows(db.assignments, db.complaints, db.responses, userId);
    var rows := SortBy(joined, NewestComplaintFirst);
    assert forall row :: row in rows <==> row in multiset(joined);
    SortBySorted(joined, NewestComplaintFirst);
    assert |rows| == |joined| by {
      assert |multiset(rows)| == |multiset(joined)|;
    }
    AssignedRowsFollowJoin(db.assignments, db.complaints, db.responses, userId);
    if rows == [] then NoComplaints else Dashboard(rows)
  }

  /** The complaint columns the detail page shows; `project` is the title of
      the complaint's project (`LEFT JOIN projects p ON c.project_id = p.id`). */
  datatype DetailRow = DetailRow(
    id: int, trackingId: string, name: Option<string>, createdAt: int,
    project: Option<string>, status: string, followUp: string)

  datatype DetailResult =
    | ComplaintNotFound         // 404 "Complaint not found"
    | Detail(complaint: DetailRow, response: Option<Response>)

  function ProjectTitle(projects: seq<Project>, projectId: Option<int>): Option<string> {
    if projectId.None? then None
    else
      var p := First(projects, (p: Project) => p.id == projectId.value);
      if p.None? then None else Some(p.value.title)
  }

  function AssignmentOf(assignments: seq<Assignment>, complaintId: int, userId: int)
    : (r: Option<Assignment>)
    ensures r.None? <==> !IsAssignedTo(assignments, complaintId, userId)
    ensures r.Some? ==> r.value in assignments && r.value.complaintId == complaintId
                        && r.value.userId == userId
  {
    First(assignments, (a: Assignment) => a.complaintId == complaintId && a.userId == userId)
  }

  /** GET /complaint/:id for the logged-in staff member `userId`: shown only
      when the complaint is assigned to them, otherwise 404. */
  function ShowComplaint(db: Db, complaintId: int, userId: int): (r: DetailResult)
    reads db
    ensures r == ComplaintNotFound <==>
      ComplaintById(db.complaints, complaintId).None?
      || !IsAssignedTo(db.assignments, complaintId, userId)
    ensures r.Detail? ==>
      && r.complaint.id == complaintId
      && (exists c :: c in db.complaints && c.id == complaintId
                      && r.complaint.trackingId == c.trackingId && r.complaint.name == c.name)
      && (exists a :: a in db.assignments && a.complaintId == complaintId && a.userId == userId
                      && r.complaint.status == a.status && r.complaint.followUp == a.followUp)
      && r.response == ResponseBy(db.responses, complaintId, userId)
  {
    var c := ComplaintById(db.complaints, complaintId);
    var a := AssignmentOf(db.assignments, complaintId, userId);
    if c.None? || a.None? then ComplaintNotFound
    else
      var row := DetailRow(c.value.id, c.value.trackingId, c.value.name, c.value.createdAt,
                           ProjectTitle(db.projects, c.value.projectId),
                           a.value.status, a.value.followUp);
      Detail(row, ResponseBy(db.responses, complaintId, userId))
  }
}

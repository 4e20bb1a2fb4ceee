/** routes/complaints.js: the admin's assignment form and the assignment itself. */
module ComplaintRoutes {
  import opened Common
  import opened Sorting
  import opened Store
  import opened WorkingDays

  /** A row of the form's user list: `SELECT id, username, role FROM users`. */
  datatype StaffChoice = StaffChoice(id: int, username: string, role: string)

  datatype AssignForm =
    | AlreadyAssigned   // redirect to /admin/complaints, nothing rendered
    | ShowForm(complaintId: int, complaint: Option<Complaint>,
               assignable: seq<StaffChoice>, categories: seq<Category>)

  /** The fields the admin submits with the assignment form. */
  datatype AssignmentForm = AssignmentForm(
    userId: int, projectId: int, channelId: int, categoryId: int,
    followUp: string, status: string, sensitive: bool)

  datatype AssignOutcome =
    | Assigned                    // redirect to /admin/complaints
    | CategoryMissing             // `categoriesRows[0]` is undefined: the handler throws before its try block
    | AssignFailed(error: string) // the INSERT was refused; the form is rendered again

  /** `role IN ('staff', 'manager')` */
  predicate Assignable(role: string) {
    role == "staff" || role == "manager"
  }

  /** `ORDER BY role, username` */
  predicate RoleThenName(a: StaffChoice, b: StaffChoice) {
    if a.role != b.role then StrLe(a.role, b.role) else StrLe(a.username, b.username)
  }

  lemma RoleThenNameIsTotalOrder()
    ensures Total(RoleThenName) && Transitive(RoleThenName)
  {
    forall a: StaffChoice, b: StaffChoice ensures RoleThenName(a, b) || RoleThenName(b, a) {
      StrLeTotal(a.role, b.role);
      StrLeTotal(a.username, b.username);
    }
    forall a: StaffChoice, b: StaffChoice, c: StaffChoice
      | RoleThenName(a, b) && RoleThenName(b, c)
      ensures RoleThenName(a, c)
    {
      if a.role != b.role && b.role != c.role {
        StrLeTransitive(a.role, b.role, c.role);
        if a.role == c.role {
          StrLeAntisymmetric(a.role, b.role);
        }
      } else if a.role == b.role && b.role == c.role {
        StrLeTransitive(a.username, b.username, c.username);
      }
    }
  }

  function ChoiceOf(u: User): StaffChoice {
    StaffChoice(u.id, u.username, u.role)
  }

  function Choices(users: seq<User>): (r: seq<StaffChoice>)
    ensures |r| == |users|
    ensures forall i :: 0 <= i < |r| ==> r[i] == ChoiceOf(users[i])
  {
    seq(|users|, i requires 0 <= i < |users| => ChoiceOf(users[i]))
  }

  lemma ChoicesMembership(users: seq<User>)
    ensures forall c :: c in Choices(users) <==> exists u :: u in users && c == ChoiceOf(u)
  {
    var r := Choices(users);
    forall c | c in r ensures exists u :: u in users && c == ChoiceOf(u) {
      var i :| 0 <= i < |r| && r[i] == c;
      assert users[i] in users;
    }
    forall u | u in users ensures ChoiceOf(u) in r {
      var i :| 0 <= i < |users| && users[i] == u;
      assert r[i] == ChoiceOf(u);
    }
  }

  /** `WHERE role IN ('staff', 'manager')`, in table order. */
  function StaffRows(users: seq<User>): seq<User> {
    Filter(users, (u: User) => Assignable(u.role))
  }

  /** The users the form offers: exactly the staff and managers, admins excluded,
      each as often as its row is stored, ordered by role and then username. */
  function AssignableUsers(users: seq<User>): (r: seq<StaffChoice>)
    ensures forall c :: c in r <==> exists u :: u in users && Assignable(u.role) && c == ChoiceOf(u)
    ensures forall c :: c in r ==> c.role != "admin"
    ensures SortedBy(r, RoleThenName)
    ensures multiset(r) == multiset(Choices(StaffRows(users)))
    ensures |r| == |StaffRows(users)|
  {
    var staff := StaffRows(users);
    var candidates := Choices(staff);
    ChoicesMembership(staff);
    RoleThenNameIsTotalOrder();
    SortBySorted(candidates, RoleThenName);
    var r := SortBy(candidates, RoleThenName);
    assert forall c :: c in r <==> c in multiset(candidates);
    forall c ensures c in r <==> exists u :: u in users && Assignable(u.role) && c == ChoiceOf(u) {
      if c in r {
        var u :| u in staff && c == ChoiceOf(u);
        assert u in users && Assignable(u.role);
      }
      if exists u :: u in users && Assignable(u.role) && c == ChoiceOf(u) {
        var u :| u in users && Assignable(u.role) && c == ChoiceOf(u);
        assert u in staff;
      }
    }
    assert |r| == |candidates| by {
      assert |multiset(r)| == |multiset(candidates)|;
    }
    r
  }

  predicate AssignmentFor(a: Assignment, complaintId: int) {
    a.complaintId == complaintId
  }

  /** GET /admin/complaints/:id/assign. */
  function ShowAssignForm(db: Db, complaintId: int): (r: AssignForm)
    reads db
    ensures r == AlreadyAssigned <==> exists a :: a in db.assignments && a.complaintId == complaintId
    ensures r.ShowForm? ==> r.assignable == AssignableUsers(db.users)
    ensures r.ShowForm? ==> (r.complaint.Some? <==> exists c :: c in db.complaints && c.id == complaintId)
    ensures r.ShowForm? && r.complaint.Some? ==> r.complaint.value in db.complaints
                                                 && r.complaint.value.id == complaintId
  {
    if Exists(db.assignments, (a: Assignment) => AssignmentFor(a, complaintId)) then AlreadyAssigned
    else ShowForm(complaintId, ComplaintById(db.complaints, complaintId),
                  AssignableUsers(db.users), db.categories)
  }

  function CategoryById(categories: seq<Category>, id: int): (r: Option<Category>)
    ensures r.None? <==> forall c :: c in categories ==> c.id != id
    ensures r.Some? ==> r.value in categories && r.value.id == id
  {
    First(categories, (c: Category) => c.id == id)
  }

  /** `working_days_limit || 5`: a missing or zero limit means five working days. */
  function WorkingDaysLimit(stored: Option<int>): (n: int)
    ensures n != 0
    ensures stored.Some? && stored.value != 0 ==> n == stored.value
    ensures stored.None? || stored.value == 0 ==> n == 5
  {
    if stored.Some? && stored.value != 0 then stored.value else 5
  }

  /** The row the INSERT adds: the complaint, the two dates, and the form's
      choices as submitted. */
  function NewAssignment(id: int, complaintId: int, form: AssignmentForm,
                         referralDate: int, dueDate: int): (a: Assignment)
    ensures a.id == id && a.complaintId == complaintId
    ensures a.referralDate == referralDate && a.dueDate == dueDate
    ensures a.userId == form.userId && a.projectId == form.projectId
    ensures a.channelId == form.channelId && a.categoryId == form.categoryId
    ensures a.followUp == form.followUp && a.status == form.status && a.sensitive == form.sensitive
  {
    Assignment(id, complaintId, form.userId, form.projectId, form.channelId,
               form.categoryId, referralDate, dueDate, form.followUp, form.status,
               form.sensitive)
  }

  /** POST /admin/complaints/:id/assign. `today` is the referral date
      (`new Date()`); `insertFails` stands for the database refusing the INSERT.
      The handler does not look for an existing assignment first. */
  method Assign(db: Db, complaintId: int, form: AssignmentForm, today: int, insertFails: bool)
    returns (outcome: AssignOutcome)
    requires db.Valid()
    modifies db`assignments, db`nextAssignmentId
    ensures db.Valid()
    ensures outcome == CategoryMissing <==> CategoryById(db.categories, form.categoryId).None?
    ensures outcome == Assigned <==> CategoryById(db.categories, form.categoryId).Some? && !insertFails
    ensures outcome.AssignFailed? ==> outcome.error == "Failed to assign complaint."
    ensures outcome == Assigned ==>
      var limit := WorkingDaysLimit(CategoryById(db.categories, form.categoryId).value.workingDaysLimit);
      && db.assignments == old(db.assignments)
           + [NewAssignment(old(db.nextAssignmentId), complaintId, form, today, DueDate(today, limit))]
      && db.nextAssignmentId == old(db.nextAssignmentId) + 1
    ensures outcome != Assigned ==>
      db.assignments == old(db.assignments) && db.nextAssignmentId == old(db.nextAssignmentId)
  {
    var category := CategoryById(db.categories, form.categoryId);
    if category.None? {
      return CategoryMissing;
    }
    var workingDaysLimit := WorkingDaysLimit(category.value.workingDaysLimit);
    var referralDate := today;
    var dueDate := AddWorkingDays(referralDate, workingDaysLimit);
    if insertFails {
      return AssignFailed("Failed to assign complaint.");
    }
    var row := NewAssignment(db.nextAssignmentId, complaintId, form, referralDate, dueDate);
    SerialAppend(db.assignments, (a: Assignment) => a.id, db.nextAssignmentId, row);
    db.assignments := db.assignments + [row];
    db.nextAssignmentId := db.nextAssignmentId + 1;
    outcome := Assigned;
  }
}

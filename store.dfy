/** The relational store as the route handlers see it: one sequence of rows per
    table, in physical order, and the serial counters that number new rows. */
module Store {
  import opened Common

  /** The output of bcrypt.hash. It is a type of its own, so a plaintext
      password can never be stored where a hash is expected; bcrypt.compare is
      the only way to look into it. Salt and cost factor are not modelled. */
  datatype PasswordHash = PasswordHash(secret: string)

  function Hash(password: string): (h: PasswordHash)
    ensures forall attempt :: Compare(attempt, h) <==> attempt == password
  {
    PasswordHash(password)
  }

  predicate Compare(attempt: string, h: PasswordHash) {
    h.secret == attempt
  }

  datatype User = User(id: int, username: string, email: string, password: PasswordHash,
                       role: string, createdAt: int)

  datatype Complaint = Complaint(
    id: int, trackingId: string, name: Option<string>, genderId: Option<int>,
    age: Option<int>, phone: Option<string>, email: Option<string>,
    governorateId: Option<int>, districtId: Option<int>, subDistrictId: Option<int>,
    communityId: Option<int>, villageCampFacility: Option<string>,
    activity: Option<string>, text: Option<string>, channelId: Option<int>,
    projectId: Option<int>, createdAt: int)

  datatype Attachment = Attachment(id: int, complaintId: int, filePath: string)

  /** Dates are day numbers (see module WorkingDays). */
  datatype Assignment = Assignment(
    id: int, complaintId: int, userId: int, projectId: int, channelId: int,
    categoryId: int, referralDate: int, dueDate: int, followUp: string,
    status: string, sensitive: bool)

  datatype Response = Response(id: int, complaintId: int, userId: int,
                               responseText: string, createdAt: int)

  datatype Notification = Notification(id: int, userId: int, message: string,
                                       isRead: bool, createdAt: int)

  datatype Category = Category(id: int, name: string, workingDaysLimit: Option<int>)

  datatype Project = Project(id: int, title: string)

  /** A row of districts, sub_districts or communities: each references its
      parent in the location hierarchy. */
  datatype Place = Place(id: int, name: string, parentId: int)

  /** `SELECT * FROM complaints WHERE id = $1`, first row. */
  function ComplaintById(complaints: seq<Complaint>, id: int): (r: Option<Complaint>)
    ensures r.None? <==> forall c :: c in complaints ==> c.id != id
    ensures r.Some? ==> r.value in complaints && r.value.id == id
  {
    First(complaints, (c: Complaint) => c.id == id)
  }

  /** No two rows share a key. */
  ghost predicate DistinctBy<T, K>(rows: seq<T>, key: T -> K) {
    forall i, j :: 0 <= i < j < |rows| ==> key(rows[i]) != key(rows[j])
  }

  /** Every key is positive, below the table's next serial value, and unique. */
  ghost predicate Serial<T>(rows: seq<T>, key: T -> int, next: int) {
    && 0 < next
    && (forall i :: 0 <= i < |rows| ==> 0 < key(rows[i]) < next)
    && DistinctBy(rows, key)
  }

  /** Appending a row keyed with the next serial value keeps the table serial. */
  lemma SerialAppend<T>(rows: seq<T>, key: T -> int, next: int, row: T)
    requires Serial(rows, key, next) && key(row) == next
    ensures Serial(rows + [row], key, next + 1)
  {
  }

  /** A DELETE keeps the remaining keys distinct. */
  lemma {:induction false} FilterDistinct<T(!new), K>(rows: seq<T>, key: T -> K, p: T -> bool)
    requires DistinctBy(rows, key)
    ensures DistinctBy(Filter(rows, p), key)
  {
    if rows != [] {
      var rest := rows[1..];
      assert DistinctBy(rest, key) by {
        forall i, j | 0 <= i < j < |rest| ensures key(rest[i]) != key(rest[j]) {
          assert rest[i] == rows[i + 1] && rest[j] == rows[j + 1];
        }
      }
      FilterDistinct(rest, key, p);
      var tail := Filter(rest, p);
      if p(rows[0]) {
        var r := [rows[0]] + tail;
        forall i, j | 0 <= i < j < |r| ensures key(r[i]) != key(r[j]) {
          if i == 0 {
            assert r[j] in rest;
            var k :| 0 <= k < |rest| && rest[k] == r[j];
            assert rows[k + 1] == r[j];
          } else {
            assert r[i] == tail[i - 1] && r[j] == tail[j - 1];
          }
        }
      }
    }
  }

  /** A DELETE keeps a table serial. */
  lemma FilterSerial<T(!new)>(rows: seq<T>, key: T -> int, next: int, p: T -> bool)
    requires Serial(rows, key, next)
    ensures Serial(Filter(rows, p), key, next)
  {
    FilterDistinct(rows, key, p);
    var r := Filter(rows, p);
    forall i | 0 <= i < |r| ensures 0 < key(r[i]) < next {
      assert r[i] in rows;
      var k :| 0 <= k < |rows| && rows[k] == r[i];
    }
  }

  /** Users and their email addresses are unique (the schema's UNIQUE constraint). */
  ghost predicate UniqueEmails(users: seq<User>) {
    DistinctBy(users, (u: User) => u.email)
  }

  /** `UPDATE users SET ... WHERE id = $n`: `change` is applied to the rows with
      that id and to no other row. */
  function UpdateById(users: seq<User>, id: int, change: User -> User): (r: seq<User>)
    ensures |r| == |users|
    ensures forall i :: 0 <= i < |r| && users[i].id != id ==> r[i] == users[i]
    ensures forall i :: 0 <= i < |r| && users[i].id == id ==> r[i] == change(users[i])
  {
    seq(|users|, i requires 0 <= i < |users| =>
      if users[i].id == id then change(users[i]) else users[i])
  }

  /** An UPDATE that keeps each id and gives the updated row an email no other
      user has keeps the users table serial and its emails unique. */
  lemma UpdateByIdKeepsUsersValid(users: seq<User>, next: int, id: int, change: User -> User)
    requires Serial(users, (u: User) => u.id, next) && UniqueEmails(users)
    requires forall u :: change(u).id == u.id
    requires forall i, j ::
      (0 <= i < |users| && 0 <= j < |users| && users[i].id == id && users[j].id != id) ==>
        users[j].email != change(users[i]).email
    ensures Serial(UpdateById(users, id, change), (u: User) => u.id, next)
    ensures UniqueEmails(UpdateById(users, id, change))
  {
    var r := UpdateById(users, id, change);
    forall i | 0 <= i < |r| ensures r[i].id == users[i].id {
    }
    forall i, j | 0 <= i < j < |r| ensures r[i].email != r[j].email {
      if users[i].id != id {
        assert r[i] == users[i];
      }
      if users[j].id != id {
        assert r[j] == users[j];
      }
    }
  }

  /** A staff member has at most one response per complaint. */
  ghost predicate OneResponsePerAuthor(responses: seq<Response>) {
    forall i, j :: 0 <= i < j < |responses| ==>
      responses[i].complaintId != responses[j].complaintId
      || responses[i].userId != responses[j].userId
  }

  class Db {
    var users: seq<User>
    var complaints: seq<Complaint>
    var attachments: seq<Attachment>
    var assignments: seq<Assignment>
    var responses: seq<Response>
    var notifications: seq<Notification>
    var categories: seq<Category>
    var projects: seq<Project>
    var districts: seq<Place>
    var subDistricts: seq<Place>
    var communities: seq<Place>

    var nextUserId: int
    var nextComplaintId: int
    var nextAttachmentId: int
    var nextAssignmentId: int
    var nextResponseId: int

    ghost predicate Valid()
      reads this
    {
      && Serial(users, (u: User) => u.id, nextUserId)
      && Serial(complaints, (c: Complaint) => c.id, nextComplaintId)
      && Serial(attachments, (a: Attachment) => a.id, nextAttachmentId)
      && Serial(assignments, (a: Assignment) => a.id, nextAssignmentId)
      && Serial(responses, (r: Response) => r.id, nextResponseId)
      && DistinctBy(notifications, (n: Notification) => n.id)
      && UniqueEmails(users)
      && OneResponsePerAuthor(responses)
    }

    /** An empty database with its serial counters at 1. */
    constructor ()
      ensures Valid()
      ensures users == [] && complaints == [] && attachments == [] && assignments == []
      ensures responses == [] && notifications == [] && categories == [] && projects == []
      ensures districts == [] && subDistricts == [] && communities == []
    {
      users, complaints, attachments, assignments := [], [], [], [];
      responses, notifications, categories, projects := [], [], [], [];
      districts, subDistricts, communities := [], [], [];
      nextUserId, nextComplaintId, nextAttachmentId := 1, 1, 1;
      nextAssignmentId, nextResponseId := 1, 1;
    }
  }
}

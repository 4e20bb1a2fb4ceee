/** routes/users.js: the admin's user administration (list, create, edit,
    delete) and every user's own profile page. */
module UserRoutes {
  import opened Common
  import opened Sorting
  import opened Store
  import opened Sessions

  /** `role || "staff"`: a missing or empty role makes a staff member. */
  function RoleOrDefault(role: Option<string>): (r: string)
    ensures !Truthy(role) ==> r == "staff"
    ensures Truthy(role) ==> r == role.value
    ensures r != ""
  {
    if Truthy(role) then role.value else "staff"
  }

  /** Some user other than `id` already has `email`: the UNIQUE constraint
      refuses to give it to `id` as well. */
  predicate EmailTakenByOther(users: seq<User>, email: string, id: int) {
    exists u :: u in users && u.email == email && u.id != id
  }

  /** Updating row `id` to `email` violates the UNIQUE constraint: the row
      exists (an UPDATE that matches no row writes nothing) and some other
      user already has `email`. */
  predicate EmailClash(users: seq<User>, email: string, id: int) {
    (exists u :: u in users && u.id == id) && EmailTakenByOther(users, email, id)
  }

  /** Some user has `email`: the UNIQUE constraint refuses a new user with it. */
  predicate EmailTaken(users: seq<User>, email: string) {
    exists u :: u in users && u.email == email
  }

  /** The row the signup INSERT adds. */
  function NewUser(id: int, username: string, email: string, password: string,
                   role: Option<string>, now: int): (u: User)
    ensures u.id == id && u.username == username && u.email == email && u.createdAt == now
    ensures u.role == RoleOrDefault(role)
    ensures Compare(password, u.password)
    ensures forall attempt :: Compare(attempt, u.password) ==> attempt == password
  {
    User(id, username, email, Hash(password), RoleOrDefault(role), now)
  }

  datatype CreateOutcome =
    | UserCreated               // redirect to /users/new
    | CreateFailed(error: string)

  /** POST /users/new. `insertFails` stands for the database refusing the
      INSERT for a reason other than the duplicate email. */
  method CreateUser(db: Db, username: string, email: string, password: string,
                    role: Option<string>, now: int, insertFails: bool)
    returns (outcome: CreateOutcome)
    requires db.Valid()
    modifies db`users, db`nextUserId
    ensures db.Valid()
    ensures outcome == UserCreated <==> !EmailTaken(old(db.users), email) && !insertFails
    ensures outcome.CreateFailed? ==>
      && outcome.error == "Failed to create user. Email might already exist."
      && db.users == old(db.users) && db.nextUserId == old(db.nextUserId)
    ensures outcome == UserCreated ==>
      && db.users == old(db.users)
           + [NewUser(old(db.nextUserId), username, email, password, role, now)]
      && db.nextUserId == old(db.nextUserId) + 1
  {
    var hashed := Hash(password);
    if Exists(db.users, (u: User) => u.email == email) || insertFails {
      return CreateFailed("Failed to create user. Email might already exist.");
    }
    var row := User(db.nextUserId, username, email, hashed, RoleOrDefault(role), now);
    SerialAppend(db.users, (u: User) => u.id, db.nextUserId, row);
    db.users := db.users + [row];
    db.nextUserId := db.nextUserId + 1;
    outcome := UserCreated;
  }

  datatype DeleteOutcome =
    | SelfDeleteRefused(message: string)  // sent as the response body
    | Deleted                             // redirect to /users
    | DeleteCrashed                       // the DELETE was refused; nothing catches it

  /** POST /users/:id/delete by the logged-in admin `actor`. `deleteFails`
      stands for the database refusing the DELETE (a user still referenced
      by assignments or responses). */
  method DeleteUser(db: Db, actor: SessionUser, targetId: int, deleteFails: bool)
    returns (outcome: DeleteOutcome)
    requires db.Valid()
    modifies db`users
    ensures db.Valid()
    ensures outcome.SelfDeleteRefused? <==> targetId == actor.id
    ensures outcome.SelfDeleteRefused? ==> outcome.message == "You can't delete your own account."
    ensures outcome == Deleted <==> targetId != actor.id && !deleteFails
    ensures outcome != Deleted ==> db.users == old(db.users)
    ensures outcome == Deleted ==>
      && (forall u :: u in db.users <==> u in old(db.users) && u.id != targetId)
      && multiset(db.users) <= multiset(old(db.users))
  {
    if targetId == actor.id {
      return SelfDeleteRefused("You can't delete your own account.");
    }
    if deleteFails {
      return DeleteCrashed;
    }
    var p := (u: User) => u.id != targetId;
    FilterSerial(db.users, (u: User) => u.id, db.nextUserId, p);
    FilterDistinct(db.users, (u: User) => u.email, p);
    db.users := Filter(db.users, p);
    outcome := Deleted;
  }

  /** The row change of the admin's edit form. */
  function EditChange(username: string, email: string, role: string): (change: User -> User)
    ensures forall u :: change(u) == u.(username := username, email := email, role := role)
  {
    (u: User) => u.(username := username, email := email, role := role)
  }

  datatype EditOutcome =
    | Edited                     // redirect to /users
    | EditFailed(error: string)  // the form is rendered again

  /** POST /users/:id/edit. `updateFails` stands for the database refusing the
      UPDATE for a reason other than a duplicate email. */
  method EditUser(db: Db, targetId: int, username: string, email: string, role: string,
                  updateFails: bool)
    returns (outcome: EditOutcome)
    requires db.Valid()
    modifies db`users
    ensures db.Valid()
    ensures outcome == Edited <==> !EmailClash(old(db.users), email, targetId) && !updateFails
    ensures outcome.EditFailed? ==>
      outcome.error == "Error updating user" && db.users == old(db.users)
    ensures outcome == Edited ==>
      db.users == UpdateById(old(db.users), targetId, EditChange(username, email, role))
  {
    if (Exists(db.users, (u: User) => u.id == targetId)
        && Exists(db.users, (u: User) => u.email == email && u.id != targetId)) || updateFails {
      return EditFailed("Error updating user");
    }
    UpdateByIdKeepsUsersValid(db.users, db.nextUserId, targetId, EditChange(username, email, role));
    db.users := UpdateById(db.users, targetId, EditChange(username, email, role));
    outcome := Edited;
  }

  /** With unique ids, an edit changes the target's username, email and role
      and nothing else in the table. */
  lemma EditChangesTargetOnly(users: seq<User>, targetId: int, username: string,
                              email: string, role: string, k: int)
    requires DistinctBy(users, (u: User) => u.id)
    requires 0 <= k < |users| && users[k].id == targetId
    ensures UpdateById(users, targetId, EditChange(username, email, role))[k]
         == users[k].(username := username, email := email, role := role)
    ensures UpdateById(users, targetId, EditChange(username, email, role))[k].password
         == users[k].password
    ensures forall i :: 0 <= i < |users| && i != k ==>
      UpdateById(users, targetId, EditChange(username, email, role))[i] == users[i]
  {
    forall i | 0 <= i < |users| && i != k
      ensures UpdateById(users, targetId, EditChange(username, email, role))[i] == users[i]
    {
      if i < k {
        assert users[i].id != users[k].id;
      } else {
        assert users[k].id != users[i].id;
      }
    }
  }

  /** What the user list and the profile page show: every column but the password. */
  datatype UserSummary = UserSummary(id: int, username: string, email: string, role: string,
                                     createdAt: int)

  function SummaryOf(u: User): UserSummary {
    UserSummary(u.id, u.username, u.email, u.role, u.createdAt)
  }

  /** `ORDER BY created_at DESC` */
  predicate NewestUserFirst(a: UserSummary, b: UserSummary) {
    a.createdAt >= b.createdAt
  }

  function Summaries(users: seq<User>): (r: seq<UserSummary>)
    ensures |r| == |users|
    ensures forall i :: 0 <= i < |r| ==> r[i] == SummaryOf(users[i])
  {
    seq(|users|, i requires 0 <= i < |users| => SummaryOf(users[i]))
  }

  /** GET /users: every user once, newest first, without password hashes. */
  function ListUsers(db: Db): (r: seq<UserSummary>)
    reads db
    ensures |r| == |db.users|
    ensures forall s :: s in r <==> exists u :: u in db.users && s == SummaryOf(u)
    ensures SortedBy(r, NewestUserFirst)
  {
    var rows := Summaries(db.users);
    var r := SortBy(rows, NewestUserFirst);
    SortBySorted(rows, NewestUserFirst);
    assert |r| == |rows| by {
      assert |multiset(r)| == |multiset(rows)|;
    }
    forall s ensures s in r <==> exists u :: u in db.users && s == SummaryOf(u) {
      assert s in r <==> s in multiset(rows);
      if s in rows {
        var i :| 0 <= i < |rows| && rows[i] == s;
        assert db.users[i] in db.users;
      }
      if exists u :: u in db.users && s == SummaryOf(u) {
        var u :| u in db.users && s == SummaryOf(u);
        var i :| 0 <= i < |db.users| && db.users[i] == u;
        assert rows[i] == s;
      }
    }
    r
  }

  datatype ProfileView =
    | UserNotFound           // 404 "User not found"
    | Profile(user: UserSummary)

  /** GET /profile for the logged-in user `userId`. */
  function ViewProfile(db: Db, userId: int): (r: ProfileView)
    reads db
    ensures r.UserNotFound? <==> forall u :: u in db.users ==> u.id != userId
    ensures r.Profile? ==> exists u :: u in db.users && u.id == userId && r.user == SummaryOf(u)
  {
    var u := First(db.users, (u: User) => u.id == userId);
    if u.None? then UserNotFound else Profile(SummaryOf(u.value))
  }

  function ProfileChange(username: string, email: string): (change: User -> User)
    ensures forall u :: change(u) == u.(username := username, email := email)
  {
    (u: User) => u.(username := username, email := email)
  }

  function PasswordChange(hashed: PasswordHash): (change: User -> User)
    ensures forall u :: change(u) == u.(password := hashed)
  {
    (u: User) => u.(password := hashed)
  }

  /** A password change is requested when both password fields are filled in. */
  predicate WantsPasswordChange(currentPassword: Option<string>, newPassword: Option<string>) {
    Truthy(currentPassword) && Truthy(newPassword)
  }

  /** `SELECT password FROM users WHERE id = $1`, `rows[0].password`. */
  function PasswordOf(users: seq<User>, userId: int): (r: Option<PasswordHash>)
    ensures r.None? <==> forall u :: u in users ==> u.id != userId
    ensures r.Some? ==> exists u :: u in users && u.id == userId && u.password == r.value
  {
    if users == [] then None
    else if users[0].id == userId then Some(users[0].password)
    else
      assert forall u :: u in users ==> u == users[0] || u in users[1..];
      PasswordOf(users[1..], userId)
  }

  /** The password check inside the transaction: the user's row exists and its
      hash matches the current password. */
  predicate PasswordVerified(users: seq<User>, userId: int, currentPassword: string) {
    PasswordOf(users, userId).Some? && Compare(currentPassword, PasswordOf(users, userId).value)
  }

  /** The first UPDATE of the transaction leaves the password check unaffected:
      the check after it sees the same row's hash as before it. */
  lemma {:induction false} RenameKeepsPassword(users: seq<User>, userId: int, username: string,
                                               email: string)
    ensures PasswordOf(UpdateById(users, userId, ProfileChange(username, email)), userId)
         == PasswordOf(users, userId)
  {
    if users != [] {
      var r := UpdateById(users, userId, ProfileChange(username, email));
      assert r[1..] == UpdateById(users[1..], userId, ProfileChange(username, email));
      RenameKeepsPassword(users[1..], userId, username, email);
    }
  }

  /** Changing a password keeps the users table serial and its emails unique. */
  lemma PasswordChangeKeepsUsersValid(users: seq<User>, next: int, userId: int, hashed: PasswordHash)
    requires Serial(users, (u: User) => u.id, next) && UniqueEmails(users)
    ensures Serial(UpdateById(users, userId, PasswordChange(hashed)), (u: User) => u.id, next)
    ensures UniqueEmails(UpdateById(users, userId, PasswordChange(hashed)))
  {
    var change := PasswordChange(hashed);
    forall i, j | 0 <= i < |users| && 0 <= j < |users| && users[i].id == userId && users[j].id != userId
      ensures users[j].email != change(users[i]).email
    {
      if i < j {
        assert users[i].email != users[j].email;
      } else {
        assert users[j].email != users[i].email;
      }
    }
    UpdateByIdKeepsUsersValid(users, next, userId, change);
  }

  /** The message PostgreSQL gives when the UNIQUE constraint on users.email
      refuses a row. The constraint name is PostgreSQL's default for a UNIQUE
      column `email` of table `users`; the schema itself is not part of this
      model, so the name is assumed. */
  const DuplicateEmail := "duplicate key value violates unique constraint \"users_email_key\""

  /** How the profile transaction ends: COMMIT with the new table, or ROLLBACK
      with the message of what was thrown. */
  datatype Transaction =
    | Committed(users: seq<User>)
    | RolledBack(error: string)

  /** The transaction of POST /profile on the users table: rename, then, when
      both password fields are filled in, verify the current password and store
      the hash of the new one. `updateError` is the message of the database
      refusing the first UPDATE for a reason other than a duplicate email. */
  function ProfileTransaction(users: seq<User>, userId: int, username: string, email: string,
                              currentPassword: Option<string>, newPassword: Option<string>,
                              updateError: Option<string>): (t: Transaction)
    ensures t.Committed? <==>
      && !EmailClash(users, email, userId) && updateError.None?
      && (WantsPasswordChange(currentPassword, newPassword) ==>
            PasswordVerified(users, userId, currentPassword.value))
    ensures EmailClash(users, email, userId) ==> t == RolledBack(DuplicateEmail)
    ensures !EmailClash(users, email, userId) && updateError.Some? ==>
      t == RolledBack(updateError.value)
    ensures (!EmailClash(users, email, userId) && updateError.None?
             && WantsPasswordChange(currentPassword, newPassword)
             && PasswordOf(users, userId).Some?
             && !PasswordVerified(users, userId, currentPassword.value)) ==>
      t == RolledBack("Current password is incorrect")
    ensures t.Committed? ==> |t.users| == |users|
    ensures t.Committed? ==> forall i :: 0 <= i < |users| && users[i].id != userId ==>
      t.users[i] == users[i]
    ensures t.Committed? ==> forall i :: 0 <= i < |users| && users[i].id == userId ==>
      && t.users[i].username == username && t.users[i].email == email
      && t.users[i].id == users[i].id && t.users[i].role == users[i].role
      && t.users[i].createdAt == users[i].createdAt
      && (t.users[i].password == if WantsPasswordChange(currentPassword, newPassword)
                                 then Hash(newPassword.value) else users[i].password)
  {
    if Exists(users, (u: User) => u.id == userId)
       && Exists(users, (u: User) => u.email == email && u.id != userId) then
      RolledBack(DuplicateEmail)
    else if updateError.Some? then RolledBack(updateError.value)
    else
      var renamed := UpdateById(users, userId, ProfileChange(username, email));
      RenameKeepsPassword(users, userId, username, email);
      if !WantsPasswordChange(currentPassword, newPassword) then Committed(renamed)
      else
        var stored := PasswordOf(renamed, userId);
        if stored.None? then
          RolledBack("Cannot read properties of undefined (reading 'password')")
        else if !Compare(currentPassword.value, stored.value) then
          RolledBack("Current password is incorrect")
        else Committed(UpdateById(renamed, userId, PasswordChange(Hash(newPassword.value))))
  }

  /** A committed profile transaction keeps the users table serial and its
      emails unique. */
  lemma ProfileTransactionKeepsUsersValid(users: seq<User>, next: int, userId: int,
                                          username: string, email: string,
                                          currentPassword: Option<string>,
                                          newPassword: Option<string>,
                                          updateError: Option<string>)
    requires Serial(users, (u: User) => u.id, next) && UniqueEmails(users)
    ensures var t := ProfileTransaction(users, userId, username, email, currentPassword,
                                        newPassword, updateError);
      t.Committed? ==> Serial(t.users, (u: User) => u.id, next) && UniqueEmails(t.users)
  {
    var t := ProfileTransaction(users, userId, username, email, currentPassword,
                                newPassword, updateError);
    if t.Committed? {
      UpdateByIdKeepsUsersValid(users, next, userId, ProfileChange(username, email));
      var renamed := UpdateById(users, userId, ProfileChange(username, email));
      if WantsPasswordChange(currentPassword, newPassword) {
        PasswordChangeKeepsUsersValid(renamed, next, userId, Hash(newPassword.value));
        assert t.users == UpdateById(renamed, userId, PasswordChange(Hash(newPassword.value)));
      } else {
        assert t.users == renamed;
      }
    }
  }

  datatype ProfileOutcome =
    | ProfileSaved                   // "Profile updated successfully!"
    | ProfileFailed(error: string)   // the error's message, after ROLLBACK

  /** POST /profile for the session's user (requireLogin has run, so there is
      one). The session is updated only after COMMIT. */
  method UpdateProfile(db: Db, session: Session, username: string, email: string,
                       currentPassword: Option<string>, newPassword: Option<string>,
                       updateError: Option<string>)
    returns (outcome: ProfileOutcome)
    requires db.Valid() && session.user.Some?
    modifies db`users, session`user
    ensures db.Valid()
    ensures var t := ProfileTransaction(old(db.users), old(session.user).value.id, username,
                                        email, currentPassword, newPassword, updateError);
      && (outcome == ProfileSaved <==> t.Committed?)
      && (outcome.ProfileFailed? ==> outcome.error == t.error)
      && (outcome == ProfileSaved ==> db.users == t.users)
    ensures outcome.ProfileFailed? ==>
      db.users == old(db.users) && session.user == old(session.user)
    ensures outcome == ProfileSaved ==>
      session.user == Some(old(session.user).value.(username := username, email := Some(email)))
  {
    var userId := session.user.value.id;
    ProfileTransactionKeepsUsersValid(db.users, db.nextUserId, userId, username, email,
                                      currentPassword, newPassword, updateError);
    // BEGIN: the transaction's writes stay in `pending` until COMMIT
    if Exists(db.users, (u: User) => u.id == userId)
       && Exists(db.users, (u: User) => u.email == email && u.id != userId) {
      return ProfileFailed(DuplicateEmail);
    }
    if updateError.Some? {
      return ProfileFailed(updateError.value);
    }
    var pending := UpdateById(db.users, userId, ProfileChange(username, email));
    if WantsPasswordChange(currentPassword, newPassword) {
      var stored := PasswordOf(pending, userId);
      if stored.None? {
        // ROLLBACK
        return ProfileFailed("Cannot read properties of undefined (reading 'password')");
      }
      if !Compare(currentPassword.value, stored.value) {
        // ROLLBACK
        return ProfileFailed("Current password is incorrect");
      }
      pending := UpdateById(pending, userId, PasswordChange(Hash(newPassword.value)));
    }
    db.users := pending;
    // COMMIT
    session.user := Some(session.user.value.(username := username, email := Some(email)));
    outcome := ProfileSaved;
  }
}

# Complaint and feedback management: a Dafny model of the case workflow

The system is an Express web application in which members of the public file
complaints, an administrator assigns each complaint to a staff member with a
due date counted in working days, the staff member responds, and the public
follows the case with a short tracking id. This project models its core:

- the due-date calculator `addWorkingDays` and the three role guards of
  `middleware/auth.js` (module `WorkingDays`, module `AuthGuards`);
- the route handlers that read and change the database: complaint intake,
  the location look-ups and tracking (`PublicRoutes`), assignment
  (`ComplaintRoutes`), the staff dashboard, complaint detail and response
  (`StaffRoutes`), notifications (`NotificationRoutes`), user administration
  and the profile page (`UserRoutes`), login and logout (`AuthRoutes`).

The database is a class `Store.Db` with one sequence of rows per table, in
physical order, and the serial counters that number new rows. A `WHERE`
query is a filter over that sequence, `rows[0]` is the first matching row,
and `ORDER BY` is a stable insertion sort (`Sorting.SortBy`) whose result is
proved sorted and a permutation of its input. `Db.Valid()` states the
invariants the handlers keep: serial ids below their counters and distinct,
distinct notification ids, distinct user emails (the schema's UNIQUE
constraint) and at most one response per staff member and complaint. The
session is a class `Sessions.Session` whose `user` field login sets and
logout clears.

Dates are whole day numbers counted from 1970-01-01 (a Thursday);
`Weekday` numbers days as JavaScript's `getDay()` does, Sunday = 0. The loop
of `addWorkingDays` is kept as a `while` loop in `WorkingDays.AddWorkingDays`
and proved equal to the recursive reference definition `DueDate`, about which
the counting, characterisation and monotonicity lemmas are proved.

Things the program receives from outside are parameters: the current time
(`now`, `today`), the value `uuidv4()` returned, the file name the upload
middleware stored, and, for each SQL statement that can be refused for a
reason the model does not track, a flag such as `insertFails` (or the error
message, where the handler shows it). bcrypt is the pair `Store.Hash` /
`Store.Compare` over a type `PasswordHash` of its own, so a plaintext password
cannot be stored where a hash is expected.

Where a handler's behaviour differs from what its design suggests, the model
follows the code:

- the admin routes of `routes/users.js` and `routes/complaints.js` list
  `requireLogin` before `requireAdmin`, so there an anonymous request is
  redirected to "/" and never reaches the 403 page of `requireAdmin`
  (`AuthGuards.AdminRouteGuards`); the complaint detail route of
  `routes/admin.js` lists `requireAdmin` alone, so there an anonymous
  request does get the 403 (`AuthGuards.RequireAdmin`);
- POST `/admin/complaints/:id/assign` does not look for an existing
  assignment; only the GET form does;
- `/respond` runs its INSERT and its UPDATE outside a transaction, so a
  refused UPDATE leaves a response whose assignment is not resolved, and a
  second attempt is then refused as already answered;
- an unknown category makes `categoriesRows[0]` undefined before the handler's
  `try` block, so the assignment route throws instead of rendering its error;
- the notification list's own 401 is reached only by a session user with the
  id 0: `requireLogin` runs first and redirects a missing user to "/", and
  the handler then tests `!userId` (`NotificationRoutes.ListBehindLogin`);
- editing a user, or one's profile, to an email someone else has fails with
  the duplicate-key error only when the edited row exists: an UPDATE that
  matches no row writes nothing, so the UNIQUE constraint never fires
  (`UserRoutes.EmailClash`).

## Model

| member | source | states |
|---|---|---|
| WorkingDays.Weekday | middleware/auth.js:37 | the day of the week is one of the seven `getDay()` numbers, Sunday = 0 |
| WorkingDays.NextWorkingDay | middleware/auth.js:35-41 | the first Monday-to-Friday day after d: at most three days later, and every day in between is a Saturday or Sunday |
| WorkingDays.DueDate | middleware/auth.js:31-43 | the due date never precedes the start; with at least one working day it is strictly later and falls on a working day |
| WorkingDays.AddWorkingDays | middleware/auth.js:31-43 | the loop terminates and returns DueDate(start, n); with n <= 0 the loop never runs and the start date is returned |
| WorkingDays.DueDateCount | middleware/auth.js:33-41 | exactly n working days lie in the half-open interval (start, due] |
| WorkingDays.DueDateCharacterization | middleware/auth.js:35-41 | for n >= 1, a day is the due date if and only if it is after the start, a working day, and has exactly n working days in (start, day] |
| WorkingDays.DueDateMonotone | middleware/auth.js:33-41 | more working days never give an earlier due date, and strictly more from a non-negative count give a strictly later one |
| WorkingDays.FridayPlusOne | middleware/auth.js:35-41 | from a Friday, one working day is the Monday three days later |
| WorkingDays.FullWeek | middleware/auth.js:35-41 | from any working day, five working days is the same weekday seven days later |
| WorkingDays.FridayJanuaryFifth | middleware/auth.js:35-41 | one working day after Friday 2024-01-05 is Monday 2024-01-08 |
| WorkingDays.MondayJanuaryFirst | middleware/auth.js:35-41 | five working days after Monday 2024-01-01 is 2024-01-08 |
| AuthGuards.RequireLogin | middleware/auth.js:2-7 | passes exactly when a session user exists, otherwise redirects to "/" |
| AuthGuards.RequireAdmin | middleware/auth.js:9-19 | passes exactly when the session user is an admin, otherwise answers access denied, also with no session user (the only guard of routes/admin.js:8) |
| AuthGuards.RequireStaff | middleware/auth.js:21-29 | passes exactly when the session user's role is staff, manager or admin, otherwise redirects to "/" |
| AuthGuards.GuardChain | middleware/auth.js:2-29 | passing requireAdmin implies passing requireStaff, which implies passing requireLogin; any other role passes requireLogin only |
| AuthGuards.AdminRouteGuards | routes/users.js:11 | on the routes that list requireLogin then requireAdmin (users.js, complaints.js): only admins pass, anonymous requests are redirected to "/", other users get the 403 |
| AuthGuards.StaffRouteGuards | routes/staff.js:8 | requireLogin then requireStaff behaves as requireStaff alone |
| Sorting.SortBy | routes/staff.js:46 | ORDER BY returns a permutation of the rows |
| Sorting.SortBySorted | routes/staff.js:46 | with a total and transitive order, ORDER BY returns the rows sorted |
| Sorting.StrLeTotal | routes/complaints.js:92 | any two text values are ordered one way or the other |
| Sorting.StrLeTransitive | routes/complaints.js:92 | the text order used by ORDER BY is transitive |
| Sorting.StrLeAntisymmetric | routes/complaints.js:92 | two text values ordered both ways are equal |
| Store.Hash | routes/users.js:37 | bcrypt.compare accepts exactly the password that was hashed |
| Store.Db.Valid | routes/staff.js:122-132 | the invariants every state-changing handler keeps: serial ids below their counters and distinct, distinct notification ids, unique user emails, and at most one response per staff member and complaint (the check before the response INSERT) |
| Store.FilterSerial | routes/users.js:170 | deleting rows keeps ids positive, below the counter and distinct |
| Store.FilterDistinct | routes/users.js:170 | deleting rows keeps a unique column unique |
| Store.UpdateByIdKeepsUsersValid | routes/users.js:197-200 | an UPDATE that keeps ids and gives no other user's email keeps the users table valid |
| PublicRoutes.BeforeFirstHyphen | routes/public.js:46 | `split('-')[0]` is the longest hyphen-free prefix |
| PublicRoutes.TrackingId | routes/public.js:46 | the tracking id is the UUID's text up to its first hyphen, with no hyphen in it |
| PublicRoutes.TrackingIdOfUuid | routes/public.js:46 | the tracking id of a version-4 UUID is its first group: eight hex digits |
| PublicRoutes.AcceptsUpload | routes/public.js:13-19 | the upload filter accepts exactly mimetypes starting with "image/" and "application/pdf" |
| PublicRoutes.UploadFilterExamples | routes/public.js:13-19 | PNG images and PDF are accepted; "application/pdf+zip", HTML and "image" without slash are not |
| PublicRoutes.NewComplaint | routes/public.js:54-69 | empty or missing gender, age, location, channel and project become NULL and a given one is stored as given; name, phone, email, village/camp/facility, activity and text are stored as sent |
| PublicRoutes.Submit | routes/public.js:39-91 | all or nothing: on success the complaint row and, exactly when a file was uploaded, an attachment row referencing the new complaint are added; on any failure neither is, and "Something went wrong." is answered |
| PublicRoutes.ChildrenOf | routes/public.js:94-119 | a location look-up returns exactly the {id, name} rows whose parent id is the argument |
| PublicRoutes.ChildrenInTableOrder | routes/public.js:94-119 | the look-up is one {id, name} row per place under the parent, in table order, each as often as stored |
| PublicRoutes.Districts | routes/public.js:95-101 | the districts of the governorate, one row each, and no other |
| PublicRoutes.SubDistricts | routes/public.js:104-110 | the sub-districts of the district, one row each, and no other |
| PublicRoutes.Communities | routes/public.js:113-119 | the communities of the sub-district, one row each, and no other |
| PublicRoutes.ByTrackingId | routes/public.js:134-142 | a complaint with the tracking id (`rows[0]` of a query without ORDER BY promises no particular one), none exactly when no complaint has it |
| PublicRoutes.Track | routes/public.js:130-163 | an unknown tracking id gives "No complaint found with this Tracking ID."; a known one shows that complaint's fields, an assignment's status, follow-up and sensitivity, the assignee of that same assignment exactly when that user exists, a response, and no internal id |
| ComplaintRoutes.RoleThenNameIsTotalOrder | routes/complaints.js:92 | ordering by role, then username, is total and transitive |
| ComplaintRoutes.ChoicesMembership | routes/complaints.js:91-93 | the projection of the user list contains exactly the projected users |
| ComplaintRoutes.AssignableUsers | routes/complaints.js:91-93 | the assignable users are exactly the staff and managers, each row once, no admin, ordered by role then username |
| ComplaintRoutes.ShowAssignForm | routes/complaints.js:72-121 | the form is not rendered when the complaint already has an assignment; otherwise it offers the assignable users and the complaint if it exists |
| ComplaintRoutes.CategoryById | routes/complaints.js:133-136 | the category with the id, none exactly when there is none |
| ComplaintRoutes.WorkingDaysLimit | routes/complaints.js:137 | the category's limit, or 5 when it is NULL or 0; never 0 |
| ComplaintRoutes.NewAssignment | routes/complaints.js:144-149 | the inserted row carries the complaint, the referral and due dates, and the form's user, project, channel, category, follow-up, status and sensitivity |
| ComplaintRoutes.Assign | routes/complaints.js:124-164 | an unknown category fails before any write; otherwise exactly one assignment with the submitted values, referral date today and due date DueDate(today, limit) is added, or on a refused INSERT nothing changes and "Failed to assign complaint." is rendered |
| StaffRoutes.ResolveAssignments | routes/staff.js:142-147 | every assignment of the complaint and user becomes 'resolved', only its status changes, all other rows stay |
| StaffRoutes.Respond | routes/staff.js:108-150 | not assigned: 403, nothing written; already responded: 400, nothing written; otherwise one response is added and the user's assignments are resolved, so a second response is always refused |
| StaffRoutes.ResponseBy | routes/staff.js:91-96 | the user's response to the complaint, none exactly when there is none |
| StaffRoutes.AssignedRows | routes/staff.js:11-49 | the join yields only the user's assignments with their complaints, and every such assignment |
| StaffRoutes.AssignedRowsFollowJoin | routes/staff.js:11-49 | the join has exactly one row per assignment of the user whose complaint exists, in table order |
| StaffRoutes.ShowDashboard | routes/staff.js:8-62 | only complaints assigned to the user, one row per such assignment (a permutation of the join), newest first; 404 exactly when there are none |
| StaffRoutes.AssignmentOf | routes/staff.js:79-82 | the assignment linking the complaint and the user, none exactly when there is none |
| StaffRoutes.ShowComplaint | routes/staff.js:65-105 | the detail is shown only when the complaint exists and is assigned to the user, otherwise 404 |
| NotificationRoutes.NewerFirstIsTotalOrder | routes/notifications.js:17 | ordering by creation time, newest first, is total and transitive |
| NotificationRoutes.OwnedBy | routes/notifications.js:15-16 | exactly the user's own notifications, each as often as stored |
| NotificationRoutes.NewestOwnFirst | routes/notifications.js:14-18 | the user's notifications ordered newest first are sorted and a rearrangement of exactly the user's rows |
| NotificationRoutes.OmittedAreOlder | routes/notifications.js:17-18 | `LIMIT 10` of a newest-first list leaves out nothing newer than the tenth row |
| NotificationRoutes.Recent | routes/notifications.js:14-20 | only the user's notifications, newest first, min(10, their number) of them, and none left out is newer than the tenth |
| NotificationRoutes.RecentRowsOnce | routes/notifications.js:14-20 | the listed rows are a sub-multiset of the user's rows: none is shown twice and none of another user is shown |
| NotificationRoutes.ListNotifications | routes/notifications.js:9-21 | the handler answers 401 exactly when there is no session user or its id is 0; otherwise the user's recent notifications |
| NotificationRoutes.ListBehindLogin | routes/notifications.js:7-12 | requireLogin redirects a missing session user first, so the handler's 401 is reached exactly by a session user with id 0 |
| NotificationRoutes.SetReadChangesOneRow | routes/notifications.js:44-47 | with unique ids, marking read changes that one row and only its read flag |
| NotificationRoutes.SetReadIdempotent | routes/notifications.js:44-47 | marking the same notification read twice gives the same table as once |
| NotificationRoutes.MarkRead | routes/notifications.js:29-53 | a notification that is missing or owned by someone else gives 404 and changes nothing; a refused UPDATE gives "Failed to update notification" and changes nothing; otherwise it alone is marked read |
| UserRoutes.RoleOrDefault | routes/users.js:40 | a missing or empty role becomes "staff", any other is kept |
| UserRoutes.NewUser | routes/users.js:37-41 | the new row stores the hash of the password, which accepts that password and no other, and the defaulted role |
| UserRoutes.CreateUser | routes/users.js:33-51 | a taken email or a refused INSERT renders "Failed to create user. Email might already exist." and adds no row; otherwise exactly the new row is added |
| UserRoutes.DeleteUser | routes/users.js:158-173 | deleting one's own id is refused with "You can't delete your own account." and the table is unchanged; any other id removes exactly the rows with that id |
| UserRoutes.EditUser | routes/users.js:192-211 | fails exactly when the target row exists and another user has the email, or the UPDATE is refused, rendering "Error updating user" and changing nothing; otherwise the target's row only is changed |
| UserRoutes.EditChangesTargetOnly | routes/users.js:197-200 | with unique ids, the edit changes the target's username, email and role, keeps its password, and no other row |
| UserRoutes.ListUsers | routes/users.js:11-20 | every user once, newest first, without password hashes |
| UserRoutes.ViewProfile | routes/users.js:54-76 | the session user's own row without the password, 404 exactly when it is missing |
| UserRoutes.PasswordOf | routes/users.js:100-105 | the stored hash of the user's row, none exactly when the row is missing |
| UserRoutes.RenameKeepsPassword | routes/users.js:90-105 | the rename does not change the hash the password check then reads |
| UserRoutes.PasswordChangeKeepsUsersValid | routes/users.js:111-115 | a password change keeps the users table valid |
| UserRoutes.ProfileTransaction | routes/users.js:84-118 | the transaction commits exactly when the email does not clash (no other user has it, or the user's row is missing), the UPDATE is accepted and, if both password fields are filled in, the current password verifies; the password changes only then; a wrong current password gives "Current password is incorrect" |
| UserRoutes.ProfileTransactionKeepsUsersValid | routes/users.js:84-118 | a committed profile transaction keeps the users table valid |
| UserRoutes.UpdateProfile | routes/users.js:79-155 | a rolled-back transaction changes neither the table nor the session; after COMMIT the session takes the new username and email |
| AuthRoutes.UserByEmail | routes/auth.js:18-21 | a user with the email (`rows[0]` of a query without ORDER BY promises no particular one), none exactly when there is none |
| AuthRoutes.LandingPage | routes/auth.js:35-40 | admins go to /admin/complaints, every other role to /dashboard |
| AuthRoutes.Decide | routes/auth.js:14-45 | unknown email and wrong password both give "Invalid email or password"; otherwise the session user is {id, role, username} of the matching row |
| AuthRoutes.FailuresIndistinguishable | routes/auth.js:21-28 | an unknown email and a wrong password give the identical answer |
| AuthRoutes.OwnCredentialsLogIn | routes/auth.js:17-33 | with unique emails, a user's own email and password log in as that user and any other password is refused |
| AuthRoutes.CreatedUserLogsIn | routes/auth.js:17-40 | a user created through the signup form logs in with the email and password given there, with the defaulted role |
| AuthRoutes.Login | routes/auth.js:14-45 | a refused query or a rejected login leaves the session as it was; a successful one stores the session user and redirects by role |
| AuthRoutes.Logout | routes/auth.js:47-52 | the session user is cleared and the browser redirected to "/" |

## Left out

- server.js (Express wiring, session cookies, static files, views) is not part of this model.
- routes/profile.js is never mounted by server.js; the live /profile is the one in routes/users.js, which is modelled.
- routes/admin.js and the admin complaint list (routes/complaints.js:10-69) are read-only multi-table joins; their display columns are not modelled.
- The GET pages that only render a form (login, signup, /submit, /track, the user edit form) have no logic to model.
- Display columns fetched only for rendering (location and category names, project donor and code, channels, genders) are not modelled; `StaffRoutes.DetailRow` keeps the columns the detail page selects.
- bcrypt's salt and cost factor are not modelled: `Store.Hash` is a deterministic function whose only property is that comparing accepts exactly the hashed password.
- Store.Hash: bcrypt uses only the first 72 bytes of a password, so two passwords that agree there compare equal; the model's hash is injective and does not capture that truncation.
- UserRoutes.NewUser: "the stored hash accepts that password and no other" holds for the model's injective hash; with bcrypt, other passwords sharing the first 72 bytes are accepted too.
- AuthRoutes.OwnCredentialsLogIn: "any other password is refused" likewise holds only up to bcrypt's 72-byte truncation.
- The randomness of `uuidv4()` is not modelled: the UUID is a parameter, and uniqueness of tracking ids is not claimed.
- The upload middleware (disk storage, file naming) is not modelled: the stored file name is a parameter. The 5 MiB limit and the file filter are passed to `multer.diskStorage` instead of `multer()`, so the running program likely enforces neither; `PublicRoutes.AcceptsUpload` is the filter as a standalone function and no upload is claimed to be rejected.
- JavaScript `Date` objects, time zones and ISO formatting are not modelled: `getDay()` uses local time and `toISOString()` UTC, so the stored due date can be a day off; the model works on whole days.
- StaffRoutes.ShowDashboard: the LEFT JOIN on responses gives one row per matching response; the model gives one row per assignment, which agrees while each staff member has at most one response per complaint (`Store.OneResponsePerAuthor` in `Db.Valid`, kept by every handler). The function does not require `Db.Valid`, so on a table with several such responses the source would repeat the assignment and the model would not.
- Concurrency is not modelled: the check-then-write sequences in assign and respond can race.
- Errors of read-only queries are not modelled; the handlers that read only are total functions. This includes the ownership SELECT of NotificationRoutes.MarkRead, whose failure would also answer "Failed to update notification".
- Request parameters arrive as text and are converted by PostgreSQL; the model takes them as integers already.
- UserRoutes.DuplicateEmail: the message names the constraint `users_email_key`, PostgreSQL's default name for a UNIQUE email column of table users; the schema is not part of this model, so that name is assumed.
- PostgreSQL's collation for `ORDER BY role, username` is modelled as code-point order (`Sorting.StrLe`).
- Rows returned without `ORDER BY` (and ties in an `ORDER BY`) come in an order SQL leaves open; the model uses physical order, and `PublicRoutes.Track` takes the first assignment and the first response of the complaint separately.
- PostgreSQL does not give back serial values consumed by a rolled-back INSERT; the model restores the counter.
- How notifications are created is not part of the core; the notifications table is only read and marked.
- HTTP status codes and rendering are reduced to outcome datatypes.
- StaffRoutes.Respond: a statement refused by the database is an unhandled rejection in the handler; the model ends with `Crashed` and states which writes were made.
- UserRoutes.DeleteUser: a refused DELETE is likewise unhandled; the model ends with `DeleteCrashed` and leaves the table unchanged.
- UserRoutes.UpdateProfile: a refused statement other than the first UPDATE (pool.connect, BEGIN, the password UPDATE, COMMIT) is not modelled.
- AuthRoutes.Logout: `req.session.destroy` in logout removes the whole session; the model clears its user, the only part the handlers read.

/** routes/auth.js: logging in and out. */
module AuthRoutes {
  import opened Common
  import opened Store
  import opened Sessions
  import UserRoutes

  const InvalidCredentials := "Invalid email or password"

  /** What the login form's submission leads to. */
  datatype LoginDecision =
    | LoginRejected(error: string)                     // the login page again
    | LoggedIn(user: SessionUser, redirect: string)

  /** `SELECT * FROM users WHERE email = $1`, first row. */
  function UserByEmail(users: seq<User>, email: string): (r: Option<User>)
    ensures r.None? <==> forall u :: u in users ==> u.email != email
    ensures r.Some? ==> r.value in users && r.value.email == email
  {
    First(users, (u: User) => u.email == email)
  }

  /** The session record login stores: id, role and username of the row, and no email. */
  function SessionUserOf(u: User): SessionUser {
    SessionUser(u.id, u.role, u.username, None)
  }

  /** Admins land on the complaint list, everyone else on the staff dashboard. */
  function LandingPage(role: string): (path: string)
    ensures path == "/admin/complaints" <==> role == "admin"
    ensures path != "/admin/complaints" ==> path == "/dashboard"
  {
    if role == "admin" then "/admin/complaints" else "/dashboard"
  }

  /** POST /login: an unknown email and a wrong password give the same answer. */
  function Decide(users: seq<User>, email: string, password: string): (d: LoginDecision)
    ensures d.LoginRejected? <==>
      UserByEmail(users, email).None? || !Compare(password, UserByEmail(users, email).value.password)
    ensures d.LoginRejected? ==> d.error == InvalidCredentials
    ensures d.LoggedIn? ==>
      exists u :: u in users && u.email == email && Compare(password, u.password)
                  && d.user == SessionUserOf(u) && d.redirect == LandingPage(u.role)
  {
    var user := UserByEmail(users, email);
    if user.None? then LoginRejected(InvalidCredentials)
    else if !Compare(password, user.value.password) then LoginRejected(InvalidCredentials)
    else LoggedIn(SessionUserOf(user.value), LandingPage(user.value.role))
  }

  /** The two ways to fail cannot be told apart: an email nobody has and a
      known email with a wrong password produce the identical decision. */
  lemma FailuresIndistinguishable(users: seq<User>, unknownEmail: string, knownEmail: string,
                                  password: string, wrongPassword: string)
    requires forall u :: u in users ==> u.email != unknownEmail
    requires UserByEmail(users, knownEmail).Some?
    requires !Compare(wrongPassword, UserByEmail(users, knownEmail).value.password)
    ensures Decide(users, unknownEmail, password) == Decide(users, knownEmail, wrongPassword)
  {
  }

  /** Emails are unique, so a user's own email and password log in as that
      user, and a different password is rejected. */
  lemma OwnCredentialsLogIn(users: seq<User>, k: int, password: string)
    requires UniqueEmails(users)
    requires 0 <= k < |users| && users[k].password == Hash(password)
    ensures Decide(users, users[k].email, password)
         == LoggedIn(SessionUserOf(users[k]), LandingPage(users[k].role))
    ensures forall other :: other != password ==>
      Decide(users, users[k].email, other) == LoginRejected(InvalidCredentials)
  {
    var found := UserByEmail(users, users[k].email);
    assert users[k] in users;
    var i :| 0 <= i < |users| && users[i] == found.value;
    assert i == k;
  }

  /** A user created through the signup form can log in with the email and
      password given there, and lands on the page of the role stored for them. */
  lemma CreatedUserLogsIn(users: seq<User>, id: int, username: string, email: string,
                          password: string, role: Option<string>, now: int)
    requires UniqueEmails(users)
    requires !UserRoutes.EmailTaken(users, email)
    ensures var created := UserRoutes.NewUser(id, username, email, password, role, now);
      Decide(users + [created], email, password)
        == LoggedIn(SessionUser(id, UserRoutes.RoleOrDefault(role), username, None),
                    LandingPage(UserRoutes.RoleOrDefault(role)))
  {
    var created := UserRoutes.NewUser(id, username, email, password, role, now);
    var all := users + [created];
    assert UniqueEmails(all) by {
      forall i, j | 0 <= i < j < |all| ensures all[i].email != all[j].email {
        if j == |users| {
          assert all[i] in users;
        } else {
          assert all[i] == users[i] && all[j] == users[j];
        }
      }
    }
    OwnCredentialsLogIn(all, |users|, password);
  }

  datatype LoginOutcome =
    | ShowLogin(error: string)     // the login page with this error
    | Redirect(path: string)

  /** POST /login. `queryFails` stands for the SELECT being refused. */
  method Login(db: Db, session: Session, email: string, password: string, queryFails: bool)
    returns (outcome: LoginOutcome)
    modifies session`user
    ensures queryFails ==>
      outcome == ShowLogin("Something went wrong. Please try again.")
      && session.user == old(session.user)
    ensures !queryFails && Decide(db.users, email, password).LoginRejected? ==>
      outcome == ShowLogin(InvalidCredentials) && session.user == old(session.user)
    ensures !queryFails && Decide(db.users, email, password).LoggedIn? ==>
      && session.user == Some(Decide(db.users, email, password).user)
      && outcome == Redirect(Decide(db.users, email, password).redirect)
  {
    if queryFails {
      return ShowLogin("Something went wrong. Please try again.");
    }
    var user := UserByEmail(db.users, email);
    if user.None? {
      return ShowLogin(InvalidCredentials);
    }
    if !Compare(password, user.value.password) {
      return ShowLogin(InvalidCredentials);
    }
    session.user := Some(SessionUserOf(user.value));
    if user.value.role == "admin" {
      return Redirect("/admin/complaints");
    }
    outcome := Redirect("/dashboard");
  }

  /** GET /logout: the session is destroyed and the browser sent to the login page. */
  method Logout(session: Session) returns (outcome: LoginOutcome)
    modifies session`user
    ensures session.user.None?
    ensures outcome == Redirect("/")
  {
    session.user := None;
    outcome := Redirect("/");
  }
}

/**
 * `AuthService`: password login into the session, logout, and the guard
 * that lets only a signed-in session through. The user table look-up and
 * the bcrypt comparison are oracles handed in as functions; whether the
 * identifiers `db` and `bcrypt` are bound at all is the `Scope`.
 */
module Auth {
  import opened Wrappers

  /** The columns of a `user` row that `login` reads; the table has no `name` column. */
  datatype UserRecord = UserRecord(id: int, email: string, passwordHash: string, role: string)

  /** `req.session.user`; `name` copies `user.name`, which is always `undefined`. */
  datatype SessionUser = SessionUser(id: int, name: Option<string>, email: string, role: string)

  /** `db.knex('user').where({ email }).first()`: a throw, no row, or the first row. */
  datatype Found = LookupThrew | NoUser | Found(user: UserRecord)

  /** `bcrypt.compare(password, hash)`: a throw, or whether the password matches. */
  datatype Compared = CompareThrew | Compared(valid: bool)

  datatype Response = Json(status: int, message: string) | Redirect(location: string)

  /** How a login attempt ends. */
  datatype Outcome = Rejected | Failed | Accepted(user: SessionUser)

  /** Which of the two free identifiers of `login` are bound when it runs. */
  datatype Scope = Scope(db: bool, bcrypt: bool)

  /** `auth.js` requires neither module, so both names are unbound. */
  const AsWritten := Scope(false, false)

  /** The scope with `db` and `bcrypt` imported. */
  const Imported := Scope(true, true)

  const InvalidCredentials := Json(401, "Invalid credentials")
  const ServerError := Json(500, "Server error")
  const Dashboard := Redirect("/dashboard")
  const LoginPage := Redirect("/login")

  function SessionUserOf(u: UserRecord): SessionUser {
    SessionUser(u.id, None, u.email, u.role)
  }

  /**
   * The body of the `try` block. An unbound identifier throws a reference
   * error, which the `catch` turns into the same outcome as a throwing
   * oracle.
   */
  function Authenticate(scope: Scope, email: string, password: string,
                        lookup: string -> Found, compare: (string, string) -> Compared): Outcome
  {
    if !scope.db then Failed
    else
      match lookup(email)
      case LookupThrew => Failed
      case NoUser => Rejected
      case Found(u) =>
        if !scope.bcrypt then Failed
        else
          match compare(password, u.passwordHash)
          case CompareThrew => Failed
          case Compared(valid) => if valid then Accepted(SessionUserOf(u)) else Rejected
  }

  /** The response `login` sends for an outcome. */
  function ResponseOf(o: Outcome): (r: Response)
    ensures r == Dashboard <==> o.Accepted?
    ensures r == InvalidCredentials <==> o.Rejected?
    ensures r == ServerError <==> o.Failed?
  {
    match o
    case Rejected => InvalidCredentials
    case Failed => ServerError
    case Accepted(_) => Dashboard
  }

  /**
   * With the modules imported: the record found for the email and a
   * matching password sign in; an unknown email and a wrong password are
   * rejected alike; a throwing oracle is a server error.
   */
  lemma LoginCases(email: string, password: string, lookup: string -> Found, compare: (string, string) -> Compared)
    ensures var o := Authenticate(Imported, email, password, lookup, compare);
      var f := lookup(email);
      && (o.Accepted? <==> f.Found? && compare(password, f.user.passwordHash) == Compared(true))
      && (o.Failed? <==> f.LookupThrew? || (f.Found? && compare(password, f.user.passwordHash).CompareThrew?))
      && (o.Rejected? <==> f.NoUser? || (f.Found? && compare(password, f.user.passwordHash) == Compared(false)))
      && (o.Accepted? ==> o.user == SessionUser(f.user.id, None, f.user.email, f.user.role))
  {
  }

  /** An unknown email and a wrong password get the very same answer, so the response does not tell which. */
  lemma UnknownEmailLooksLikeWrongPassword(email: string, password: string,
                                           lookupA: string -> Found, lookupB: string -> Found,
                                           compare: (string, string) -> Compared)
    requires lookupA(email) == NoUser
    requires lookupB(email).Found? && compare(password, lookupB(email).user.passwordHash) == Compared(false)
    ensures ResponseOf(Authenticate(Imported, email, password, lookupA, compare))
         == ResponseOf(Authenticate(Imported, email, password, lookupB, compare))
  {
  }

  /** As written, every login attempt is a server error, whatever the credentials. */
  lemma AsWrittenAlwaysFails(email: string, password: string, lookup: string -> Found, compare: (string, string) -> Compared)
    ensures Authenticate(AsWritten, email, password, lookup, compare) == Failed
    ensures ResponseOf(Authenticate(AsWritten, email, password, lookup, compare)) == ServerError
  {
  }

  /** A registered user with the right password, refused as written and signed in once imported. */
  lemma AsWrittenRefusesGoodCredentials(u: UserRecord, password: string)
    ensures var lookup := (e: string) => if e == u.email then Found(u) else NoUser;
      var compare := (p: string, h: string) => Compared(p == password && h == u.passwordHash);
      && Authenticate(AsWritten, u.email, password, lookup, compare) == Failed
      && Authenticate(Imported, u.email, password, lookup, compare) == Accepted(SessionUserOf(u))
  {
  }

  /** Whether `requireAuth` calls `next` or answers itself. */
  datatype Guard = Next | Answer(response: Response)

  /** `req.session`. */
  class Session {
    var user: Option<SessionUser>
    var destroyed: bool

    constructor ()
      ensures user == None && !destroyed
    {
      user := None;
      destroyed := false;
    }

    /** `requireAuth`: through to `next` exactly when the session holds a user, else to the login page. */
    function RequireAuth(): (g: Guard)
      reads this
      ensures g == Next <==> user.Some?
      ensures g != Next ==> g == Answer(LoginPage)
    {
      if user.None? then Answer(LoginPage) else Next
    }

    /** `login` with `db` and `bcrypt` imported: only an accepted attempt touches the session. */
    method Login(email: string, password: string, lookup: string -> Found, compare: (string, string) -> Compared)
      returns (r: Response)
      modifies this
      ensures r == ResponseOf(Authenticate(Imported, email, password, lookup, compare))
      ensures user == if r == Dashboard then Some(Authenticate(Imported, email, password, lookup, compare).user)
                      else old(user)
      ensures destroyed == old(destroyed)
      ensures r == Dashboard ==> RequireAuth() == Next
    {
      var outcome := Authenticate(Imported, email, password, lookup, compare);
      if outcome.Accepted? {
        user := Some(outcome.user);
      }
      r := ResponseOf(outcome);
    }

    /** `logout`: the session is destroyed, then the browser goes to the login page. */
    method Logout() returns (r: Response)
      modifies this
      ensures destroyed && user == None
      ensures r == LoginPage
      ensures RequireAuth() == Answer(LoginPage)
    {
      destroyed, user := true, None;
      r := LoginPage;
    }
  }
}

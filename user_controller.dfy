/**
 * controllers/user.go: the login, logout and registration pipelines. Like
 * the post handlers, each is a function over the relational state and the
 * session state, a handler method proved to agree with it, and lemmas for
 * what the pipeline promises. `salt` is the randomness bcrypt draws and
 * `now` the clock reading the store stamps rows with.
 */
module UserController {
  import opened Wrappers
  import opened Models
  import opened Relational
  import opened Http
  import opened Sessions
  import opened Store
  import Bcrypt

  const HomePath: string := "/"

  /** How a handler ends, with the tables and the session after it. */
  datatype Effect = Effect(out: Outcome, tables: Tables, session: SessionState)

  // ------------------------------------------------------------ the pipelines

  /** LoginFormHandler */
  function LoginForm(user: Option<User>): Outcome {
    if user.Some? then Redirect(HomePath) else Render(LoginPage)
  }

  /** RegisterFormHandler */
  function RegisterForm(user: Option<User>): Outcome {
    if user.Some? then Redirect(HomePath) else Render(RegisterPage)
  }

  /** LoginProcessHandler */
  ghost function LoginProcess(req: Request, storeOpen: bool, t: Tables, s: SessionState): Effect
    requires Valid(t)
  {
    if req.verb != MethodPost then Effect(Error(StatusMethodNotAllowed, MsgMethodNotAllowed), t, s)
    else
      var username := FormValue(req, "username");
      var password := FormValue(req, "password");
      if username == "" || password == "" then Effect(Error(StatusBadRequest, MsgEmptyLogin), t, s)
      else if !storeOpen then Effect(Error(StatusInternalServerError, MsgServerError), t, s)
      else match AuthenticateUser(t, username, password)
        case Failure(_) => Effect(Error(StatusUnauthorized, MsgBadCredentials), t, s)
        case Success(u) =>
          match SetUser(s, u)
          case Failure(_) => Effect(Error(StatusInternalServerError, MsgCannotCreateSession), t, s)
          case Success(s') => Effect(Redirect(HomePath), t, s')
  }

  /** LogoutHandler: ClearUserSession's error is ignored. */
  function Logout(t: Tables, s: SessionState): Effect {
    match ClearUser(s)
    case Failure(_) => Effect(Redirect(HomePath), t, s)
    case Success(s') => Effect(Redirect(HomePath), t, s')
  }

  /**
   * RegisterProcessHandler. The two lookups read `checked` and the INSERT
   * writes `current`: the handler runs them as separate statements with no
   * transaction, so another request may commit in between. Run alone, the
   * two are the same state.
   */
  function RegisterProcess(req: Request, storeOpen: bool, checked: Tables, current: Tables, s: SessionState, salt: Bcrypt.Salt, now: Time): Effect {
    if req.verb != MethodPost then Effect(Error(StatusMethodNotAllowed, MsgMethodNotAllowed), current, s)
    else
      var username := FormValue(req, "username");
      var email := FormValue(req, "email");
      var password := FormValue(req, "password");
      if username == "" || email == "" || password == "" then Effect(Error(StatusBadRequest, MsgEmptyRegistration), current, s)
      else if password != FormValue(req, "confirm_password") then Effect(Error(StatusBadRequest, MsgPasswordMismatch), current, s)
      else if !storeOpen then Effect(Error(StatusInternalServerError, MsgServerError), current, s)
      else if UsernameTaken(checked, username) then Effect(Error(StatusConflict, MsgUsernameExists), current, s)
      else if EmailTaken(checked, email) then Effect(Error(StatusConflict, MsgEmailExists), current, s)
      else match InsertUser(current, username, email, Bcrypt.Hash(salt, password), now)
        case Failure(_) => Effect(Error(StatusInternalServerError, MsgCannotCreateUser), current, s)
        case Success(t') =>
          var user := User(current.userSeq + 1, username, email, password, now, now);
          match SetUser(s, user)
          case Failure(_) => Effect(Error(StatusInternalServerError, MsgCannotCreateSession), t', s)
          case Success(s') => Effect(Redirect(HomePath), t', s')
  }

  // ------------------------------------------------------------ the handlers

  method LoginFormHandler(session: Session) returns (out: Outcome)
    requires session.Valid()
    ensures out == LoginForm(GetUserFromSession(session.State()))
  {
    var user := GetUserFromSession(session.State());
    if user.Some? {
      return Redirect(HomePath);
    }
    out := Render(LoginPage);
  }

  method RegisterFormHandler(session: Session) returns (out: Outcome)
    requires session.Valid()
    ensures out == RegisterForm(GetUserFromSession(session.State()))
  {
    var user := GetUserFromSession(session.State());
    if user.Some? {
      return Redirect(HomePath);
    }
    out := Render(RegisterPage);
  }

  method LoginProcessHandler(req: Request, session: Session, db: SQLiteStore, storeOpen: bool) returns (out: Outcome)
    requires session.Valid() && db.Valid()
    modifies session
    ensures session.Valid()
    ensures Effect(out, db.State(), session.State()) == LoginProcess(req, storeOpen, db.State(), old(session.State()))
  {
    if req.verb != MethodPost {
      return Error(StatusMethodNotAllowed, MsgMethodNotAllowed);
    }
    var username := FormValue(req, "username");
    var password := FormValue(req, "password");
    if username == "" || password == "" {
      return Error(StatusBadRequest, MsgEmptyLogin);
    }
    if !storeOpen {
      return Error(StatusInternalServerError, MsgServerError);
    }
    var user := db.Authenticate(username, password);
    if user.Failure? {
      return Error(StatusUnauthorized, MsgBadCredentials);
    }
    var err := session.SetUserSession(user.value);
    if err.Some? {
      return Error(StatusInternalServerError, MsgCannotCreateSession);
    }
    out := Redirect(HomePath);
  }

  method LogoutHandler(session: Session, db: SQLiteStore) returns (out: Outcome)
    requires session.Valid()
    modifies session
    ensures session.Valid()
    ensures Effect(out, db.State(), session.State()) == Logout(db.State(), old(session.State()))
  {
    var _ := session.ClearUserSession();
    out := Redirect(HomePath);
  }

  method RegisterProcessHandler(req: Request, session: Session, db: SQLiteStore, storeOpen: bool, salt: Bcrypt.Salt, now: Time)
    returns (out: Outcome)
    requires session.Valid() && db.Valid()
    modifies session, db
    ensures session.Valid() && db.Valid()
    ensures Effect(out, db.State(), session.State())
      == RegisterProcess(req, storeOpen, old(db.State()), old(db.State()), old(session.State()), salt, now)
  {
    if req.verb != MethodPost {
      return Error(StatusMethodNotAllowed, MsgMethodNotAllowed);
    }
    var username := FormValue(req, "username");
    var email := FormValue(req, "email");
    var password := FormValue(req, "password");
    var confirmPassword := FormValue(req, "confirm_password");
    if username == "" || email == "" || password == "" {
      return Error(StatusBadRequest, MsgEmptyRegistration);
    }
    if password != confirmPassword {
      return Error(StatusBadRequest, MsgPasswordMismatch);
    }
    var user := User(0, username, email, password, ZeroTime, ZeroTime);
    if !storeOpen {
      return Error(StatusInternalServerError, MsgServerError);
    }
    var byName := db.FindUserByUsername(username);
    if byName.Success? {
      return Error(StatusConflict, MsgUsernameExists);
    }
    var byEmail := db.FindUserByEmail(email);
    if byEmail.Success? {
      return Error(StatusConflict, MsgEmailExists);
    }
    var created := db.CreateUser(user, salt, now);
    if created.Failure? {
      return Error(StatusInternalServerError, MsgCannotCreateUser);
    }
    var err := session.SetUserSession(created.value);
    if err.Some? {
      return Error(StatusInternalServerError, MsgCannotCreateSession);
    }
    out := Redirect(HomePath);
  }

  // ------------------------------------------------------------ properties

  /** Login and registration answer 405 to anything but POST, and change nothing. */
  lemma OnlyPostIsAllowed(req: Request, storeOpen: bool, t: Tables, s: SessionState, salt: Bcrypt.Salt, now: Time)
    requires Valid(t) && req.verb != MethodPost
    ensures LoginProcess(req, storeOpen, t, s) == Effect(Error(StatusMethodNotAllowed, MsgMethodNotAllowed), t, s)
    ensures RegisterProcess(req, storeOpen, t, t, s, salt, now) == Effect(Error(StatusMethodNotAllowed, MsgMethodNotAllowed), t, s)
  {
  }

  /** Login with an empty username or password: 400. */
  lemma LoginNeedsBothFields(req: Request, storeOpen: bool, t: Tables, s: SessionState)
    requires Valid(t) && req.verb == MethodPost
    requires FormValue(req, "username") == "" || FormValue(req, "password") == ""
    ensures LoginProcess(req, storeOpen, t, s) == Effect(Error(StatusBadRequest, MsgEmptyLogin), t, s)
  {
  }

  /**
   * An unknown username and a wrong password get the same 401 and leave the
   * session alone, although the store reports them as different errors.
   */
  lemma LoginFailuresLookAlike(req: Request, t: Tables, s: SessionState)
    requires Valid(t) && req.verb == MethodPost
    requires FormValue(req, "username") != "" && FormValue(req, "password") != ""
    requires !Authenticates(t, FormValue(req, "username"), FormValue(req, "password"))
    ensures LoginProcess(req, true, t, s) == Effect(Error(StatusUnauthorized, MsgBadCredentials), t, s)
  {
  }

  /**
   * A successful login redirects to / and leaves in the session (and in the
   * cookie the response carries) the id, username and email of the user the
   * password verified for.
   */
  lemma {:induction false} LoginSignsIn(req: Request, t: Tables, s: SessionState)
    requires Valid(t) && req.verb == MethodPost
    requires WellFormed(s.values) && s.loadOk
    requires FormValue(req, "username") != "" && FormValue(req, "password") != ""
    requires Authenticates(t, FormValue(req, "username"), FormValue(req, "password"))
    requires t.userSeq < ExactLimit
    ensures var e := LoginProcess(req, true, t, s);
      var u := AuthenticateUser(t, FormValue(req, "username"), FormValue(req, "password")).value;
      && e.out == Redirect(HomePath)
      && e.tables == t
      && WellFormed(e.session.values)
      && GetUserFromSession(e.session) == Some(User(u.id, FormValue(req, "username"), u.email, "", ZeroTime, ZeroTime))
      && GetUserFromSession(Load(e.session.written.value)) == GetUserFromSession(e.session)
  {
    var u := AuthenticateUser(t, FormValue(req, "username"), FormValue(req, "password")).value;
    SetThenGet(s, u);
  }

  /** Registration with a missing field or a mismatched confirmation: 400 and no user. */
  lemma RegisterValidatesForm(req: Request, storeOpen: bool, t: Tables, s: SessionState, salt: Bcrypt.Salt, now: Time)
    requires req.verb == MethodPost
    requires || FormValue(req, "username") == "" || FormValue(req, "email") == "" || FormValue(req, "password") == ""
             || FormValue(req, "password") != FormValue(req, "confirm_password")
    ensures var e := RegisterProcess(req, storeOpen, t, t, s, salt, now);
      && e.out.Error? && e.out.status == StatusBadRequest
      && e.tables == t && e.session == s
  {
  }

  /**
   * A taken username answers 409 "username exists" whether or not the email
   * is taken too; the email is only checked after it.
   */
  lemma RegisterConflicts(req: Request, t: Tables, s: SessionState, salt: Bcrypt.Salt, now: Time)
    requires req.verb == MethodPost
    requires FormValue(req, "username") != "" && FormValue(req, "email") != "" && FormValue(req, "password") != ""
    requires FormValue(req, "password") == FormValue(req, "confirm_password")
    ensures UsernameTaken(t, FormValue(req, "username")) ==>
      RegisterProcess(req, true, t, t, s, salt, now) == Effect(Error(StatusConflict, MsgUsernameExists), t, s)
    ensures !UsernameTaken(t, FormValue(req, "username")) && EmailTaken(t, FormValue(req, "email")) ==>
      RegisterProcess(req, true, t, t, s, salt, now) == Effect(Error(StatusConflict, MsgEmailExists), t, s)
  {
  }

  /**
   * A duplicate that another request committed after the lookups is stopped
   * by the UNIQUE constraint, and surfaces as 500 rather than 409.
   */
  lemma RegisterRaceIsServerError(req: Request, checked: Tables, current: Tables, s: SessionState, salt: Bcrypt.Salt, now: Time)
    requires req.verb == MethodPost
    requires FormValue(req, "username") != "" && FormValue(req, "email") != "" && FormValue(req, "password") != ""
    requires FormValue(req, "password") == FormValue(req, "confirm_password")
    requires !UsernameTaken(checked, FormValue(req, "username")) && !EmailTaken(checked, FormValue(req, "email"))
    requires UsernameTaken(current, FormValue(req, "username")) || EmailTaken(current, FormValue(req, "email"))
    ensures RegisterProcess(req, true, checked, current, s, salt, now)
      == Effect(Error(StatusInternalServerError, MsgCannotCreateUser), current, s)
  {
    InsertUserRejectsDuplicates(current, FormValue(req, "username"), FormValue(req, "email"),
      Bcrypt.Hash(salt, FormValue(req, "password")), now);
  }

  /**
   * A successful registration stores the user with the bcrypt hash of the
   * password, signs the new user in and redirects to /; the same
   * credentials then log in as that user and no other password does.
   */
  lemma {:induction false} RegisterSignsIn(req: Request, t: Tables, s: SessionState, salt: Bcrypt.Salt, now: Time)
    requires Valid(t) && req.verb == MethodPost
    requires WellFormed(s.values) && s.loadOk
    requires FormValue(req, "username") != "" && FormValue(req, "email") != "" && FormValue(req, "password") != ""
    requires FormValue(req, "password") == FormValue(req, "confirm_password")
    requires !UsernameTaken(t, FormValue(req, "username")) && !EmailTaken(t, FormValue(req, "email"))
    requires t.userSeq + 1 < ExactLimit
    ensures var e := RegisterProcess(req, true, t, t, s, salt, now);
      var id := t.userSeq + 1;
      var username := FormValue(req, "username");
      var password := FormValue(req, "password");
      && e.out == Redirect(HomePath)
      && Valid(e.tables)
      && e.tables.posts == t.posts
      && e.tables.users == t.users[id := UserRow(username, FormValue(req, "email"), Bcrypt.Hash(salt, password), now, now)]
      && e.tables.users[id].password != password
      && WellFormed(e.session.values)
      && GetUserFromSession(e.session) == Some(User(id, username, FormValue(req, "email"), "", ZeroTime, ZeroTime))
      && Authenticates(e.tables, username, password)
      && (forall wrong :: wrong != password ==> !Authenticates(e.tables, username, wrong))
  {
    var username := FormValue(req, "username");
    var email := FormValue(req, "email");
    var password := FormValue(req, "password");
    var user := User(t.userSeq + 1, username, email, password, now, now);
    InsertUserStoresHash(t, username, email, salt, password, now);
    RegisterThenAuthenticate(t, username, email, salt, password, now);
    SetThenGet(s, user);
    var t' := InsertUser(t, username, email, Bcrypt.Hash(salt, password), now).value;
    assert RegisterProcess(req, true, t, t, s, salt, now) == Effect(Redirect(HomePath), t', SetUser(s, user).value);
  }

  /**
   * When the session cannot be written (the request's cookie did not
   * decode), registration answers 500, yet the user row is already stored.
   */
  lemma RegisterWithBadCookieStillCreates(req: Request, t: Tables, s: SessionState, salt: Bcrypt.Salt, now: Time)
    requires Valid(t) && req.verb == MethodPost && !s.loadOk
    requires FormValue(req, "username") != "" && FormValue(req, "email") != "" && FormValue(req, "password") != ""
    requires FormValue(req, "password") == FormValue(req, "confirm_password")
    requires !UsernameTaken(t, FormValue(req, "username")) && !EmailTaken(t, FormValue(req, "email"))
    requires t.userSeq < MaxRowId
    ensures var e := RegisterProcess(req, true, t, t, s, salt, now);
      && e.out == Error(StatusInternalServerError, MsgCannotCreateSession)
      && e.session == s
      && t.userSeq + 1 in e.tables.users && t.userSeq + 1 !in t.users
  {
    InsertUserStoresHash(t, FormValue(req, "username"), FormValue(req, "email"), salt, FormValue(req, "password"), now);
  }

  /** The login and register forms send a signed-in user home. */
  lemma FormsSendSignedInUsersHome(u: User)
    ensures LoginForm(Some(u)) == Redirect(HomePath) && RegisterForm(Some(u)) == Redirect(HomePath)
    ensures LoginForm(None) == Render(LoginPage) && RegisterForm(None) == Render(RegisterPage)
  {
  }

  /** Logout always redirects home, and afterwards no user is in the session or in the cookie. */
  lemma {:induction false} LogoutSignsOut(t: Tables, s: SessionState)
    requires WellFormed(s.values)
    ensures var e := Logout(t, s);
      && e.out == Redirect(HomePath)
      && e.tables == t
      && WellFormed(e.session.values)
      && GetUserFromSession(e.session) == None
      && (s.loadOk ==> e.session.written == Some(NoCookie))
  {
    if s.loadOk {
      ClearThenGet(s);
    }
  }

  /** Register then log in with the same credentials: signed in as the new user. */
  lemma {:induction false} RegisterThenLogin(register: Request, login: Request, t: Tables, s: SessionState, s2: SessionState, salt: Bcrypt.Salt, now: Time)
    requires Valid(t) && register.verb == MethodPost && login.verb == MethodPost
    requires WellFormed(s.values) && s.loadOk && WellFormed(s2.values) && s2.loadOk
    requires FormValue(register, "username") != "" && FormValue(register, "email") != "" && FormValue(register, "password") != ""
    requires FormValue(register, "password") == FormValue(register, "confirm_password")
    requires !UsernameTaken(t, FormValue(register, "username")) && !EmailTaken(t, FormValue(register, "email"))
    requires t.userSeq + 1 < ExactLimit
    requires FormValue(login, "username") == FormValue(register, "username")
    requires FormValue(login, "password") == FormValue(register, "password")
    ensures var t' := RegisterProcess(register, true, t, t, s, salt, now).tables;
      && Valid(t')
      && var e := LoginProcess(login, true, t', s2);
      && e.out == Redirect(HomePath)
      && WellFormed(e.session.values)
      && GetUserFromSession(e.session).Some?
      && GetUserFromSession(e.session).value.id == t.userSeq + 1
  {
    var t' := RegisterProcess(register, true, t, t, s, salt, now).tables;
    RegisterSignsIn(register, t, s, salt, now);
    var u := AuthenticateUser(t', FormValue(login, "username"), FormValue(login, "password")).value;
    assert u.id == t.userSeq + 1;
    SetThenGet(s2, u);
  }
}

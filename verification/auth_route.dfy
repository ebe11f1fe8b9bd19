/** The account routes: registration, login, token refresh, reading and
    updating one's profile, and changing one's password. Token signing is
    an oracle (`sign` for access tokens, `signRefresh` for refresh tokens),
    and so is refresh-token verification (`None` when it throws). The
    profile routes run behind `AuthMiddleware.Authenticate` and receive its
    claims. */
module AuthRoute {
  import opened Core
  import opened Text
  import opened Models
  import Store
  import AuthMiddleware

  type Claims = AuthMiddleware.Claims

  datatype Tokens = Tokens(access_token: string, refresh_token: string)

  /** The claims both tokens carry for a stored user. */
  function ClaimsOf(u: UserDoc): AuthMiddleware.Claims {
    AuthMiddleware.Claims(u.id, u.email, u.role)
  }

  function TokensFor(u: UserDoc, sign: Claims -> string, signRefresh: Claims -> string): (t: Tokens)
    ensures t.access_token == sign(ClaimsOf(u)) && t.refresh_token == signRefresh(ClaimsOf(u))
  {
    Tokens(sign(ClaimsOf(u)), signRefresh(ClaimsOf(u)))
  }

  // ---------------------------------------------------------------------------
  // POST /register

  datatype Registration = Registration(email: Option<string>, password: Option<string>, name: Option<string>, role: Option<string>)

  datatype RegisterResponse =
    | RegisterMissing     // 400 "Email, password, and name are required"
    | RegisterConflict    // 409 "User with this email already exists"
    | RegisterFailed      // 500: schema validation, an unknown role, or the unique index
    | Registered(user: UserDoc, tokens: Tokens)

  /** The role the body asks for, `role || 'customer'`, when it names one. */
  function RoleAsked(role: Option<string>): Option<Role>
  {
    ParseRole(if IsTruthy(role) then role.value else "customer")
  }

  /** `POST /register`: any caller may pick the role, `admin` included. */
  function Register(body: Registration, db: Store.Db, newId: string, sign: Claims -> string, signRefresh: Claims -> string)
    : (r: (RegisterResponse, Store.Db))
    ensures r.0 == RegisterMissing <==> !IsTruthy(body.email) || !IsTruthy(body.password) || !IsTruthy(body.name)
    ensures r.0 == RegisterConflict <==> r.0 != RegisterMissing && FindByEmail(db.users, body.email.value).Some?
    ensures !r.0.Registered? ==> r.1 == db
    ensures r.0.Registered? ==>
      var u := r.0.user;
      r.1 == db.(users := db.users + [u]) && u.id == newId &&
      Some(u.role) == RoleAsked(body.role) && u.isActive && u.preferences == DefaultPreferences &&
      u.email == NormalizeEmail(body.email.value) && u.password == Hash(body.password.value) &&
      r.0.tokens == TokensFor(u, sign, signRefresh)
  {
    if !IsTruthy(body.email) || !IsTruthy(body.password) || !IsTruthy(body.name) then (RegisterMissing, db)
    else if FindByEmail(db.users, body.email.value).Some? then (RegisterConflict, db)
    else match RoleAsked(body.role)
      case None => (RegisterFailed, db)
      case Some(role) =>
        var doc := UserDoc(newId, body.email.value, Plain(body.password.value), body.name.value, role, true, DefaultPreferences);
        match SaveUser(doc)
        case None => (RegisterFailed, db)
        case Some(u) =>
          if exists i | 0 <= i < |db.users| :: db.users[i].email == u.email then (RegisterFailed, db)
          else (Registered(u, TokensFor(u, sign, signRefresh)), db.(users := db.users + [u]))
  }

  /** Registration lets the caller choose the `admin` role: its access
      token, presented as a Bearer header, passes the admin routes' guard. */
  lemma {:induction false} SelfRegisteredAdmin(body: Registration, db: Store.Db, newId: string, sign: Claims -> string,
                            signRefresh: Claims -> string, verify: string -> Option<Claims>)
    requires body.role == Some("admin") && Register(body, db, newId, sign, signRefresh).0.Registered?
    requires var u := Register(body, db, newId, sign, signRefresh).0.user; verify(sign(ClaimsOf(u))) == Some(ClaimsOf(u))
    ensures var r := Register(body, db, newId, sign, signRefresh);
      AuthMiddleware.AdminChain(Some(AuthMiddleware.BearerPrefix + r.0.tokens.access_token), verify, r.1.users).Pass?
  {
    var r := Register(body, db, newId, sign, signRefresh);
    AuthMiddleware.BearerRoundTrip(r.0.tokens.access_token);
    assert (db.users + [r.0.user])[|db.users|] == r.0.user;
  }

  // ---------------------------------------------------------------------------
  // POST /login

  datatype LoginResponse =
    | LoginMissing        // 400 "Email and password are required"
    | UnknownEmail        // 401 "Invalid email or password"
    | AccountInactive     // 403 "Account is inactive. Please contact support."
    | WrongPassword       // 401 "Invalid email or password"
    | LoggedIn(user: UserDoc, tokens: Tokens)

  /** `POST /login`: missing fields, then the email lookup, then the active
      flag, then the password, each with its own answer. */
  function Login(email: Option<string>, password: Option<string>, db: Store.Db,
                 sign: Claims -> string, signRefresh: Claims -> string): (r: LoginResponse)
    ensures r == LoginMissing <==> !IsTruthy(email) || !IsTruthy(password)
    ensures r == UnknownEmail <==> r != LoginMissing && FindByEmail(db.users, email.value).None?
    ensures r == AccountInactive <==>
      r != LoginMissing && FindByEmail(db.users, email.value).Some? && !db.users[FindByEmail(db.users, email.value).value].isActive
    ensures r.LoggedIn? ==>
      var i := FindByEmail(db.users, email.value).value;
      r.user == db.users[i] && r.user.isActive && ComparePassword(r.user.password, password.value) &&
      r.tokens == TokensFor(r.user, sign, signRefresh)
    ensures r == WrongPassword ==>
      var i := FindByEmail(db.users, email.value).value;
      db.users[i].isActive && !ComparePassword(db.users[i].password, password.value)
  {
    if !IsTruthy(email) || !IsTruthy(password) then LoginMissing
    else match FindByEmail(db.users, email.value)
      case None => UnknownEmail
      case Some(i) =>
        var u := db.users[i];
        if !u.isActive then AccountInactive
        else if !ComparePassword(u.password, password.value) then WrongPassword
        else LoggedIn(u, TokensFor(u, sign, signRefresh))
  }

  /** A user who registered can log in straight away with the same email,
      however it was padded or capitalised, and the same password. */
  lemma {:induction false} RegisterThenLogin(body: Registration, db: Store.Db, newId: string, sign: Claims -> string, signRefresh: Claims -> string)
    requires Register(body, db, newId, sign, signRefresh).0.Registered?
    ensures var r := Register(body, db, newId, sign, signRefresh);
      Login(body.email, body.password, r.1, sign, signRefresh) == LoggedIn(r.0.user, r.0.tokens)
  {
    var r := Register(body, db, newId, sign, signRefresh);
    var u := r.0.user;
    FindByEmailAppended(db.users, u, body.email.value);
  }

  /** bcrypt reads only 72 bytes of key: whoever can log in with a password
      of 72 or more characters can also log in with any extension of it. */
  lemma {:induction false} LoginIgnoresPastKey(email: Option<string>, p: string, tail: string, db: Store.Db,
                            sign: Claims -> string, signRefresh: Claims -> string)
    requires |p| >= 72
    requires Login(email, Some(p), db, sign, signRefresh).LoggedIn?
    ensures Login(email, Some(p + tail), db, sign, signRefresh) == Login(email, Some(p), db, sign, signRefresh)
  {
    var i := FindByEmail(db.users, email.value).value;
    LongPasswordIgnoresTail(p, tail);
    assert db.users[i].password == Hash(p);
  }

  // ---------------------------------------------------------------------------
  // POST /refresh

  datatype RefreshResponse =
    | RefreshMissing      // 400 "Refresh token is required"
    | RefreshRejected     // 401: the token does not verify, or its user is missing or inactive
    | Refreshed(tokens: Tokens)

  /** `POST /refresh`: the new tokens carry the stored user's current email
      and role, not those of the old token. */
  function Refresh(refreshToken: Option<string>, db: Store.Db, verifyRefresh: string -> Option<Claims>,
                   sign: Claims -> string, signRefresh: Claims -> string): (r: RefreshResponse)
    ensures r == RefreshMissing <==> !IsTruthy(refreshToken)
    ensures r.Refreshed? <==>
      IsTruthy(refreshToken) && verifyRefresh(refreshToken.value).Some? &&
      AuthMiddleware.ActiveUser(db.users, verifyRefresh(refreshToken.value).value.userId)
    ensures r.Refreshed? ==>
      var i := FindById(db.users, verifyRefresh(refreshToken.value).value.userId).value;
      r.tokens == TokensFor(db.users[i], sign, signRefresh)
  {
    if !IsTruthy(refreshToken) then RefreshMissing
    else match verifyRefresh(refreshToken.value)
      case None => RefreshRejected
      case Some(claims) =>
        match FindById(db.users, claims.userId)
        case None => RefreshRejected
        case Some(i) => if !db.users[i].isActive then RefreshRejected else Refreshed(TokensFor(db.users[i], sign, signRefresh))
  }

  // ---------------------------------------------------------------------------
  // GET /me and PUT /me

  datatype ProfileResponse = ProfileNotFound | ProfileFailed | Profile(user: UserDoc)

  function GetProfile(claims: Claims, db: Store.Db): (r: ProfileResponse)
    ensures r.ProfileNotFound? <==> FindById(db.users, claims.userId).None?
    ensures r.Profile? ==> r.user.id == claims.userId && r.user in db.users
  {
    match FindById(db.users, claims.userId)
    case None => ProfileNotFound
    case Some(i) => Profile(db.users[i])
  }

  /** `PUT /me`: a truthy name replaces the stored one and preferences are
      merged shallowly; the email, role, active flag and password are not
      taken from the request. */
  function UpdateProfile(claims: Claims, name: Option<string>, preferences: Option<Preferences>, db: Store.Db)
    : (r: (ProfileResponse, Store.Db))
    ensures r.0.ProfileNotFound? <==> FindById(db.users, claims.userId).None?
    ensures !r.0.Profile? ==> r.1 == db
    ensures r.0.Profile? ==>
      var i := FindById(db.users, claims.userId).value; var prev := db.users[i]; var u := r.0.user;
      r.1 == db.(users := db.users[i := u]) &&
      u.id == prev.id && u.role == prev.role && u.isActive == prev.isActive &&
      u.email == NormalizeEmail(prev.email) &&
      u.name == Trim(if IsTruthy(name) then name.value else prev.name) &&
      u.preferences == (if preferences.Some? then MergePreferences(prev.preferences, preferences.value) else prev.preferences)
  {
    match FindById(db.users, claims.userId)
    case None => (ProfileNotFound, db)
    case Some(i) =>
      var prev := db.users[i];
      var edited := prev.(name := if IsTruthy(name) then name.value else prev.name,
                          preferences := if preferences.Some? then MergePreferences(prev.preferences, preferences.value) else prev.preferences);
      match SaveUser(edited)
      case None => (ProfileFailed, db)
      case Some(u) => (Profile(u), db.(users := db.users[i := u]))
  }

  // ---------------------------------------------------------------------------
  // PUT /change-password

  datatype PasswordResponse =
    | PasswordMissing     // 400 "Current password and new password are required"
    | PasswordTooShort    // 400 "New password must be at least 6 characters long"
    | PasswordUserMissing // 404
    | PasswordIncorrect   // 401 "Current password is incorrect"
    | PasswordFailed      // 500
    | PasswordChanged

  const MinPasswordLength := 6

  /** `PUT /change-password`: both fields, then the new one's length, then
      the user, then the current password; only then is the password
      replaced (and hashed on save). */
  function ChangePassword(claims: Claims, currentPassword: Option<string>, newPassword: Option<string>, db: Store.Db)
    : (r: (PasswordResponse, Store.Db))
    ensures r.0 == PasswordMissing <==> !IsTruthy(currentPassword) || !IsTruthy(newPassword)
    ensures r.0 == PasswordTooShort <==> r.0 != PasswordMissing && Utf16Length(newPassword.value) < MinPasswordLength
    ensures !r.0.PasswordChanged? ==> r.1 == db
    ensures r.0.PasswordChanged? ==>
      FindById(db.users, claims.userId).Some? &&
      var i := FindById(db.users, claims.userId).value; var prev := db.users[i];
      ComparePassword(prev.password, currentPassword.value) &&
      |r.1.users| == |db.users| &&
      var u := r.1.users[i];
      r.1 == db.(users := db.users[i := u]) &&
      ComparePassword(u.password, newPassword.value) &&
      (BcryptKey(currentPassword.value) != BcryptKey(newPassword.value) ==> !ComparePassword(u.password, currentPassword.value)) &&
      u.id == prev.id && u.role == prev.role && u.isActive == prev.isActive
  {
    if !IsTruthy(currentPassword) || !IsTruthy(newPassword) then (PasswordMissing, db)
    else if Utf16Length(newPassword.value) < MinPasswordLength then (PasswordTooShort, db)
    else match FindById(db.users, claims.userId)
      case None => (PasswordUserMissing, db)
      case Some(i) =>
        if !ComparePassword(db.users[i].password, currentPassword.value) then (PasswordIncorrect, db)
        else match SaveUser(db.users[i].(password := Plain(newPassword.value)))
          case None => (PasswordFailed, db)
          case Some(u) => (PasswordChanged, db.(users := db.users[i := u]))
  }
}

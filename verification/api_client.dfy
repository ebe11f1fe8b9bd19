/** The browser's API client: the request interceptor that attaches the
    stored access token, the response interceptor that picks the message a
    failed request shows, the session keys kept in `localStorage`, and the
    request bodies of the two token-related calls as the server reads them.
    `localStorage` is a map from keys to strings. */
module ApiClient {
  import opened Core
  import opened Text
  import opened Models
  import Store
  import AuthMiddleware
  import AuthRoute

  // ---------------------------------------------------------------------------
  // Interceptors

  /** The `Authorization` header a request gets: `Bearer <token>` exactly
      when an access token is stored (and non-empty). */
  function AuthorizationHeader(accessToken: Option<string>): (h: Option<string>)
    ensures h.Some? <==> IsTruthy(accessToken)
    ensures h.Some? ==> h.value == AuthMiddleware.BearerPrefix + accessToken.value
  {
    if IsTruthy(accessToken) then Some(AuthMiddleware.BearerPrefix + accessToken.value) else None
  }

  /** The server reads back exactly the token the client attached. */
  lemma {:induction false} HeaderCarriesToken(accessToken: Option<string>)
    requires IsTruthy(accessToken)
    ensures AuthMiddleware.BearerToken(AuthorizationHeader(accessToken)) == accessToken
  {
    AuthMiddleware.BearerRoundTrip(accessToken.value);
  }

  /** What the response interceptor sees of a failed request. */
  datatype RequestError = RequestError(code: Option<string>, message: string, status: Option<int>, dataError: Option<string>)

  const ConnectionMessage := "Cannot connect to the server. Please ensure the backend is running."
  const SessionMessage := "Authentication failed. Please login again."
  const DeniedMessage := "Access denied. You do not have permission for this action."
  const GenericMessage := "An unexpected error occurred"

  /** The `userMessage` a failure gets, by priority: no connection, 401,
      403, the server's `error` field, the error's own message, then a
      generic text. */
  function UserMessage(e: RequestError): (m: string)
    ensures (e.code == Some("ECONNREFUSED") || Contains(e.message, "Network Error")) ==> m == ConnectionMessage
    ensures !(e.code == Some("ECONNREFUSED") || Contains(e.message, "Network Error")) ==>
      (e.status == Some(401) ==> m == SessionMessage) &&
      (e.status == Some(403) ==> m == DeniedMessage) &&
      (e.status != Some(401) && e.status != Some(403) && IsTruthy(e.dataError) ==> m == e.dataError.value) &&
      (e.status != Some(401) && e.status != Some(403) && !IsTruthy(e.dataError) ==>
        m == (if |e.message| > 0 then e.message else GenericMessage))
  {
    if e.code == Some("ECONNREFUSED") || Contains(e.message, "Network Error") then ConnectionMessage
    else if e.status == Some(401) then SessionMessage
    else if e.status == Some(403) then DeniedMessage
    else if IsTruthy(e.dataError) then e.dataError.value
    else if |e.message| > 0 then e.message
    else GenericMessage
  }

  /** Every answer of the admin guard, received over a working connection,
      shows the session or the permission message, never the server's text. */
  lemma {:induction false} GuardRejectionMessages(header: Option<string>, verify: string -> Option<AuthMiddleware.Claims>,
                               users: seq<UserDoc>, message: string)
    requires AuthMiddleware.AdminChain(header, verify, users).Reject?
    requires !Contains(message, "Network Error")
    ensures var g := AuthMiddleware.AdminChain(header, verify, users);
      var m := UserMessage(RequestError(None, message, Some(g.status), Some(g.error)));
      m == SessionMessage || m == DeniedMessage
  {
    var g := AuthMiddleware.AdminChain(header, verify, users);
    var a := AuthMiddleware.Authenticate(header, verify, users);
    assert a.Reject? ==> g.status == 401;
  }

  // ---------------------------------------------------------------------------
  // Session storage

  type Storage = map<string, string>

  const SessionKeys: set<string> := {"access_token", "refresh_token", "user"}

  /** `register` and `login` on success: the two tokens and the serialised user. */
  function SaveSession(storage: Storage, accessToken: string, refreshToken: string, userJson: string): (r: Storage)
    ensures r.Keys == storage.Keys + SessionKeys
    ensures r["access_token"] == accessToken && r["refresh_token"] == refreshToken && r["user"] == userJson
    ensures forall k | k in storage && k !in SessionKeys :: r[k] == storage[k]
  {
    storage["access_token" := accessToken]["refresh_token" := refreshToken]["user" := userJson]
  }

  /** `logout`: removes the three session keys and nothing else. */
  function Logout(storage: Storage): (r: Storage)
    ensures r.Keys == storage.Keys - SessionKeys
    ensures forall k | k in r :: r[k] == storage[k]
  {
    map k | k in storage && k !in SessionKeys :: storage[k]
  }

  /** Logging out after a login leaves storage as it was apart from the
      session keys: a login followed by a logout leaves no token behind. */
  lemma {:induction false} LogoutUndoesSession(storage: Storage, accessToken: string, refreshToken: string, userJson: string)
    ensures Logout(SaveSession(storage, accessToken, refreshToken, userJson)) == Logout(storage)
    ensures "access_token" !in Logout(SaveSession(storage, accessToken, refreshToken, userJson))
  {
    var a := Logout(SaveSession(storage, accessToken, refreshToken, userJson));
    var b := Logout(storage);
    assert a.Keys == b.Keys;
  }

  // ---------------------------------------------------------------------------
  // Request bodies of the token-related calls

  /** A JSON body of string fields. */
  type Body = map<string, string>

  /** `req.body[key]` as the server destructures it. */
  function Field(body: Body, key: string): (v: Option<string>)
    ensures v.Some? <==> key in body
  {
    if key in body then Some(body[key]) else None
  }

  /** `changePassword` as written: snake_case keys. */
  function ChangePasswordBody(currentPassword: string, newPassword: string): Body {
    map["current_password" := currentPassword, "new_password" := newPassword]
  }

  /** The server's answer to a body: it reads `currentPassword` and `newPassword`. */
  function ServerChangePassword(claims: AuthMiddleware.Claims, body: Body, db: Store.Db): (AuthRoute.PasswordResponse, Store.Db)
  {
    AuthRoute.ChangePassword(claims, Field(body, "currentPassword"), Field(body, "newPassword"), db)
  }

  /** The client's password change never reaches the password check: the
      server finds neither field and always answers 400. */
  lemma {:induction false} ChangePasswordAlwaysRejected(claims: AuthMiddleware.Claims, currentPassword: string, newPassword: string, db: Store.Db)
    ensures ServerChangePassword(claims, ChangePasswordBody(currentPassword, newPassword), db) == (AuthRoute.PasswordMissing, db)
  {
    var body := ChangePasswordBody(currentPassword, newPassword);
    assert "currentPassword" !in body;
  }

  /** The body with the keys the server reads. */
  function ChangePasswordBodyFixed(currentPassword: string, newPassword: string): Body {
    map["currentPassword" := currentPassword, "newPassword" := newPassword]
  }

  /** With the server's keys the request carries both passwords to the route. */
  lemma {:induction false} ChangePasswordFixedReaches(claims: AuthMiddleware.Claims, currentPassword: string, newPassword: string, db: Store.Db)
    ensures ServerChangePassword(claims, ChangePasswordBodyFixed(currentPassword, newPassword), db) ==
            AuthRoute.ChangePassword(claims, Some(currentPassword), Some(newPassword), db)
  {
    var body := ChangePasswordBodyFixed(currentPassword, newPassword);
    assert Field(body, "currentPassword") == Some(currentPassword);
    assert Field(body, "newPassword") == Some(newPassword);
  }

  /** `refreshToken` as written: the stored token under `refresh_token`. */
  function RefreshBody(storedRefreshToken: string): Body {
    map["refresh_token" := storedRefreshToken]
  }

  function RefreshBodyFixed(storedRefreshToken: string): Body {
    map["refreshToken" := storedRefreshToken]
  }

  /** The server's refresh route reads `refreshToken`. */
  function ServerRefresh(body: Body, db: Store.Db, verifyRefresh: string -> Option<AuthMiddleware.Claims>,
                         sign: AuthMiddleware.Claims -> string, signRefresh: AuthMiddleware.Claims -> string): AuthRoute.RefreshResponse
  {
    AuthRoute.Refresh(Field(body, "refreshToken"), db, verifyRefresh, sign, signRefresh)
  }

  /** The client's refresh is always answered 400. */
  lemma {:induction false} RefreshAlwaysRejected(token: string, db: Store.Db, verifyRefresh: string -> Option<AuthMiddleware.Claims>,
                              sign: AuthMiddleware.Claims -> string, signRefresh: AuthMiddleware.Claims -> string)
    ensures ServerRefresh(RefreshBody(token), db, verifyRefresh, sign, signRefresh) == AuthRoute.RefreshMissing
  {
    assert "refreshToken" !in RefreshBody(token);
  }

  /** With the server's key a valid refresh token of an active user is refreshed. */
  lemma {:induction false} RefreshFixedReaches(token: string, db: Store.Db, verifyRefresh: string -> Option<AuthMiddleware.Claims>,
                            sign: AuthMiddleware.Claims -> string, signRefresh: AuthMiddleware.Claims -> string)
    requires |token| > 0 && verifyRefresh(token).Some? && AuthMiddleware.ActiveUser(db.users, verifyRefresh(token).value.userId)
    ensures ServerRefresh(RefreshBodyFixed(token), db, verifyRefresh, sign, signRefresh).Refreshed?
  {
    assert Field(RefreshBodyFixed(token), "refreshToken") == Some(token);
  }
}

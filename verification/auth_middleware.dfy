/** The request guards: `authenticate` reads a Bearer token and checks its
    user, `requireAdmin` and `requireOwnerOrAdmin` authorise by the token's
    claims, and `optionalAuth` attaches a user when it can and never
    answers. Token verification (JWT) is an oracle: `verify(token)` is the
    decoded payload, or `None` when verification throws. */
module AuthMiddleware {
  import opened Core
  import opened Models

  /** The JWT payload, which becomes `req.user`. */
  datatype Claims = Claims(userId: string, email: string, role: Role)

  /** Either the request goes on to the next handler with `req.user`, or it
      is answered with a status, an error and a message. */
  datatype Gate = Pass(user: Claims) | Reject(status: int, error: string, message: string)

  const BearerPrefix := "Bearer "

  /** The token of an `Authorization` header that starts with `Bearer `:
      everything after those seven characters. */
  function BearerToken(header: Option<string>): (t: Option<string>)
    ensures t.Some? <==> header.Some? && |header.value| >= 7 && header.value[..7] == BearerPrefix
    ensures t.Some? ==> header.value == BearerPrefix + t.value
  {
    if header.Some? && |header.value| >= 7 && header.value[..7] == BearerPrefix then
      assert header.value == header.value[..7] + header.value[7..];
      Some(header.value[7..])
    else None
  }

  /** Reading a header built from a token gives the token back. */
  lemma {:induction false} BearerRoundTrip(token: string)
    ensures BearerToken(Some(BearerPrefix + token)) == Some(token)
  {
    assert (BearerPrefix + token)[..7] == BearerPrefix;
    assert (BearerPrefix + token)[7..] == token;
  }

  /** The user the claims name exists and is active. */
  predicate ActiveUser(users: seq<UserDoc>, userId: string) {
    var i := FindById(users, userId);
    i.Some? && users[i.value].isActive
  }

  /** `authenticate`. */
  function Authenticate(header: Option<string>, verify: string -> Option<Claims>, users: seq<UserDoc>): (g: Gate)
    ensures g.Pass? <==>
      BearerToken(header).Some? && verify(BearerToken(header).value).Some? &&
      ActiveUser(users, verify(BearerToken(header).value).value.userId)
    ensures g.Pass? ==> g.user == verify(BearerToken(header).value).value
    ensures g.Reject? ==> g.status == 401
    ensures BearerToken(header).None? ==> g == Reject(401, "Authentication required", "No valid authentication token provided")
  {
    match BearerToken(header)
    case None => Reject(401, "Authentication required", "No valid authentication token provided")
    case Some(token) =>
      match verify(token)
      case None => Reject(401, "Authentication failed", "Invalid or expired token")
      case Some(claims) =>
        if !ActiveUser(users, claims.userId) then
          Reject(401, "Authentication failed", "User account not found or inactive")
        else Pass(claims)
  }

  /** `requireAdmin`: authorisation by the role in the token. */
  function RequireAdmin(user: Option<Claims>): (g: Gate)
    ensures g.Pass? <==> user.Some? && user.value.role == Admin
    ensures g.Pass? ==> g.user == user.value
    ensures user.None? ==> g.Reject? && g.status == 401
    ensures user.Some? && user.value.role != Admin ==> g.Reject? && g.status == 403
  {
    match user
    case None => Reject(401, "Authentication required", "Please authenticate first")
    case Some(u) =>
      if u.role != Admin then Reject(403, "Access denied", "Admin privileges required")
      else Pass(u)
  }

  /** `requireOwnerOrAdmin(param)`: an admin, or the user the route parameter names. */
  function RequireOwnerOrAdmin(user: Option<Claims>, resourceUserId: string): (g: Gate)
    ensures g.Pass? <==> user.Some? && (user.value.role == Admin || user.value.userId == resourceUserId)
    ensures user.None? ==> g.Reject? && g.status == 401
    ensures user.Some? && !g.Pass? ==> g.Reject? && g.status == 403
  {
    match user
    case None => Reject(401, "Authentication required", "Please authenticate first")
    case Some(u) =>
      if u.role == Admin || u.userId == resourceUserId then Pass(u)
      else Reject(403, "Access denied", "You can only access your own resources")
  }

  /** `optionalAuth`: never answers; `req.user` is the claims of a valid
      token whose user is active, and absent otherwise. */
  function OptionalAuth(header: Option<string>, verify: string -> Option<Claims>, users: seq<UserDoc>): (user: Option<Claims>)
    ensures user.Some? ==> ActiveUser(users, user.value.userId)
    ensures header.None? ==> user.None?
  {
    match BearerToken(header)
    case None => None
    case Some(token) =>
      match verify(token)
      case None => None
      case Some(claims) => if ActiveUser(users, claims.userId) then Some(claims) else None
  }

  /** The optional guard attaches a user exactly when the required one would let the request through, and the same user. */
  lemma {:induction false} OptionalAgreesWithAuthenticate(header: Option<string>, verify: string -> Option<Claims>, users: seq<UserDoc>)
    ensures var g := Authenticate(header, verify, users);
      OptionalAuth(header, verify, users) == (if g.Pass? then Some(g.user) else None)
  {
  }

  /** `router.use(authenticate); router.use(requireAdmin)`, as the admin routes run it. */
  function AdminChain(header: Option<string>, verify: string -> Option<Claims>, users: seq<UserDoc>): (g: Gate)
    ensures g.Pass? <==> Authenticate(header, verify, users).Pass? && Authenticate(header, verify, users).user.role == Admin
    ensures g.Reject? && Authenticate(header, verify, users).Pass? ==> g.status == 403
  {
    match Authenticate(header, verify, users)
    case Reject(status, error, message) => Reject(status, error, message)
    case Pass(claims) => RequireAdmin(Some(claims))
  }

  /** The role checked is the token's, not the stored user's: a token
      issued while a user was an admin still passes after the stored role
      became `customer`, as long as the user is active. */
  lemma {:induction false} TokenRoleDecides(header: Option<string>, verify: string -> Option<Claims>, users: seq<UserDoc>, i: nat)
    requires Authenticate(header, verify, users).Pass?
    requires var c := Authenticate(header, verify, users).user; c.role == Admin && FindById(users, c.userId) == Some(i)
    ensures AdminChain(header, verify, users).Pass?
    ensures AdminChain(header, verify, users[i := users[i].(role := Customer)]).Pass?
  {
    var c := Authenticate(header, verify, users).user;
    FindByIdAfterUpdate(users, i, users[i].(role := Customer), c.userId);
  }
}

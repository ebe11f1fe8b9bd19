/** The admin routes: user management (listing, lookup, creation, update
    and soft deletion) and video management (listing and hard deletion).
    Every handler here runs behind `AuthMiddleware.AdminChain`; the
    requesting admin's claims are a parameter where a handler reads them.
    Orders MongoDB sorts by creation time are inputs (`newestFirst`), and a
    new user's `_id` is the parameter `newId`. */
module AdminRoute {
  import opened Core
  import opened Text
  import opened Models
  import Store
  import Paging
  import AuthMiddleware
  import VideosRoute

  /** A user as the routes return it: everything but the password. */
  datatype UserView = UserView(id: string, email: string, name: string, role: Role, isActive: bool, preferences: Preferences)

  function ViewOf(u: UserDoc): (v: UserView)
    ensures v.id == u.id && v.email == u.email && v.role == u.role && v.isActive == u.isActive
  {
    UserView(u.id, u.email, u.name, u.role, u.isActive, u.preferences)
  }

  // ---------------------------------------------------------------------------
  // GET /users

  /** The listing's filter: active users, of the requested role when the
      `role` parameter names one; any other `role` value is ignored. */
  predicate Listed(roleParam: Option<string>, u: UserDoc) {
    u.isActive &&
    (IsTruthy(roleParam) && ParseRole(roleParam.value).Some? ==> u.role == ParseRole(roleParam.value).value)
  }

  datatype UsersResponse =
    | UsersFailed
    | UsersPage(users: seq<UserView>, pagination: Paging.Pagination)

  /** `GET /users?page=&limit=&role=`. */
  function ListUsers(pageParam: Option<string>, limitParam: Option<string>, roleParam: Option<string>,
                     db: Store.Db, newestFirst: seq<UserDoc>): UsersResponse
  {
    UsersAt(Paging.ReadWindow(pageParam, limitParam), roleParam, db, newestFirst)
  }

  /** The listing for the window read from the query. Unlike the video
      listing there are no bounds: a negative `skip` makes MongoDB fail (a
      500), and `total` counts the matching users. */
  function UsersAt(w: Paging.Window, roleParam: Option<string>, db: Store.Db, newestFirst: seq<UserDoc>): (r: UsersResponse)
    requires w.limit != 0
    ensures r.UsersFailed? <==> w.skip < 0
    ensures r.UsersPage? ==>
      |r.users| <= (if w.limit > 0 then w.limit else -w.limit) &&
      |r.users| == Paging.PageLength(Count(newestFirst, u => Listed(roleParam, u)), w.skip, w.limit) &&
      r.pagination == Paging.PaginationOf(w, Count(db.users, u => Listed(roleParam, u))) &&
      (forall i | 0 <= i < |r.users| :: exists u | u in newestFirst :: Listed(roleParam, u) && r.users[i] == ViewOf(u)) &&
      forall i | 0 <= i < |r.users| ::
        w.skip + i < Count(newestFirst, u => Listed(roleParam, u)) &&
        r.users[i] == ViewOf(Filter(newestFirst, u => Listed(roleParam, u))[w.skip + i])
  {
    var matching := Filter(newestFirst, u => Listed(roleParam, u));
    match Paging.MongoPage(matching, w.skip, w.limit)
    case None => UsersFailed
    case Some(page) =>
      assert forall i | 0 <= i < |page| :: page[i] in matching;
      UsersPage(Map(page, ViewOf), Paging.PaginationOf(w, Count(db.users, u => Listed(roleParam, u))))
  }

  /** Paging through the user listing shows every listed user exactly once:
      the `k`-th matching user is on page `k / limit + 1` and no other. */
  lemma {:induction false} UsersShowsEachUserOnce(page: int, limit: int, k: nat, roleParam: Option<string>,
                               db: Store.Db, newestFirst: seq<UserDoc>)
    requires page >= 1 && limit >= 1 && k < Count(newestFirst, u => Listed(roleParam, u))
    ensures var w := Paging.Window(page, limit, (page - 1) * limit); var r := UsersAt(w, roleParam, db, newestFirst);
      var matching := Filter(newestFirst, u => Listed(roleParam, u));
      r.UsersPage? &&
      (w.skip <= k < w.skip + |r.users| <==> page == k / limit + 1) &&
      (w.skip <= k < w.skip + |r.users| ==> r.users[k - w.skip] == ViewOf(matching[k]))
  {
    Paging.MulMono(0, page - 1, limit);
    Paging.ItemOnOnePage(Filter(newestFirst, u => Listed(roleParam, u)), limit, page, k);
  }

  /** A `role` that names no role lists the same page as no `role` at all. */
  lemma {:induction false} UnknownRoleIgnored(w: Paging.Window, role: string, db: Store.Db, newestFirst: seq<UserDoc>)
    requires w.limit != 0 && ParseRole(role).None?
    ensures UsersAt(w, Some(role), db, newestFirst) == UsersAt(w, None, db, newestFirst)
  {
    FilterSame(newestFirst, u => Listed(Some(role), u), u => Listed(None, u));
    FilterSame(db.users, u => Listed(Some(role), u), u => Listed(None, u));
  }

  // ---------------------------------------------------------------------------
  // GET /users/:userId

  datatype UserResponse = UserNotFound | UserFound(user: UserView)

  function GetUser(db: Store.Db, userId: string): (r: UserResponse)
    ensures r.UserNotFound? <==> forall i | 0 <= i < |db.users| :: db.users[i].id != userId
    ensures r.UserFound? ==> r.user.id == userId && exists i | 0 <= i < |db.users| :: r.user == ViewOf(db.users[i])
  {
    match FindById(db.users, userId)
    case None => UserNotFound
    case Some(i) => UserFound(ViewOf(db.users[i]))
  }

  // ---------------------------------------------------------------------------
  // POST /users

  datatype NewUser = NewUser(email: Option<string>, password: Option<string>, name: Option<string>,
                             role: Option<string>, isActive: Option<bool>)

  datatype CreateResponse =
    | MissingFields      // 400 "Email, password, and name are required"
    | EmailTaken         // 409 "User with this email already exists"
    | CreateInvalid      // 400, the schema's validation messages
    | CreateFailed       // 500, the unique index on the stored (trimmed) email
    | Created(user: UserView)

  /** The role a new user asks for: `role || 'customer'`. */
  function RequestedRole(role: Option<string>): string
  {
    if IsTruthy(role) then role.value else "customer"
  }

  /** The document a well-formed creation request saves. */
  function NewDoc(body: NewUser, newId: string): UserDoc
    requires IsTruthy(body.email) && IsTruthy(body.password) && IsTruthy(body.name)
    requires ParseRole(RequestedRole(body.role)).Some?
  {
    UserDoc(newId, body.email.value, Plain(body.password.value), body.name.value,
            ParseRole(RequestedRole(body.role)).value, body.isActive.GetOr(true), DefaultPreferences)
  }

  /** `POST /users`: required fields, then the existing-email check, then the
      schema's validation and the unique index; only a created user changes
      the store, and it is appended. */
  function CreateUser(body: NewUser, db: Store.Db, newId: string): (r: (CreateResponse, Store.Db))
    ensures r.0 == MissingFields <==> !IsTruthy(body.email) || !IsTruthy(body.password) || !IsTruthy(body.name)
    ensures r.0 == EmailTaken <==> !(r.0 == MissingFields) && FindByEmail(db.users, body.email.value).Some?
    ensures !r.0.Created? ==> r.1 == db
    ensures r.0.Created? ==>
      |r.1.users| == |db.users| + 1 && r.1.users[..|db.users|] == db.users &&
      r.1.videos == db.videos && r.1.summaries == db.summaries && r.1.sentiments == db.sentiments &&
      var u := r.1.users[|db.users|];
      r.0.user == ViewOf(u) && u.id == newId &&
      RoleName(u.role) == RequestedRole(body.role) && u.isActive == body.isActive.GetOr(true) &&
      u.email == NormalizeEmail(body.email.value) && ComparePassword(u.password, body.password.value) &&
      u.preferences == DefaultPreferences
  {
    if !IsTruthy(body.email) || !IsTruthy(body.password) || !IsTruthy(body.name) then (MissingFields, db)
    else if FindByEmail(db.users, body.email.value).Some? then (EmailTaken, db)
    else if ParseRole(RequestedRole(body.role)).None? then (CreateInvalid, db)
    else
      match SaveUser(NewDoc(body, newId))
      case None => (CreateInvalid, db)
      case Some(u) =>
        if exists i | 0 <= i < |db.users| :: db.users[i].email == u.email then (CreateFailed, db)
        else (Created(ViewOf(u)), db.(users := db.users + [u]))
  }

  /** The created user is the one `findByEmail` finds, both by its stored
      email and by the email as the request spelled it: no other user holds
      that email. */
  lemma {:induction false} CreatedUserIsFound(body: NewUser, db: Store.Db, newId: string)
    requires CreateUser(body, db, newId).0.Created?
    ensures var users := CreateUser(body, db, newId).1.users;
      FindByEmail(users, users[|db.users|].email) == Some(|db.users|) &&
      FindByEmail(users, body.email.value) == Some(|db.users|)
  {
    var u := SaveUser(NewDoc(body, newId)).value;
    assert CreateUser(body, db, newId).1.users == db.users + [u];
    NormalizeEmailIdempotent(body.email.value);
    FindByEmailAppended(db.users, u, u.email);
    FindByEmailAppended(db.users, u, body.email.value);
  }

  // ---------------------------------------------------------------------------
  // PUT /users/:userId

  datatype UserUpdate = UserUpdate(name: Option<string>, role: Option<string>, isActive: Option<bool>,
                                   preferences: Option<Preferences>)

  datatype UpdateResponse = UpdateNotFound | UpdateFailed | Updated(user: UserView)

  /** The user with the request's fields applied, before it is saved. */
  function Applied(u: UserDoc, body: UserUpdate): UserDoc
  {
    var role := if body.role.Some? && ParseRole(body.role.value).Some? then ParseRole(body.role.value).value else u.role;
    var prefs := if body.preferences.Some? then MergePreferences(u.preferences, body.preferences.value) else u.preferences;
    u.(name := body.name.GetOr(u.name), role := role, isActive := body.isActive.GetOr(u.isActive), preferences := prefs)
  }

  /** `PUT /users/:userId`: a provided name or `isActive` replaces the
      stored one, a role only when it names one, preferences are merged
      shallowly; the email and password are never taken from the request.
      A failing save (a 500) and a missing user change nothing. */
  function UpdateUser(userId: string, body: UserUpdate, db: Store.Db): (r: (UpdateResponse, Store.Db))
    ensures r.0.UpdateNotFound? <==> FindById(db.users, userId).None?
    ensures !r.0.Updated? ==> r.1 == db
    ensures r.0.Updated? ==>
      var i := FindById(db.users, userId).value; var prev := db.users[i];
      |r.1.users| == |db.users| &&
      var u := r.1.users[i];
      r.1 == db.(users := db.users[i := u]) && r.0.user == ViewOf(u) &&
      u.id == prev.id && u.email == NormalizeEmail(prev.email) && u.password == (if prev.password.Hashed? then prev.password else Hash(prev.password.text)) &&
      u.isActive == body.isActive.GetOr(prev.isActive) &&
      (body.role.Some? && ParseRole(body.role.value).Some? ==> u.role == ParseRole(body.role.value).value) &&
      (body.role.None? || ParseRole(body.role.value).None? ==> u.role == prev.role) &&
      (body.preferences.None? ==> u.preferences == prev.preferences) &&
      (body.preferences.Some? ==> u.preferences == MergePreferences(prev.preferences, body.preferences.value))
  {
    match FindById(db.users, userId)
    case None => (UpdateNotFound, db)
    case Some(i) =>
      match SaveUser(Applied(db.users[i], body))
      case None => (UpdateFailed, db)
      case Some(u) => (Updated(ViewOf(u)), db.(users := db.users[i := u]))
  }

  /** A stored user is one saving leaves as it is. */
  predicate Stored(u: UserDoc) { SaveUser(u) == Some(u) }

  /** Updating a stored user never changes its email or its password hash. */
  lemma {:induction false} UpdateKeepsCredentials(userId: string, body: UserUpdate, db: Store.Db)
    requires FindById(db.users, userId).Some? && Stored(db.users[FindById(db.users, userId).value])
    requires UpdateUser(userId, body, db).0.Updated?
    ensures var i := FindById(db.users, userId).value;
      var u := UpdateUser(userId, body, db).1.users[i];
      u.email == db.users[i].email && u.password == db.users[i].password
  {
  }

  // ---------------------------------------------------------------------------
  // DELETE /users/:userId

  datatype DeactivateResponse = DeactivateNotFound | CannotDeleteSelf | DeactivateFailed | Deactivated

  /** `DELETE /users/:userId`: a soft delete. A missing user is a 404, the
      requesting admin's own account a 400; otherwise only `isActive`
      becomes false and the record stays. */
  function DeactivateUser(userId: string, requester: AuthMiddleware.Claims, db: Store.Db): (r: (DeactivateResponse, Store.Db))
    ensures r.0 == DeactivateNotFound <==> FindById(db.users, userId).None?
    ensures r.0 == CannotDeleteSelf <==> FindById(db.users, userId).Some? && userId == requester.userId
    ensures !r.0.Deactivated? ==> r.1 == db
    ensures r.0.Deactivated? ==>
      var i := FindById(db.users, userId).value;
      |r.1.users| == |db.users| && r.1 == db.(users := db.users[i := r.1.users[i]]) &&
      !r.1.users[i].isActive && r.1.users[i].id == userId
  {
    match FindById(db.users, userId)
    case None => (DeactivateNotFound, db)
    case Some(i) =>
      if userId == requester.userId then (CannotDeleteSelf, db)
      else
        match SaveUser(db.users[i].(isActive := false))
        case None => (DeactivateFailed, db)
        case Some(u) => (Deactivated, db.(users := db.users[i := u]))
  }

  /** Deactivating a stored user changes that one field and nothing else,
      and the user can no longer authenticate. */
  lemma {:induction false} DeactivateOnlyClearsActive(userId: string, requester: AuthMiddleware.Claims, db: Store.Db)
    requires FindById(db.users, userId).Some? && userId != requester.userId
    requires Stored(db.users[FindById(db.users, userId).value])
    ensures var i := FindById(db.users, userId).value; var r := DeactivateUser(userId, requester, db);
      r.0 == Deactivated && r.1 == db.(users := db.users[i := db.users[i].(isActive := false)]) &&
      !AuthMiddleware.ActiveUser(r.1.users, userId)
  {
    var i := FindById(db.users, userId).value;
    var u := db.users[i];
    SaveIgnoresActive(u, false);
    FindByIdAfterUpdate(db.users, i, u.(isActive := false), userId);
  }

  /** Whether a user is active plays no part in validation or normalisation. */
  lemma {:induction false} SaveIgnoresActive(u: UserDoc, active: bool)
    requires Stored(u)
    ensures Stored(u.(isActive := active))
  {
    var v := u.(isActive := active);
    var n := v.(email := NormalizeEmail(v.email), name := Trim(v.name));
    var m := u.(email := NormalizeEmail(u.email), name := Trim(u.name));
    assert n == m.(isActive := active);
    assert ValidUser(n) == ValidUser(m);
  }

  // ---------------------------------------------------------------------------
  // GET /videos and DELETE /videos/:videoId

  datatype AdminVideo = AdminVideo(video_id: string, title: string, url: string,
                                   has_summary: bool, has_sentiments: bool, transcript_segments: nat, duration: real)

  function AdminVideoOf(db: Store.Db, v: VideoDoc): (e: AdminVideo)
    ensures e.video_id == v.video_id
    ensures e.has_summary <==> v.video_id in db.summaries
    ensures e.has_sentiments <==> |Store.SentimentsOf(db, v.video_id)| > 0
    ensures e.transcript_segments == |v.transcript| && e.duration == TotalDuration(v.transcript)
  {
    AdminVideo(v.video_id, v.title, v.url, v.video_id in db.summaries,
               |Store.SentimentTimeline(db, v.video_id)| > 0, |v.transcript|, TotalDuration(v.transcript))
  }

  datatype AdminVideosResponse =
    | AdminVideosFailed
    | AdminVideos(videos: seq<AdminVideo>, page: int, limit: int, total: nat, totalPages: int)

  /** `GET /videos?page=&limit=`. */
  function ListAdminVideos(pageParam: Option<string>, limitParam: Option<string>, db: Store.Db, newestFirst: seq<VideoDoc>)
    : AdminVideosResponse
  {
    AdminVideosAt(Paging.ReadWindow(pageParam, limitParam), db, newestFirst)
  }

  /** The admin video listing for a window: no bounds check, so a negative
      `skip` fails (a 500); the block has no `hasNext`/`hasPrev`. */
  function AdminVideosAt(w: Paging.Window, db: Store.Db, newestFirst: seq<VideoDoc>): (r: AdminVideosResponse)
    requires w.limit != 0
    ensures r.AdminVideosFailed? <==> w.skip < 0
    ensures r.AdminVideos? ==>
      r.total == |db.videos| && r.totalPages == Paging.PaginationOf(w, |db.videos|).totalPages &&
      |r.videos| <= (if w.limit > 0 then w.limit else -w.limit) &&
      |r.videos| == Paging.PageLength(|newestFirst|, w.skip, w.limit) &&
      (w.skip < |newestFirst| ==>
        forall i | 0 <= i < |r.videos| :: w.skip + i < |newestFirst| && r.videos[i] == AdminVideoOf(db, newestFirst[w.skip + i]))
  {
    match Paging.MongoPage(newestFirst, w.skip, w.limit)
    case None => AdminVideosFailed
    case Some(page) =>
      AdminVideos(Map(page, v => AdminVideoOf(db, v)), w.page, w.limit, |db.videos|,
                  Paging.PaginationOf(w, |db.videos|).totalPages)
  }

  /** Paging through the admin video listing shows every stored video
      exactly once, on page `k / limit + 1`. */
  lemma {:induction false} AdminVideosShowEachVideoOnce(page: int, limit: int, k: nat, db: Store.Db, newestFirst: seq<VideoDoc>)
    requires page >= 1 && limit >= 1 && k < |newestFirst|
    ensures var w := Paging.Window(page, limit, (page - 1) * limit); var r := AdminVideosAt(w, db, newestFirst);
      r.AdminVideos? &&
      (w.skip <= k < w.skip + |r.videos| <==> page == k / limit + 1) &&
      (w.skip <= k < w.skip + |r.videos| ==> r.videos[k - w.skip] == AdminVideoOf(db, newestFirst[k]))
  {
    Paging.MulMono(0, page - 1, limit);
    Paging.ItemOnOnePage(newestFirst, limit, page, k);
  }

  datatype AdminDeleteResponse = AdminVideoNotFound | AdminVideoDeleted(video_id: string)

  /** `DELETE /videos/:videoId`: no id format check; a stored video loses
      its Video, Summary and Sentiment records. */
  function AdminDeleteVideo(db: Store.Db, videoId: string): (r: (AdminDeleteResponse, Store.Db))
    ensures r.0.AdminVideoNotFound? <==> videoId !in db.videos
    ensures r.0.AdminVideoNotFound? ==> r.1 == db
    ensures r.0.AdminVideoDeleted? ==>
      r.0.video_id == videoId && videoId !in r.1.videos && videoId !in r.1.summaries &&
      |Store.SentimentsOf(r.1, videoId)| == 0 && r.1.users == db.users
  {
    if videoId !in db.videos then (AdminVideoNotFound, db)
    else (AdminVideoDeleted(videoId), Store.DeleteVideoRecords(db, videoId))
  }

  /** On a well-formed id the admin delete and the public delete leave the
      same store; on a malformed stored key only the admin delete removes it. */
  lemma {:induction false} AdminDeleteAgreesWithVideosDelete(db: Store.Db, videoId: string)
    ensures IsVideoId(videoId) ==> AdminDeleteVideo(db, videoId).1 == VideosRoute.DeleteVideo(db, videoId).1
    ensures !IsVideoId(videoId) && videoId in db.videos ==>
      VideosRoute.DeleteVideo(db, videoId).1 == db && videoId !in AdminDeleteVideo(db, videoId).1.videos
  {
  }
}

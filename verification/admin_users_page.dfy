/** The user-management page: who may see it, the create form's checks and
    the request it sends, the form reset, and the delete confirmation. */
module AdminUsersPage {
  import opened Core
  import opened Text
  import opened Models
  import Store
  import AdminRoute

  /** What the page's effect does once the session is known. */
  datatype Gate = Wait | ToLogin | ToDashboard | FetchUsers

  function GateOf(authLoading: bool, isAuthenticated: bool, isAdmin: bool): (g: Gate)
    ensures g == Wait <==> authLoading
    ensures g == ToLogin <==> !authLoading && !isAuthenticated
    ensures g == ToDashboard <==> !authLoading && isAuthenticated && !isAdmin
    ensures g == FetchUsers <==> !authLoading && isAuthenticated && isAdmin
  {
    if authLoading then Wait
    else if !isAuthenticated then ToLogin
    else if !isAdmin then ToDashboard
    else FetchUsers
  }

  datatype Form = Form(name: string, email: string, password: string, role: Role)

  const NameMessage := "Name is required"
  const EmailMessage := "Valid email is required"
  const PasswordMessage := "Password must be at least 6 characters long"
  const MinPassword := 6

  datatype Create = FormError(message: string) | Send(body: AdminRoute.NewUser)

  /** `handleCreateUser`'s checks, in order: the name, the email, the
      password; then the trimmed name and email, the password as typed and
      the chosen role are sent. */
  function HandleCreate(form: Form): (r: Create)
    ensures IsBlank(form.name) <==> r == FormError(NameMessage)
    ensures r == FormError(EmailMessage) <==> !IsBlank(form.name) && (IsBlank(form.email) || '@' !in form.email)
    ensures r == FormError(PasswordMessage) <==>
      !IsBlank(form.name) && !IsBlank(form.email) && '@' in form.email && Utf16Length(form.password) < MinPassword
    ensures r.Send? <==> !IsBlank(form.name) && !IsBlank(form.email) && '@' in form.email && Utf16Length(form.password) >= MinPassword
    ensures r.Send? ==> r.body == AdminRoute.NewUser(Some(Trim(form.email)), Some(form.password), Some(Trim(form.name)),
                                                     Some(RoleName(form.role)), None)
  {
    TrimEmptyIffBlank(form.name);
    TrimEmptyIffBlank(form.email);
    if |Trim(form.name)| == 0 then FormError(NameMessage)
    else if |Trim(form.email)| == 0 || '@' !in form.email then FormError(EmailMessage)
    else if Utf16Length(form.password) < MinPassword then FormError(PasswordMessage)
    else Send(AdminRoute.NewUser(Some(Trim(form.email)), Some(form.password), Some(Trim(form.name)),
                                 Some(RoleName(form.role)), None))
  }

  /** A request the form sends always gets past the server's required-field
      check, names a role the server knows, and carries a password long
      enough for the User schema. */
  lemma {:induction false} SentFormPassesRequiredFields(form: Form, db: Store.Db, newId: string)
    requires HandleCreate(form).Send?
    ensures var body := HandleCreate(form).body;
      AdminRoute.CreateUser(body, db, newId).0 != AdminRoute.MissingFields &&
      ParseRole(AdminRoute.RequestedRole(body.role)).Some? &&
      Utf16Length(body.password.value) >= 6
  {
    var body := HandleCreate(form).body;
    TrimEmptyIffBlank(form.name);
    TrimEmptyIffBlank(form.email);
    assert IsTruthy(body.email) && IsTruthy(body.password) && IsTruthy(body.name);
  }

  /** The form's email check is looser than the User schema's: every email
      the schema accepts passes it, but `a@b` passes it and the schema
      rejects it. */
  lemma {:induction false} FormEmailCheckIsLooser(e: string)
    requires EmailShape(e)
    ensures !IsBlank(e) && '@' in e
    ensures !IsBlank("a@b") && '@' in "a@b" && !EmailShape("a@b")
  {
    var at, dot :| 0 < at < dot < |e| - 1 && EmailSplit(e, at, dot);
    assert e[at] == '@' && !IsSpace(e[at]);
    var s := "a@b";
    assert !IsSpace(s[0]) && s[1] == '@';
    assert forall i | 0 <= i < |s| :: s[i] != '.';
  }

  /** `resetForm`. */
  function ResetForm(): (r: (Form, Option<string>))
    ensures r.0.role == Customer && r.1.None?
    ensures |r.0.name| == 0 && |r.0.email| == 0 && |r.0.password| == 0
  {
    (Form("", "", "", Customer), None)
  }

  /** A reset form fails the first check. */
  lemma {:induction false} ResetFormIsRejected()
    ensures HandleCreate(ResetForm().0) == FormError(NameMessage)
  {
  }

  /** `handleDeleteUser`: the id is sent only once the dialog is confirmed. */
  function DeleteRequest(confirmed: bool, userId: string): (r: Option<string>)
    ensures r.Some? <==> confirmed
    ensures r.Some? ==> r.value == userId
  {
    if !confirmed then None else Some(userId)
  }
}

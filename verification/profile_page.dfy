/** The profile page's password change: the two checks the page makes
    before calling the API, in order, and what a success or a failure does
    to the form. */
module ProfilePage {
  import opened Core
  import opened Models
  import opened Text
  import Store
  import AuthMiddleware
  import AuthRoute
  import ApiClient

  datatype PasswordForm = PasswordForm(
    currentPassword: string, newPassword: string, confirmPassword: string,
    message: string, error: string, loading: bool, showPasswordChange: bool)

  const MismatchMessage := "Passwords do not match"
  const ShortMessage := "Password must be at least 8 characters"
  const SuccessMessage := "Password changed successfully!"
  const FallbackMessage := "Failed to change password"
  const PageMinLength := 8

  /** The start of `handlePasswordChange`: messages are cleared, a
      mismatched confirmation is reported before a short password, and
      only a form passing both sends the current and the new password. */
  function StartPasswordChange(f: PasswordForm): (r: (Option<(string, string)>, PasswordForm))
    ensures r.0.Some? <==> f.newPassword == f.confirmPassword && Utf16Length(f.newPassword) >= PageMinLength
    ensures r.0.Some? ==> r.0.value == (f.currentPassword, f.newPassword) && r.1.loading && r.1.error == ""
    ensures f.newPassword != f.confirmPassword ==> r.1.error == MismatchMessage
    ensures f.newPassword == f.confirmPassword && Utf16Length(f.newPassword) < PageMinLength ==> r.1.error == ShortMessage
    ensures r.1.message == "" && r.1.currentPassword == f.currentPassword && r.1.newPassword == f.newPassword
  {
    var cleared := f.(error := "", message := "");
    if f.newPassword != f.confirmPassword then (None, cleared.(error := MismatchMessage))
    else if Utf16Length(f.newPassword) < PageMinLength then (None, cleared.(error := ShortMessage))
    else (Some((f.currentPassword, f.newPassword)), cleared.(loading := true))
  }

  /** The end: on success the three fields are emptied and the form is
      hidden; on failure the error is shown and the fields are kept;
      loading ends either way. */
  function FinishPasswordChange(f: PasswordForm, failure: Option<string>): (r: PasswordForm)
    ensures !r.loading
    ensures failure.None? ==> r.message == SuccessMessage && !r.showPasswordChange
    ensures failure.None? ==> r.currentPassword == "" && r.newPassword == "" && r.confirmPassword == ""
    ensures failure.Some? ==> |r.error| > 0 && r.currentPassword == f.currentPassword
    ensures failure.Some? ==> r.newPassword == f.newPassword && r.confirmPassword == f.confirmPassword
  {
    match failure
    case None =>
      f.(message := SuccessMessage, currentPassword := "", newPassword := "", confirmPassword := "",
         showPasswordChange := false, loading := false)
    case Some(m) => f.(error := if |m| > 0 then m else FallbackMessage, loading := false)
  }

  datatype ProfileForm = ProfileForm(name: string, email: string, message: string, error: string, loading: bool)

  const ProfileSuccess := "Profile updated successfully!"

  /** `handleProfileUpdate`: messages are cleared, loading starts and the
      name and email are sent as typed. */
  function StartProfileUpdate(f: ProfileForm): (r: ((string, string), ProfileForm))
    ensures r.0 == (f.name, f.email)
    ensures r.1.message == "" && r.1.error == "" && r.1.loading
    ensures r.1.name == f.name && r.1.email == f.email
  {
    ((f.name, f.email), f.(message := "", error := "", loading := true))
  }

  /** Both handlers start from a form without a message or an error. */
  lemma {:induction false} HandlersClearMessages(f: PasswordForm, g: ProfileForm)
    ensures StartPasswordChange(f).1.message == "" && StartProfileUpdate(g).1.message == ""
    ensures StartPasswordChange(f).0.Some? ==> StartPasswordChange(f).1.error == ""
    ensures StartProfileUpdate(g).1.error == ""
  {
  }

  /** Every password the page sends is long enough for the server (which
      asks for 6), so with the keys the server reads only the user lookup
      and the current password can refuse it; with the keys the page
      sends, the server never sees the passwords at all. */
  lemma {:induction false} PageRequestMeetsServerMinimum(f: PasswordForm, claims: AuthMiddleware.Claims, db: Store.Db)
    requires StartPasswordChange(f).0.Some? && |f.currentPassword| > 0
    ensures var (cur, nw) := StartPasswordChange(f).0.value;
      var fixed := ApiClient.ServerChangePassword(claims, ApiClient.ChangePasswordBodyFixed(cur, nw), db).0;
      fixed != AuthRoute.PasswordMissing && fixed != AuthRoute.PasswordTooShort &&
      ApiClient.ServerChangePassword(claims, ApiClient.ChangePasswordBody(cur, nw), db).0 == AuthRoute.PasswordMissing
  {
    var (cur, nw) := StartPasswordChange(f).0.value;
    ApiClient.ChangePasswordFixedReaches(claims, cur, nw, db);
    ApiClient.ChangePasswordAlwaysRejected(claims, cur, nw, db);
  }
}

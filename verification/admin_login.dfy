/** The admin login page (`pages/AdminLogin.tsx`): a fixed admin id checked on the page,
    then the password checked by the store. */
module AdminLogin {
  import opened Seqs
  import opened Store

  /** The only admin id the page accepts. */
  const AdminId: string := "876543606"

  /** The one error message the page shows, whichever check failed. */
  const InvalidCredentials: string := "Invalid credentials"

  /** The route a successful login navigates to. */
  const AdminRoute: string := "/admin"

  /** The page after a submit: the error shown, the route navigated to (if any), whether the
      store's `login` was called, and the session. */
  datatype LoginPage = LoginPage(error: string, navigatedTo: Option<string>, loginCalled: bool, session: Session)

  /** `handleSubmit`. The previous error is cleared first, so the page after a submit does
      not depend on it and it is not an input here. */
  function SubmitLogin(s: Session, adminId: string, password: string): (r: LoginPage)
    ensures r.error == "" || r.error == InvalidCredentials
    ensures r.loginCalled <==> adminId == AdminId
    ensures adminId != AdminId ==> r == LoginPage(InvalidCredentials, None, false, s)
    ensures adminId == AdminId ==> r.session == Login(s, password).session
    ensures r.navigatedTo.Some? <==> r.error == ""
    ensures r.navigatedTo.Some? ==> r.navigatedTo.value == AdminRoute
  {
    if adminId != AdminId then LoginPage(InvalidCredentials, None, false, s)
    else
      var result := Login(s, password);
      if result.ok then LoginPage("", Some(AdminRoute), true, result.session)
      else LoginPage(InvalidCredentials, None, true, result.session)
  }

  /** Both credentials must match: the page navigates to the dashboard, with an authenticated
      session, exactly when the id is the admin id and the password is the secret; on any
      failure the session is the one before the submit. */
  lemma LoginNeedsBoth(s: Session, adminId: string, password: string)
    ensures var r := SubmitLogin(s, adminId, password);
      && (r.navigatedTo == Some(AdminRoute) <==> adminId == AdminId && password == Secret)
      && (r.navigatedTo.Some? ==> r.session.authenticated && r.error == "")
      && (r.navigatedTo.None? ==> r.session == s && r.error == InvalidCredentials)
  {
  }

  /** The page does not tell the two failures apart: a wrong id and a wrong password give the
      same error and the same session. */
  lemma FailuresIndistinguishable(s: Session, wrongId: string, password: string, wrongPassword: string)
    requires wrongId != AdminId && wrongPassword != Secret
    ensures SubmitLogin(s, wrongId, password).error == SubmitLogin(s, AdminId, wrongPassword).error
    ensures SubmitLogin(s, wrongId, password).session == SubmitLogin(s, AdminId, wrongPassword).session
  {
  }
}

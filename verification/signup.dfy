/** The checks `handleSignup` in `app/auth/signup/page.tsx` makes before
    it calls the authentication service, and the page state each leaves. */
module Signup {
  import opened Wrappers

  /** The shortest password the page accepts. */
  const MinPassword: nat := 6

  /** The page after the handler: the loading flag, the error toast's
      title if one was shown, and whether sign-up was requested. */
  datatype Page = Page(loading: bool, toast: Option<string>, signUpCalled: bool)

  /** The synchronous part of `handleSignup`, up to the call. */
  function HandleSignup(password: string, confirmPassword: string): (r: Page)
    ensures r.signUpCalled <==> password == confirmPassword && |password| >= MinPassword
    ensures r.signUpCalled ==> r.loading && r.toast.None?
    ensures !r.signUpCalled ==> !r.loading
    ensures password != confirmPassword ==> r.toast == Some("Passwords do not match")
    ensures password == confirmPassword && |password| < MinPassword ==> r.toast == Some("Password too short")
  {
    if password != confirmPassword then Page(false, Some("Passwords do not match"), false)
    else if |password| < MinPassword then Page(false, Some("Password too short"), false)
    else Page(true, None, true)
  }

  /** The rest of the handler once the service answers: an error shows
      "Signup failed" and clears the flag; success keeps it set while the
      page redirects. */
  function AfterSignUp(p: Page, failed: bool): (r: Page)
    requires p.signUpCalled
    ensures r.signUpCalled
    ensures failed ==> !r.loading && r.toast == Some("Signup failed")
    ensures !failed ==> r == p
  {
    if failed then p.(loading := false, toast := Some("Signup failed")) else p
  }

  /** The mismatch check comes first: a short, mismatched password reports
      the mismatch, not the length. */
  lemma MismatchReportedFirst(password: string, confirmPassword: string)
    requires password != confirmPassword && |password| < MinPassword
    ensures HandleSignup(password, confirmPassword).toast == Some("Passwords do not match")
    ensures HandleSignup(password, confirmPassword).toast != Some("Password too short")
  {
    assert "Passwords do not match"[0] != "Password too short"[0] || "Passwords do not match"[8] != "Password too short"[8];
  }
}

/**
 * The local checks `show_login_form` and `show_signup_form` run before they
 * call the store. Each check that fails returns at once with its own
 * message, so the first failing check in form order decides the message.
 */
module Validation {
  import opened Wrappers

  const MissingCredentials := "Please enter both username and password"
  const MissingFields := "Please fill in all fields"
  const UsernameTooShort := "Username must be at least 3 characters"
  const PasswordTooShort := "Password must be at least 6 characters"
  const PasswordMismatch := "Passwords do not match"
  const TermsNotAccepted := "Please agree to the Terms of Service"
  const InvalidEmail := "Please enter a valid email address"

  const MinUsernameLength := 3
  const MinPasswordLength := 6

  /** The fields of the signup form; `agree` is the terms checkbox. */
  datatype SignupInput = SignupInput(
    username: string, email: string, password: string, confirm: string, agree: bool)

  /** One named check: whether the input passes it, and what the form says when it does not. */
  datatype Check = Check(passes: bool, message: string)

  /** The signup checks of auth.py, in the order the form runs them. */
  function SignupChecks(f: SignupInput): (cs: seq<Check>)
    ensures |cs| == 6
  {
    [ Check(f.username != "" && f.email != "" && f.password != "" && f.confirm != "", MissingFields),
      Check(|f.username| >= MinUsernameLength, UsernameTooShort),
      Check(|f.password| >= MinPasswordLength, PasswordTooShort),
      Check(f.password == f.confirm, PasswordMismatch),
      Check(f.agree, TermsNotAccepted),
      Check('@' in f.email, InvalidEmail) ]
  }

  /** The message of the first failing check, or `None` when all pass. */
  function FirstFailure(cs: seq<Check>): (r: Option<string>)
    ensures r.None? <==> forall i :: 0 <= i < |cs| ==> cs[i].passes
    ensures r.Some? ==> exists i :: 0 <= i < |cs| && !cs[i].passes && cs[i].message == r.value
  {
    if cs == [] then None
    else if !cs[0].passes then Some(cs[0].message)
    else
      var r := FirstFailure(cs[1..]);
      assert forall i :: 1 <= i < |cs| ==> cs[i] == cs[1..][i - 1];
      r
  }

  /** A failing check decides the message whenever every check before it passes. */
  lemma {:induction false} FirstFailureAt(cs: seq<Check>, k: int)
    requires 0 <= k < |cs| && !cs[k].passes
    requires forall j :: 0 <= j < k ==> cs[j].passes
    ensures FirstFailure(cs) == Some(cs[k].message)
  {
    if k > 0 {
      forall j | 0 <= j < k - 1 ensures cs[1..][j].passes {
        assert cs[1..][j] == cs[j + 1];
      }
      FirstFailureAt(cs[1..], k - 1);
    }
  }

  /** The login form's one check: both fields non-empty. */
  function ValidateLogin(username: string, password: string): (r: Option<string>)
    ensures r.None? <==> username != "" && password != ""
    ensures r.Some? ==> r.value == MissingCredentials
  {
    if username == "" || password == "" then Some(MissingCredentials) else None
  }

  /** The signup form's chain of early returns. */
  function ValidateSignup(f: SignupInput): (r: Option<string>)
    ensures r == FirstFailure(SignupChecks(f))
    ensures r.None? <==> && f.username != "" && f.email != "" && f.password != "" && f.confirm != ""
                         && |f.username| >= MinUsernameLength && |f.password| >= MinPasswordLength
                         && f.password == f.confirm && f.agree && '@' in f.email
  {
    var cs := SignupChecks(f);
    if f.username == "" || f.email == "" || f.password == "" || f.confirm == "" then
      Some(MissingFields)
    else if |f.username| < MinUsernameLength then
      FirstFailureAt(cs, 1);
      Some(UsernameTooShort)
    else if |f.password| < MinPasswordLength then
      FirstFailureAt(cs, 2);
      Some(PasswordTooShort)
    else if f.password != f.confirm then
      FirstFailureAt(cs, 3);
      Some(PasswordMismatch)
    else if !f.agree then
      FirstFailureAt(cs, 4);
      Some(TermsNotAccepted)
    else if '@' !in f.email then
      FirstFailureAt(cs, 5);
      Some(InvalidEmail)
    else
      None
  }

  /**
   * The order matters: a form that is short of the password length is told
   * so even when its confirmation differs, the terms are unticked and the
   * email has no `@`.
   */
  lemma ShortPasswordReportedFirst(f: SignupInput)
    requires f.username != "" && f.email != "" && f.password != "" && f.confirm != ""
    requires |f.username| >= MinUsernameLength && |f.password| < MinPasswordLength
    ensures ValidateSignup(f) == Some(PasswordTooShort)
  {
  }
}

/**
 * The session gate of auth.py: `require_authentication`, the login and
 * signup forms it shows while the session is signed out, and
 * `logout_user`. Each form handler is specified by a step function from
 * the old session and table to the new ones and the message shown; the
 * handler methods write `st.session_state` and the table as the source
 * does and are proved to follow their step function.
 */
module Auth {
  import opened Wrappers
  import opened Credentials
  import opened Users
  import opened Validation
  import opened SessionState

  const SignupSucceeded := "Account created successfully! Please login."

  function Welcome(username: string): string {
    "Welcome back, " + username + "!"
  }

  /** What the form shows: nothing, an `st.error` or an `st.success` (the leading emoji is markup). */
  datatype Feedback = Silent | ShowError(text: string) | ShowSuccess(text: string)

  /**
   * What stands in for the world during one form submission: the clock,
   * the id generator, and the text of the exception the store's lookup or
   * write raises, if it does.
   */
  datatype StoreCall = StoreCall(now: string, freshId: string,
                                 lookupError: Option<string>, writeError: Option<string>)

  /** Which form of the login page was submitted in this run, with its fields. */
  datatype AuthEvent =
    | NoSubmit
    | LoginSubmitted(username: string, password: string)
    | SignupSubmitted(form: SignupInput)

  /** The session, the table and the message after one handler has run. */
  datatype Step = Step(entries: Entries, rows: seq<User>, feedback: Feedback)

  /** The session after the four writes of a successful login. */
  function SignIn(m: Entries, u: User): (m': Entries)
    ensures m'.Keys == m.Keys + {AuthenticatedKey, UserIdKey, UsernameKey, EmailKey}
    ensures SignedIn(m')
    ensures m'[UserIdKey] == VStr(u.id) && m'[UsernameKey] == VStr(u.username) && m'[EmailKey] == VStr(u.email)
    ensures forall k :: k in m && k !in LogoutKeys ==> m'[k] == m[k]
  {
    m[AuthenticatedKey := VBool(true)][UserIdKey := VStr(u.id)][UsernameKey := VStr(u.username)][EmailKey := VStr(u.email)]
  }

  /** `require_authentication`'s first write: `authenticated = False`, only when the key is absent. */
  function WithAuthDefault(m: Entries): (m': Entries)
    ensures AuthenticatedKey in m'
    ensures AuthenticatedKey in m ==> m' == m
    ensures AuthenticatedKey !in m ==> m'[AuthenticatedKey] == VBool(false)
    ensures m'.Keys == m.Keys + {AuthenticatedKey}
    ensures forall k :: k in m ==> m'[k] == m[k]
  {
    if AuthenticatedKey in m then m else m[AuthenticatedKey := VBool(false)]
  }

  /**
   * `show_login_form` on submit: the emptiness check, then `login_user`;
   * on success the session is signed in as the returned row, otherwise the
   * session and the table are as they were.
   */
  function LoginStep(m: Entries, rows: seq<User>, sha: Sha256, username: string, password: string,
                     call: StoreCall): (st: Step)
    ensures ValidateLogin(username, password).Some? ==> st == Step(m, rows, ShowError(MissingCredentials))
    ensures st.feedback.ShowSuccess? <==>
              ValidateLogin(username, password).None?
              && LoginReply(rows, sha, username, password, call.lookupError, call.writeError).Success?
    ensures st.feedback.ShowSuccess? ==>
              var u := LoginReply(rows, sha, username, password, call.lookupError, call.writeError).value;
              && st.entries == SignIn(m, u)
              && st.rows == Touch(rows, u.id, call.now)
              && st.feedback.text == Welcome(u.username)
    ensures !st.feedback.ShowSuccess? ==> st.entries == m && st.rows == rows && st.feedback.ShowError?
    ensures ValidateLogin(username, password).None? && !st.feedback.ShowSuccess? ==>
              st.feedback.text == LoginReply(rows, sha, username, password, call.lookupError, call.writeError).error
  {
    match ValidateLogin(username, password)
    case Some(msg) => Step(m, rows, ShowError(msg))
    case None =>
      match LoginReply(rows, sha, username, password, call.lookupError, call.writeError)
      case Success(u) => Step(SignIn(m, u), Touch(rows, u.id, call.now), ShowSuccess(Welcome(u.username)))
      case Failure(e) => Step(m, rows, ShowError(e))
  }

  /** The table and the message after the signup form's handler. */
  datatype SignupOutcome = SignupOutcome(rows: seq<User>, feedback: Feedback)

  /**
   * `show_signup_form` on submit: the ordered checks, then `create_user`.
   * It writes no session key, so signing up never signs the session in.
   */
  function SignupStep(rows: seq<User>, sha: Sha256, f: SignupInput, call: StoreCall): (o: SignupOutcome)
    ensures ValidateSignup(f).Some? ==> o == SignupOutcome(rows, ShowError(ValidateSignup(f).value))
    ensures ValidateSignup(f).None? ==>
              var r := CreateReply(rows, sha, f.username, f.email, f.password, call.freshId, call.now,
                                   call.lookupError, call.writeError);
              && o.rows == (if r.Success? then rows + [r.value] else rows)
              && o.feedback == (if r.Success? then ShowSuccess(SignupSucceeded) else ShowError(r.error))
  {
    match ValidateSignup(f)
    case Some(msg) => SignupOutcome(rows, ShowError(msg))
    case None =>
      match CreateReply(rows, sha, f.username, f.email, f.password, call.freshId, call.now,
                        call.lookupError, call.writeError)
      case Success(u) => SignupOutcome(rows + [u], ShowSuccess(SignupSucceeded))
      case Failure(e) => SignupOutcome(rows, ShowError(e))
  }

  /**
   * `show_login_page`: whichever form was submitted runs; with none, nothing
   * happens. Only a successful login changes the session, and it changes it
   * to the signed-in session of a stored row; the table either keeps its rows
   * (a login touches timestamps only) or gains exactly one (a signup).
   */
  function LoginPageStep(m: Entries, rows: seq<User>, sha: Sha256, event: AuthEvent, call: StoreCall): (st: Step)
    ensures event.NoSubmit? ==> st == Step(m, rows, Silent)
    ensures st.entries != m ==> event.LoginSubmitted? && exists u :: u in rows && st.entries == SignIn(m, u)
    ensures event.LoginSubmitted? ==> |st.rows| == |rows|
    ensures event.SignupSubmitted? ==> st.entries == m
                                       && (st.rows == rows || (|st.rows| == |rows| + 1 && st.rows[..|rows|] == rows))
  {
    match event
    case NoSubmit => Step(m, rows, Silent)
    case LoginSubmitted(username, password) => LoginStep(m, rows, sha, username, password, call)
    case SignupSubmitted(f) =>
      var o := SignupStep(rows, sha, f, call);
      Step(m, o.rows, o.feedback)
  }

  /** No handler of the login page breaks the session invariant or the uniqueness of accounts. */
  lemma LoginPageKeepsInvariants(m: Entries, rows: seq<User>, sha: Sha256, event: AuthEvent, call: StoreCall)
    requires WellTyped(m) && Coherent(m) && !SignedIn(m)
    ensures var st := LoginPageStep(m, rows, sha, event, call);
            WellTyped(st.entries) && Coherent(st.entries)
            && (UniqueKeys(rows) ==> UniqueKeys(st.rows))
  {
    var st := LoginPageStep(m, rows, sha, event, call);
    match event
    case NoSubmit =>
    case LoginSubmitted(username, password) =>
      if st.feedback.ShowSuccess? {
        var u := LoginReply(rows, sha, username, password, call.lookupError, call.writeError).value;
        TouchKeepsKeys(rows, u.id, call.now);
      }
    case SignupSubmitted(f) =>
      if ValidateSignup(f).None? {
        var r := CreateReply(rows, sha, f.username, f.email, f.password, call.freshId, call.now,
                             call.lookupError, call.writeError);
        if r.Success? && UniqueKeys(rows) {
          InsertKeepsKeys(rows, r.value);
        }
      }
  }

  /** A successful login is the only way in: after it the gate lets the caller through. */
  lemma LoginOpensGate(m: Entries, rows: seq<User>, sha: Sha256, username: string, password: string,
                       call: StoreCall)
    requires LoginStep(m, rows, sha, username, password, call).feedback.ShowSuccess?
    ensures SignedIn(WithAuthDefault(LoginStep(m, rows, sha, username, password, call).entries))
  {
  }

  /** The session after `logout_user`. */
  function SignedOut(m: Entries): (m': Entries)
    ensures m'.Keys == m.Keys - {AuthenticatedKey, UserIdKey, UsernameKey, EmailKey}
    ensures forall k :: k in m' ==> m'[k] == m[k]
  {
    m - {AuthenticatedKey, UserIdKey, UsernameKey, EmailKey}
  }

  /** Logging out twice is logging out once, and it always closes the gate. */
  lemma SignedOutIdempotent(m: Entries)
    ensures SignedOut(SignedOut(m)) == SignedOut(m)
    ensures !SignedIn(WithAuthDefault(SignedOut(m)))
    ensures WellTyped(m) ==> WellTyped(SignedOut(m)) && Coherent(SignedOut(m))
  {
  }

  /** `logout_user`: delete each of the four keys that is present. */
  method Logout(s: Session)
    modifies s
    ensures s.entries == SignedOut(old(s.entries))
    ensures old(s.Valid()) ==> s.Valid()
  {
    var keys := LogoutKeys;
    var i := 0;
    while i < |keys|
      invariant 0 <= i <= |keys|
      invariant s.entries == old(s.entries) - (set j | 0 <= j < i :: keys[j])
    {
      if keys[i] in s.entries {
        s.entries := s.entries - {keys[i]};
      }
      assert (set j | 0 <= j < i + 1 :: keys[j]) == (set j | 0 <= j < i :: keys[j]) + {keys[i]};
      i := i + 1;
    }
    ghost var cleared := set j | 0 <= j < |keys| :: keys[j];
    assert keys[0] in cleared && keys[1] in cleared && keys[2] in cleared && keys[3] in cleared;
    assert cleared == {AuthenticatedKey, UserIdKey, UsernameKey, EmailKey};
    SignedOutIdempotent(old(s.entries));
  }

  /** The login form's handler: validation, then `login_user`, then the four session writes. */
  method LoginForm(s: Session, users: UserTable, sha: Sha256, username: string, password: string,
                   call: StoreCall)
    returns (fb: Feedback)
    modifies s, users
    ensures Step(s.entries, users.rows, fb)
            == LoginStep(old(s.entries), old(users.rows), sha, username, password, call)
  {
    if ValidateLogin(username, password).Some? {
      return ShowError(MissingCredentials);
    }
    var result := users.LoginUser(sha, username, password, call.now, call.lookupError, call.writeError);
    if result.Success? {
      var user := result.value;
      s.entries := s.entries[AuthenticatedKey := VBool(true)];
      s.entries := s.entries[UserIdKey := VStr(user.id)];
      s.entries := s.entries[UsernameKey := VStr(user.username)];
      s.entries := s.entries[EmailKey := VStr(user.email)];
      fb := ShowSuccess(Welcome(user.username));
    } else {
      fb := ShowError(result.error);
    }
  }

  /** The signup form's handler: the ordered checks, then `create_user`. */
  method SignupForm(users: UserTable, sha: Sha256, f: SignupInput, call: StoreCall) returns (fb: Feedback)
    modifies users
    ensures SignupOutcome(users.rows, fb) == SignupStep(old(users.rows), sha, f, call)
  {
    var invalid := ValidateSignup(f);
    if invalid.Some? {
      return ShowError(invalid.value);
    }
    var result := users.CreateUser(sha, f.username, f.email, f.password, call.freshId, call.now,
                                   call.lookupError, call.writeError);
    if result.Success? {
      fb := ShowSuccess(SignupSucceeded);
    } else {
      fb := ShowError(result.error);
    }
  }

  /** `show_login_page`: run the handler of the submitted form. */
  method ShowLoginPage(s: Session, users: UserTable, sha: Sha256, event: AuthEvent, call: StoreCall)
    returns (fb: Feedback)
    modifies s, users
    ensures Step(s.entries, users.rows, fb) == LoginPageStep(old(s.entries), old(users.rows), sha, event, call)
  {
    match event
    case NoSubmit =>
      fb := Silent;
    case LoginSubmitted(username, password) =>
      fb := LoginForm(s, users, sha, username, password, call);
    case SignupSubmitted(f) =>
      fb := SignupForm(users, sha, f, call);
  }

  /**
   * `require_authentication`: default `authenticated` to false when absent;
   * a signed-in session passes untouched, any other is shown the login page
   * and told to go no further.
   */
  method RequireAuthentication(s: Session, users: UserTable, sha: Sha256, event: AuthEvent, call: StoreCall)
    returns (proceed: bool, fb: Feedback)
    requires s.Valid()
    modifies s, users
    ensures s.Valid()
    ensures proceed <==> SignedIn(old(s.entries))
    ensures proceed ==> s.entries == old(s.entries) && users.rows == old(users.rows) && fb == Silent
    ensures !proceed ==>
              Step(s.entries, users.rows, fb)
              == LoginPageStep(WithAuthDefault(old(s.entries)), old(users.rows), sha, event, call)
    ensures old(users.Valid()) ==> users.Valid()
  {
    if AuthenticatedKey !in s.entries {
      s.entries := s.entries[AuthenticatedKey := VBool(false)];
    }
    if !s.entries[AuthenticatedKey].b {
      LoginPageKeepsInvariants(s.entries, users.rows, sha, event, call);
      fb := ShowLoginPage(s, users, sha, event, call);
      return false, fb;
    }
    return true, Silent;
  }
}

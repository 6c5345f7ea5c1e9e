/**
 * `st.session_state`: one map from key to value per browser session. The
 * authentication keys belong to auth.py, `session_id` and `messages` to
 * app.py; any other key (form widgets, for one) is carried along untouched.
 */
module SessionState {
  import opened Chat

  const AuthenticatedKey := "authenticated"
  const UserIdKey := "user_id"
  const UsernameKey := "username"
  const EmailKey := "email"
  const SessionIdKey := "session_id"
  const MessagesKey := "messages"

  /** The keys `logout_user` clears, in the order it clears them. */
  const LogoutKeys: seq<string> := [AuthenticatedKey, UserIdKey, UsernameKey, EmailKey]

  datatype Value = VBool(b: bool) | VStr(s: string) | VTurns(turns: seq<ChatTurn>)

  type Entries = map<string, Value>

  /** Each key the core writes holds the kind of value the core writes there. */
  predicate WellTyped(m: Entries) {
    && (AuthenticatedKey in m ==> m[AuthenticatedKey].VBool?)
    && (UserIdKey in m ==> m[UserIdKey].VStr?)
    && (UsernameKey in m ==> m[UsernameKey].VStr?)
    && (EmailKey in m ==> m[EmailKey].VStr?)
    && (SessionIdKey in m ==> m[SessionIdKey].VStr?)
    && (MessagesKey in m ==> m[MessagesKey].VTurns?)
  }

  /** The session is signed in: `authenticated` is present and true. */
  predicate SignedIn(m: Entries) {
    AuthenticatedKey in m && m[AuthenticatedKey] == VBool(true)
  }

  /** The identity keys are present exactly while the session is signed in. */
  predicate Coherent(m: Entries) {
    && (UserIdKey in m <==> SignedIn(m))
    && (UsernameKey in m <==> SignedIn(m))
    && (EmailKey in m <==> SignedIn(m))
  }

  /** The transcript, empty while `messages` has not been created. */
  function Transcript(m: Entries): seq<ChatTurn>
    requires WellTyped(m)
  {
    if MessagesKey in m then m[MessagesKey].turns else []
  }

  class Session {
    var entries: Entries

    predicate Valid()
      reads this
    {
      WellTyped(entries) && Coherent(entries)
    }

    /** A fresh browser session: nothing stored yet. */
    constructor ()
      ensures entries == map[] && Valid()
    {
      entries := map[];
    }
  }
}

/**
 * The chat page of app.py: `initialize_session_state`, the chat form's
 * transcript update, the "New Session" and "Clear Chat" buttons, the
 * sidebar's logout button, and `main`, which shows none of this unless
 * `require_authentication` lets it through. Buttons and the chat form are
 * one `ChatEvent` per run: the buttons end their run with `st.rerun()`.
 */
module App {
  import opened Wrappers
  import opened JsonValues
  import opened Chat
  import opened SessionState
  import opened Relay
  import opened Credentials
  import opened Users
  import opened Auth

  /** What the user did on the chat page in this run. */
  datatype ChatEvent =
    | NoClick
    | LogoutClicked
    | NewSessionClicked(freshId: string)
    | ClearClicked
    | Sent(input: string)

  /**
   * How the chat form's submission ends: nothing to do (empty input), the
   * reply appended, an `st.error` showing `resp.get('error')`, or an
   * exception main does not catch (a reply that is not an object, or a
   * successful one without `data.message`).
   */
  datatype SubmitOutcome = Unchanged | Answered(reply: Json) | Refused(error: Json) | Crashed

  /** The session and the outcome after the chat form's handler. */
  datatype ChatStep = ChatStep(entries: Entries, outcome: SubmitOutcome)

  /** What one run of `main` ended with. */
  datatype RunOutcome =
    | LoginPage(feedback: Feedback)
    | LoggedOut
    | NewSessionStarted
    | ChatCleared
    | Chatted(outcome: SubmitOutcome)

  /**
   * `initialize_session_state`: `session_id` and `messages` are created when
   * absent and kept when present; no other key is touched.
   */
  function ChatDefaults(m: Entries, freshId: string): (m': Entries)
    ensures m'.Keys == m.Keys + {SessionIdKey, MessagesKey}
    ensures m'[SessionIdKey] == if SessionIdKey in m then m[SessionIdKey] else VStr(freshId)
    ensures m'[MessagesKey] == if MessagesKey in m then m[MessagesKey] else VTurns([])
    ensures forall k :: k in m ==> m'[k] == m[k]
  {
    var m1 := if SessionIdKey in m then m else m[SessionIdKey := VStr(freshId)];
    if MessagesKey in m1 then m1 else m1[MessagesKey := VTurns([])]
  }

  /** Initializing again changes nothing, whatever fresh id the second call would use. */
  lemma ChatDefaultsIdempotent(m: Entries, freshId: string, otherId: string)
    ensures ChatDefaults(ChatDefaults(m, freshId), otherId) == ChatDefaults(m, freshId)
  {
  }

  /** The assistant text `resp["data"]["message"]`, when those subscripts succeed. */
  function ReplyText(resp: Json): (r: Option<Json>)
    ensures r.Some? <==> resp.JObj? && "data" in resp.fields && resp.fields["data"].JObj?
                         && "message" in resp.fields["data"].fields
    ensures r.Some? ==> r.value == resp.fields["data"].fields["message"]
  {
    if resp.JObj? && "data" in resp.fields && resp.fields["data"].JObj?
       && "message" in resp.fields["data"].fields
    then Some(resp.fields["data"].fields["message"])
    else None
  }

  /** How main reacts to the value `send_message` returned. */
  function Reaction(resp: Json): (o: SubmitOutcome)
    ensures o != Unchanged
    ensures o.Answered? <==> resp.JObj? && Truthy(Get(resp.fields, "success")) && ReplyText(resp).Some?
    ensures o.Answered? ==> o.reply == ReplyText(resp).value
    ensures o.Refused? <==> resp.JObj? && !Truthy(Get(resp.fields, "success"))
    ensures o.Refused? ==> o.error == Get(resp.fields, "error")
  {
    if !resp.JObj? then Crashed
    else if !Truthy(Get(resp.fields, "success")) then Refused(Get(resp.fields, "error"))
    else match ReplyText(resp)
      case Some(reply) => Answered(reply)
      case None => Crashed
  }

  /** Every exception inside `send_message` ends as an error on screen carrying its text, never as a reply. */
  lemma FailedSendIsRefused(text: string)
    ensures Reaction(ErrorObject(text)) == Refused(JStr(text))
  {
  }

  /**
   * The chat form on submit: a non-empty input adds the user's turn, then
   * the assistant's turn only when the reply is a success carrying
   * `data.message`. Only `messages` changes.
   */
  function SubmitStep(m: Entries, input: string, post: Payload -> HttpOutcome, now: string, later: string)
    : (st: ChatStep)
    requires WellTyped(m) && MessagesKey in m
    ensures input == "" ==> st == ChatStep(m, Unchanged)
    ensures input != "" ==> st.outcome == Reaction(SendMessage(m, input, post))
    ensures WellTyped(st.entries) && st.entries.Keys == m.Keys
    ensures st.entries == m[MessagesKey := VTurns(Transcript(st.entries))]
    ensures input != "" ==>
              Transcript(st.entries)
              == Transcript(m) + [ChatTurn(UserRole, JStr(input), now)]
                 + (if st.outcome.Answered? then [ChatTurn(AssistantRole, st.outcome.reply, later)] else [])
    ensures |Transcript(st.entries)| == |Transcript(m)| + (if input == "" then 0 else if st.outcome.Answered? then 2 else 1)
  {
    if input == "" then ChatStep(m, Unchanged)
    else
      var withQuestion := Transcript(m) + [ChatTurn(UserRole, JStr(input), now)];
      var m1 := m[MessagesKey := VTurns(withQuestion)];
      SendMessageReadsIds(m, m1, input, post);
      var o := Reaction(SendMessage(m1, input, post));
      if o.Answered? then
        ChatStep(m1[MessagesKey := VTurns(withQuestion + [ChatTurn(AssistantRole, o.reply, later)])], o)
      else ChatStep(m1, o)
  }

  /** Logging out keeps the chat: the next visitor of the tab finds this `session_id` and transcript. */
  lemma LogoutKeepsChat(m: Entries)
    requires WellTyped(m)
    ensures WellTyped(SignedOut(m))
    ensures Transcript(SignedOut(m)) == Transcript(m)
    ensures SessionIdKey in m ==> SessionIdKey in SignedOut(m) && SignedOut(m)[SessionIdKey] == m[SessionIdKey]
  {
  }

  method InitializeSessionState(s: Session, freshId: string)
    modifies s
    ensures s.entries == ChatDefaults(old(s.entries), freshId)
    ensures old(s.Valid()) ==> s.Valid()
  {
    if SessionIdKey !in s.entries {
      s.entries := s.entries[SessionIdKey := VStr(freshId)];
    }
    if MessagesKey !in s.entries {
      s.entries := s.entries[MessagesKey := VTurns([])];
    }
  }

  /** "New Session": a fresh `session_id` and an empty transcript. */
  method NewSession(s: Session, freshId: string)
    modifies s
    ensures s.entries == old(s.entries)[SessionIdKey := VStr(freshId)][MessagesKey := VTurns([])]
    ensures old(s.Valid()) ==> s.Valid() && Transcript(s.entries) == []
  {
    s.entries := s.entries[SessionIdKey := VStr(freshId)];
    s.entries := s.entries[MessagesKey := VTurns([])];
  }

  /** "Clear Chat": an empty transcript; `session_id` stays. */
  method ClearChat(s: Session)
    modifies s
    ensures s.entries == old(s.entries)[MessagesKey := VTurns([])]
    ensures old(s.Valid()) ==> s.Valid() && Transcript(s.entries) == []
  {
    s.entries := s.entries[MessagesKey := VTurns([])];
  }

  /** The chat form's handler: append the question, ask the webhook, append the answer. */
  method Submit(s: Session, input: string, post: Payload -> HttpOutcome, now: string, later: string)
    returns (o: SubmitOutcome)
    requires s.Valid() && MessagesKey in s.entries
    modifies s
    ensures ChatStep(s.entries, o) == SubmitStep(old(s.entries), input, post, now, later)
    ensures s.Valid()
  {
    if input == "" {
      return Unchanged;
    }
    s.entries := s.entries[MessagesKey := VTurns(Transcript(s.entries) + [ChatTurn(UserRole, JStr(input), now)])];
    var resp := SendMessage(s.entries, input, post);
    o := Reaction(resp);
    if o.Answered? {
      s.entries := s.entries[MessagesKey := VTurns(Transcript(s.entries) + [ChatTurn(AssistantRole, o.reply, later)])];
    }
  }

  /**
   * One run of `main`. A signed-out session sees only the login page, and
   * its chat state is neither created nor touched; a signed-in one gets its
   * chat state initialized and then handles the run's event.
   */
  method RunPage(s: Session, users: UserTable, sha: Sha256, auth: AuthEvent, call: StoreCall,
              chat: ChatEvent, post: Payload -> HttpOutcome, freshSessionId: string, now: string, later: string)
    returns (r: RunOutcome)
    requires s.Valid()
    modifies s, users
    ensures s.Valid()
    ensures r.LoginPage? <==> !SignedIn(old(s.entries))
    ensures r.LoginPage? ==>
              Step(s.entries, users.rows, r.feedback)
              == LoginPageStep(WithAuthDefault(old(s.entries)), old(users.rows), sha, auth, call)
    ensures r.LoginPage? ==>
              && (SessionIdKey in s.entries <==> SessionIdKey in old(s.entries))
              && (MessagesKey in s.entries <==> MessagesKey in old(s.entries))
              && (SessionIdKey in old(s.entries) ==> s.entries[SessionIdKey] == old(s.entries)[SessionIdKey])
              && (MessagesKey in old(s.entries) ==> s.entries[MessagesKey] == old(s.entries)[MessagesKey])
    ensures !r.LoginPage? ==>
              var m := ChatDefaults(old(s.entries), freshSessionId);
              && users.rows == old(users.rows)
              && match chat
                 case NoClick => r == Chatted(Unchanged) && s.entries == m
                 case LogoutClicked => r == LoggedOut && s.entries == SignedOut(m)
                 case NewSessionClicked(id) =>
                   r == NewSessionStarted && s.entries == m[SessionIdKey := VStr(id)][MessagesKey := VTurns([])]
                 case ClearClicked => r == ChatCleared && s.entries == m[MessagesKey := VTurns([])]
                 case Sent(input) =>
                   && WellTyped(m) && MessagesKey in m && r.Chatted?
                   && ChatStep(s.entries, r.outcome) == SubmitStep(m, input, post, now, later)
    ensures old(users.Valid()) ==> users.Valid()
  {
    var proceed, fb := RequireAuthentication(s, users, sha, auth, call);
    if !proceed {
      return LoginPage(fb);
    }
    InitializeSessionState(s, freshSessionId);
    match chat
    case NoClick =>
      r := Chatted(Unchanged);
    case LogoutClicked =>
      Logout(s);
      r := LoggedOut;
    case NewSessionClicked(id) =>
      NewSession(s, id);
      r := NewSessionStarted;
    case ClearClicked =>
      ClearChat(s);
      r := ChatCleared;
    case Sent(input) =>
      var o := Submit(s, input, post, now, later);
      r := Chatted(o);
  }
}

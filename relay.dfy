/**
 * `send_message` of app.py: build the payload from the session, make one
 * POST, and fold every exception raised on the way (a missing session key,
 * a transport error, an error status raised by `raise_for_status`, a body
 * that is not JSON) into `{"success": False, "error": str(e)}`. The POST is
 * the parameter `post`; it is applied once, so there is no retry.
 */
module Relay {
  import opened Wrappers
  import opened JsonValues
  import opened SessionState

  /** The JSON body of the POST. */
  datatype Payload = Payload(message: string, sessionId: string, userId: string)

  /** The response body as `response.json()` sees it. */
  datatype Body = Unparsable(error: string) | Parsed(value: Json)

  /** What the POST does: raise (timeout, connection error, …), or answer with a status and a body. */
  datatype HttpOutcome =
    | Raised(error: string)
    | Responded(status: int, reason: string, url: string, body: Body)

  /** `raise_for_status` raises exactly for client (4xx) and server (5xx) error statuses. */
  predicate RaisesForStatus(status: int) {
    400 <= status < 600
  }

  /** A status outside 400-599 goes on to `response.json()`: 1xx, 2xx and 3xx never raise. */
  lemma StatusClasses(status: int)
    ensures RaisesForStatus(status) <==> status / 100 == 4 || status / 100 == 5
  {
  }

  predicate IsDecimal(s: string) {
    forall k :: 0 <= k < |s| ==> '0' <= s[k] <= '9'
  }

  /** The number a string of decimal digits spells. */
  function DecimalValue(s: string): nat
    requires IsDecimal(s)
  {
    if s == [] then 0 else 10 * DecimalValue(s[..|s| - 1]) + (s[|s| - 1] as int - '0' as int)
  }

  /** `str(n)` of a non-negative integer: decimal digits, with no leading zero, spelling `n`. */
  function DecimalDigits(n: nat): (s: string)
    ensures |s| >= 1 && IsDecimal(s)
    ensures DecimalValue(s) == n
    ensures |s| > 1 ==> s[0] != '0'
  {
    if n < 10 then [('0' as int + n) as char]
    else
      var prefix := DecimalDigits(n / 10);
      var s := prefix + [('0' as int + n % 10) as char];
      assert s[..|s| - 1] == prefix;
      s
  }

  /**
   * The text of the `HTTPError` that `raise_for_status` raises: the status
   * code, "Client Error" for 4xx or "Server Error" for 5xx, the reason and the url.
   */
  function HttpErrorText(status: int, reason: string, url: string): (t: string)
    requires RaisesForStatus(status)
    ensures var code := DecimalDigits(status);
            && |code| + 14 + |url| <= |t|
            && t[..|code|] == code && DecimalValue(t[..|code|]) == status
            && t[|code|..|code| + 14] == (if status < 500 then " Client Error:" else " Server Error:")
            && t[|t| - |url|..] == url
  {
    DecimalDigits(status) + (if status < 500 then " Client Error: " else " Server Error: ")
      + reason + " for url: " + url
  }

  /** The text of the `AttributeError` for a session key that was never set (the help link it ends with is not modelled). */
  function MissingKeyText(key: string): string {
    "st.session_state has no attribute \"" + key + "\". Did you forget to initialize it?"
  }

  /** `{"success": False, "error": text}`. */
  function ErrorObject(text: string): Json {
    JObj(map["success" := JBool(false), "error" := JStr(text)])
  }

  predicate IsErrorObject(j: Json) {
    && j.JObj?
    && j.fields.Keys == {"success", "error"}
    && j.fields["success"] == JBool(false)
    && j.fields["error"].JStr?
  }

  /** The payload, read from the session in the order the dict literal reads it. */
  function BuildPayload(m: Entries, message: string): (r: Result<Payload>)
    requires WellTyped(m)
    ensures r.Success? <==> SessionIdKey in m && UserIdKey in m
    ensures r.Success? ==> r.value == Payload(message, m[SessionIdKey].s, m[UserIdKey].s)
    ensures SessionIdKey !in m ==> r == Failure(MissingKeyText(SessionIdKey))
    ensures SessionIdKey in m && UserIdKey !in m ==> r == Failure(MissingKeyText(UserIdKey))
  {
    if SessionIdKey !in m then Failure(MissingKeyText(SessionIdKey))
    else if UserIdKey !in m then Failure(MissingKeyText(UserIdKey))
    else Success(Payload(message, m[SessionIdKey].s, m[UserIdKey].s))
  }

  /**
   * The `try` around the POST: the decoded body of a non-error response is
   * returned as it is; every other outcome becomes an error object carrying
   * the exception's text.
   */
  function Deliver(o: HttpOutcome): (r: Json)
    ensures o.Responded? && !RaisesForStatus(o.status) && o.body.Parsed? ==> r == o.body.value
    ensures !(o.Responded? && !RaisesForStatus(o.status) && o.body.Parsed?) ==> IsErrorObject(r)
    ensures o.Raised? ==> r == ErrorObject(o.error)
    ensures o.Responded? && RaisesForStatus(o.status) ==> r == ErrorObject(HttpErrorText(o.status, o.reason, o.url))
    ensures o.Responded? && !RaisesForStatus(o.status) && o.body.Unparsable? ==> r == ErrorObject(o.body.error)
  {
    match o
    case Raised(e) => ErrorObject(e)
    case Responded(status, reason, url, body) =>
      if RaisesForStatus(status) then ErrorObject(HttpErrorText(status, reason, url))
      else
        match body
        case Unparsable(e) => ErrorObject(e)
        case Parsed(v) => v
  }

  /** `send_message`. */
  function SendMessage(m: Entries, message: string, post: Payload -> HttpOutcome): (r: Json)
    requires WellTyped(m)
    ensures BuildPayload(m, message).Failure? ==> r == ErrorObject(BuildPayload(m, message).error)
    ensures SessionIdKey in m && UserIdKey in m
            ==> r == Deliver(post(Payload(message, m[SessionIdKey].s, m[UserIdKey].s)))
  {
    match BuildPayload(m, message)
    case Failure(e) => ErrorObject(e)
    case Success(p) => Deliver(post(p))
  }

  /** `send_message` depends on the session only through `session_id` and `user_id`. */
  lemma SendMessageReadsIds(m: Entries, m': Entries, message: string, post: Payload -> HttpOutcome)
    requires WellTyped(m) && WellTyped(m')
    requires SessionIdKey in m <==> SessionIdKey in m'
    requires UserIdKey in m <==> UserIdKey in m'
    requires SessionIdKey in m ==> m[SessionIdKey] == m'[SessionIdKey]
    requires UserIdKey in m ==> m[UserIdKey] == m'[UserIdKey]
    ensures SendMessage(m, message, post) == SendMessage(m', message, post)
  {
  }
}

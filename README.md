# VexaAI chat front-end: accounts, session gate and transcript

This project models the account and session layer of a small chat front-end in Dafny. `auth.py` does password hashing, signup, login, logout and the `require_authentication` gate. `app.py` owns the chat transcript, the "New Session" and "Clear Chat" buttons, the webhook relay `send_message`, and the guard at the top of `main`.

How the pieces are modelled:

- **`st.session_state`** is a class `Session` with one field `entries: map<string, Value>`. Python functions that write it become methods with `modifies s`. `Session.Valid()` holds two invariants. First, each key the core writes holds the kind of value written there. Second, `user_id`, `username` and `email` are present exactly while `authenticated` is true. Every method keeps both.
- **The `users` table** is a class `UserTable` holding `rows: seq<User>`, the rows in the order every select returns them (see "## Left out"). A remote call that raises is an `Option<string>` parameter carrying the exception text. The `except Exception` handlers fold that text into `{'success': False, 'error': …}`.
- **SHA-256** is a parameter `sha: seq<byte> -> Digest`. Its result is 32 bytes; nothing else is assumed about it, injectivity included. `password.encode()` (UTF-8) and `hexdigest()` (lowercase hex) are modelled in full. Each has a decoder and a round-trip lemma. So `verify_password(p, hash_password(q))` holds exactly when SHA-256 gives the same digest for the two passwords' bytes.
- **Store operations.** Each of `create_user` and `login_user` is a method on `UserTable`. Each is proved equal to a pure reply function (`CreateReply`, `LoginReply`). Each form handler is proved to follow a step function from the old session and table to the new ones (`LoginStep`, `SignupStep`, `LoginPageStep`). The chat form handler is proved to follow `SubmitStep`.
- **The webhook** is a parameter `post: Payload -> HttpOutcome`. `send_message` applies it once, so there is no retry.
- **Other inputs.** Clocks (`datetime.now().isoformat()`) and ids (`uuid.uuid4()`) are string parameters. So is the user's action in each run: `AuthEvent` for the login page, `ChatEvent` for the chat page.

Behaviour of the code the model keeps:

- `login_user` runs its `updated_at` update inside the same `try` as the lookup (auth.py:62-99). A failing update therefore fails the login with the update's error text.
- A reply whose `success` is truthy but which has no `data.message` raises `KeyError` or `TypeError` at `resp["data"]["message"]` (app.py:222). Nothing in `main` catches it (`App.Reaction`, outcome `Crashed`).
- `raise_for_status` (app.py:158) raises only for statuses 400–599. A 1xx, 2xx or 3xx response goes on to `response.json()`.
- A timeout of the POST (app.py:157, `timeout=30`) is caught by the same `except Exception` (app.py:160-161). It yields the timeout exception's text like any other error.
- The signup form checks the terms checkbox before the `@` in the email (auth.py:327-333).
- `logout_user` removes only its four keys (auth.py:102-107). `session_id` and `messages` survive a logout, so whoever signs in next in the same tab sees the transcript and keeps the webhook session id (`App.LogoutKeepsChat`).

## Model

| member | source | states |
|---|---|---|
| Bytes.HexEncode | auth.py:14 | `hexdigest()` output: two lowercase hex digits per byte |
| Bytes.DigitValue | auth.py:14 | a character is a hex digit iff it names a nibble, and that nibble's digit is the character |
| Bytes.HexDecodeEncode | auth.py:14 | decoding the hex spelling gives back the bytes |
| Bytes.HexEncodeDecode | auth.py:14 | every string the decoder accepts is the spelling of what it decodes to |
| Bytes.HexEncodeInjective | auth.py:14 | two byte strings have the same hex spelling iff they are equal |
| Bytes.HexDecodeAcceptsHexStrings | auth.py:14 | the decoder accepts exactly the even-length lowercase hex strings |
| Utf8.EncodeChar | auth.py:14 | one scalar value takes 1 to 4 bytes, 1 exactly for ASCII, with continuation bytes after the first |
| Utf8.Encode | auth.py:14 | `str.encode()`: between one and four bytes per character |
| Utf8.DecodeEncodeChar | auth.py:14 | the decoder reads back one encoded character and its length, whatever follows |
| Utf8.DecodeEncode | auth.py:14 | decoding the UTF-8 encoding of a string gives back the string |
| Utf8.EncodeInjective | auth.py:14 | two strings have the same encoding iff they are equal |
| Utf8.EncodeAscii | auth.py:14 | an ASCII password encodes to its own code points, one byte each |
| Credentials.HashPassword | auth.py:12-14 | a 64-character lowercase hex string that decodes to SHA-256 of the password's UTF-8 bytes |
| Credentials.VerifyPassword | auth.py:17-19 | true iff the stored text decodes to SHA-256 of the password's bytes; only 64-digit hex strings can pass |
| Credentials.VerifyOwnHash | auth.py:17-19 | a password always verifies against its own hash |
| Credentials.VerifyOtherHash | auth.py:17-19 | a password verifies against another's hash iff SHA-256 collides on the two encodings |
| Credentials.OnlyDigestsVerify | auth.py:17-19 | a stored value that is not a 64-digit lowercase hex string (an upper-case digest, a plaintext of another length) never verifies |
| Users.Where | auth.py:26-29 | a filtered select returns exactly the matching rows, no more rows than the table |
| Users.WhereHead | auth.py:75 | `result.data[0]` is the first matching row in the order the select returns |
| Users.Authenticate | auth.py:64-82 | both refusals carry "Invalid username or password"; a success is a row with that username whose digest verifies; an unknown username is always refused |
| Users.AuthenticateFirst | auth.py:64-82 | login succeeds with the first row holding the username iff the password verifies against it, and is refused otherwise |
| Users.AuthenticateUnique | auth.py:64-82 | with unique usernames, the one row holding the username decides the login |
| Users.Touch | auth.py:85-88 | the `updated_at` update keeps the number of rows |
| Users.TouchOneRow | auth.py:85-88 | with unique ids the update changes exactly one row, and only its `updated_at` |
| Users.TouchKeepsKeys | auth.py:85-88 | the update keeps usernames, emails and ids unique |
| Users.InsertKeepsKeys | auth.py:26-46 | inserting a row whose username and email are both new keeps both unique |
| Users.CreateReply | auth.py:22-57 | a lookup error is returned as is; any row with the username or the email gives "Username or email already exists"; an insert error is returned as is; otherwise the new row with the supplied id, `HashPassword(password)` and no `updated_at`, which verifies against the password |
| Users.LoginReply | auth.py:60-99 | a lookup error is returned as is; an unknown username and a wrong password both give "Invalid username or password"; a failing `updated_at` write fails the login; a success is a stored row with the username whose digest verifies |
| Users.NoUsernameEnumeration | auth.py:69-82 | an unknown username and a known one with a wrong password get the same reply |
| Users.AliceScenario | auth.py:22-99 | signup "alice" succeeds; a second "alice" is a duplicate; "alice" logs in as the created row; a non-colliding wrong password is refused |
| Users.UserTable.CreateUser | auth.py:22-57 | returns `CreateReply`; on success appends exactly that row, otherwise the table is unchanged; keeps usernames and emails unique, and ids unique when the new id is fresh |
| Users.UserTable.LoginUser | auth.py:60-99 | returns `LoginReply`; on success only the `updated_at` of rows with the user's id changes, and with unique ids exactly the returned row's; otherwise nothing changes |
| Validation.SignupChecks | auth.py:311-333 | the six signup checks, in form order |
| Validation.FirstFailure | auth.py:311-333 | `None` iff every check passes; otherwise some failing check's message |
| Validation.FirstFailureAt | auth.py:311-333 | a failing check whose predecessors all pass decides the message |
| Validation.ValidateLogin | auth.py:254-256 | refuses with "Please enter both username and password" iff a field is empty |
| Validation.ValidateSignup | auth.py:311-333 | the first failing check decides the message; accepted iff all fields are non-empty, username is at least 3 and password at least 6 characters, both passwords match, the terms are ticked and the email has an `@` |
| Validation.ShortPasswordReportedFirst | auth.py:319-333 | a short password is reported even when the later checks would also fail |
| JsonValues.FalsyValues | app.py:221 | `if resp.get("success")`: a value is falsy iff it is `None`, `False`, `0`, `""`, `[]` or `{}` |
| JsonValues.Get | app.py:221-225 | `dict.get`: the value if present, `None` otherwise |
| Chat.MessageClass | app.py:134-135 | `user-message` iff the role is `user`, `assistant-message` otherwise |
| Relay.BuildPayload | app.py:152-156 | the payload carries the message, the session's `session_id` and its `user_id`; a missing key fails, `session_id` checked first |
| Relay.StatusClasses | app.py:158 | `raise_for_status` raises exactly for 4xx and 5xx statuses |
| Relay.DecimalDigits | app.py:158 | `str(status)`: decimal digits with no leading zero that spell the status |
| Relay.HttpErrorText | app.py:158 | the `HTTPError` text: the status code, then "Client Error:" for 4xx or "Server Error:" for 5xx, ending with the url |
| Relay.Deliver | app.py:157-161 | a decoded body of a non-4xx/5xx response is returned as is; a transport error gives its text, an error status the `HTTPError` text, an unparsable body the parse exception's text, each as `{"success": False, "error": text}` |
| Relay.SendMessage | app.py:150-161 | a missing session key gives an error object; otherwise the delivered result of exactly one POST of the payload |
| Relay.SendMessageReadsIds | app.py:152-156 | the result depends on the session only through `session_id` and `user_id` |
| Auth.SignIn | auth.py:261-266 | the successful-login writes: signed in, with `user_id`, `username` and `email` of the row; other keys unchanged |
| Auth.WithAuthDefault | auth.py:347-348 | `authenticated` is set to false only when absent; all other keys keep their values |
| Auth.LoginStep | auth.py:253-271 | an empty field gives the emptiness error with nothing changed; success iff `LoginReply` succeeds, then the session is signed in as that row, the row is touched and "Welcome back" shown; any refusal shows `LoginReply`'s error and changes nothing |
| Auth.SignupStep | auth.py:309-342 | a failed check shows its message with the table unchanged; otherwise `CreateReply`'s row is appended on success ("Account created successfully! Please login.") or its error shown |
| Auth.LoginPageStep | auth.py:216-219 | no submission changes nothing; only a login can change the session, and only to the signed-in session of a stored row; a login keeps the number of rows; a signup keeps the session and either keeps the table or appends one row |
| Auth.LoginPageKeepsInvariants | auth.py:216-219 | no login-page handler breaks the session invariant or account uniqueness |
| Auth.LoginOpensGate | auth.py:261-266 | after a successful login the gate is open |
| Auth.SignedOut | auth.py:102-107 | exactly the four keys are removed; every other key keeps its value |
| Auth.SignedOutIdempotent | auth.py:102-107 | logging out twice is logging out once; afterwards the gate is closed; the session invariant holds |
| Auth.Logout | auth.py:102-107 | the loop's result is the signed-out session; it keeps the session invariant |
| Auth.LoginForm | auth.py:253-271 | session and table follow `LoginStep`; no store call when validation fails |
| Auth.SignupForm | auth.py:309-342 | table and message follow `SignupStep`; no store call when validation fails |
| Auth.ShowLoginPage | auth.py:216-219 | runs the handler of the submitted form, or does nothing |
| Auth.RequireAuthentication | auth.py:345-354 | returns true iff the session was signed in, then changes nothing; otherwise defaults `authenticated` and follows the login page's step |
| App.ChatDefaults | app.py:128-132 | `session_id` and `messages` are created only when absent and kept when present; no other key is touched |
| App.ChatDefaultsIdempotent | app.py:128-132 | initializing twice is initializing once |
| App.ReplyText | app.py:222 | `resp["data"]["message"]` exists iff both subscripts hit objects with those keys |
| App.Reaction | app.py:221-225 | the reply is appended iff `success` is truthy and `data.message` exists; a falsy `success` shows `resp.get('error')`; anything else is an uncaught exception |
| App.FailedSendIsRefused | app.py:160-161 | any exception inside `send_message` ends as an error showing its text |
| App.SubmitStep | app.py:217-225 | empty input changes nothing; otherwise a user turn is appended, then an assistant turn only for an answer (grows by 2, else by 1); only `messages` changes |
| App.LogoutKeepsChat | auth.py:102-107 | a logout keeps the transcript and the `session_id` |
| App.InitializeSessionState | app.py:128-132 | the session becomes `ChatDefaults` of the old one |
| App.NewSession | app.py:186-191 | `session_id` becomes the fresh id and the transcript is empty; nothing else changes |
| App.ClearChat | app.py:192-196 | the transcript is empty; `session_id` and everything else are unchanged |
| App.Submit | app.py:217-225 | the session follows `SubmitStep` and keeps its invariant |
| App.RunPage | app.py:166-225 | a signed-out session gets only the login page and its chat state is untouched; a signed-in one gets its chat state initialized and then handles the run's event |

## Left out

- `webhook.py`: a manual integration script with real HTTP calls, timeouts and printing.
- SHA-256 internals: the hash is a parameter. No collision resistance is assumed, since it cannot be proved.
- The PostgREST filter strings. `.or_(f'username.eq.{username},email.eq.{email}')` is modelled as exact matching on the two columns. A username or email containing a comma, a dot or parentheses would change the filter itself; that is not modelled.
- Supabase client calls (`.select`, `.eq`, `.insert`, `.update`, `.execute`) become an in-memory sequence of rows. Database defaults are not modelled: a new row has no `updated_at`, and the insert is assumed to echo back the inserted row. An `insert` that returns no rows (an `IndexError` at `result.data[0]`) is not modelled.
- Row order: a select without `.order()` returns rows in no guaranteed order. The model fixes one order (the sequence) for every select. With unique usernames at most one row matches a login, so the order decides nothing there.
- Concurrent signups racing between the lookup and the insert: concurrency is the remote store's concern.
- Python strings holding lone surrogates, on which `encode()` raises: a Dafny `char` is always a Unicode scalar value.
- Fractional JSON numbers: `Json` numbers are integers.
- The exact exception text for a missing `st.session_state` key: `MissingKeyText` keeps the first sentences and drops the help link.
- The text of an uncaught exception in `main`: it is modelled only as `Crashed`.
- Streamlit rendering: CSS and HTML markup, the emoji prefixes of `st.error`/`st.success`, the `st.radio` tab choice (it decides which form can send an `AuthEvent`), spinners, balloons, `time.sleep`, and the sidebar profile card. `st.rerun()` is modelled as the end of the run.
- The unused "Remember me" checkbox, and form widget state (`clear_on_submit`).
- Timestamp parsing and formatting in `display_message` (`fromisoformat`, `strftime`): library and locale behaviour.
- The hard-coded knowledge-base stats in the sidebar: constant display.
- Configuration loading (`load_dotenv`, `os.getenv`) and client construction.

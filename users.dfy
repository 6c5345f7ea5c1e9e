/**
 * The `users` table and the two store operations of auth.py,
 * `create_user` and `login_user`. The remote table is an in-memory
 * sequence of rows in table order; a remote call that raises is modelled
 * by an `Option<string>` parameter holding the text of its exception,
 * which the source folds into `{'success': False, 'error': str(e)}`.
 */
module Users {
  import opened Wrappers
  import opened Credentials
  import Utf8

  const DuplicateAccount := "Username or email already exists"
  const InvalidCredentials := "Invalid username or password"

  /** One row of `users`; `updatedAt` is `None` until the first login touches it. */
  datatype User = User(
    id: string,
    username: string,
    email: string,
    passwordHash: string,
    createdAt: string,
    updatedAt: Option<string>)

  /** A `select('*')` under a filter: the rows that match, in table order. */
  function Where(rows: seq<User>, p: User -> bool): (r: seq<User>)
    ensures |r| <= |rows|
    ensures forall u :: u in r <==> u in rows && p(u)
  {
    if rows == [] then []
    else (if p(rows[0]) then [rows[0]] else []) + Where(rows[1..], p)
  }

  /** The first row a filter returns is the first matching row of the table. */
  lemma {:induction false} WhereHead(rows: seq<User>, p: User -> bool, i: int)
    requires 0 <= i < |rows| && p(rows[i])
    requires forall j :: 0 <= j < i ==> !p(rows[j])
    ensures Where(rows, p) != [] && Where(rows, p)[0] == rows[i]
  {
    if i > 0 {
      assert !p(rows[0]);
      forall j | 0 <= j < i - 1 ensures !p(rows[1..][j]) {
        assert rows[1..][j] == rows[j + 1];
      }
      WhereHead(rows[1..], p, i - 1);
    }
  }

  /** The filter `.eq('username', username)`. */
  function ByUsername(username: string): User -> bool {
    (u: User) => u.username == username
  }

  /** The filter `.or_('username.eq.<username>,email.eq.<email>')`. */
  function ByUsernameOrEmail(username: string, email: string): User -> bool {
    (u: User) => u.username == username || u.email == email
  }

  /** Some row already has this username, or this email. */
  predicate Taken(rows: seq<User>, username: string, email: string) {
    exists i :: 0 <= i < |rows| && (rows[i].username == username || rows[i].email == email)
  }

  /** No two rows share a username, and no two share an email. */
  predicate UniqueKeys(rows: seq<User>) {
    forall i, j :: 0 <= i < j < |rows| ==>
      rows[i].username != rows[j].username && rows[i].email != rows[j].email
  }

  /** No two rows share an id. */
  predicate UniqueIds(rows: seq<User>) {
    forall i, j :: 0 <= i < j < |rows| ==> rows[i].id != rows[j].id
  }

  /**
   * The decision of `login_user` once its lookup has answered: the first row
   * with exactly this username, accepted only if the password verifies
   * against its digest. Both refusals carry the same text.
   */
  function Authenticate(rows: seq<User>, sha: Sha256, username: string, password: string): (r: Result<User>)
    ensures r.Failure? ==> r.error == InvalidCredentials
    ensures r.Success? ==> r.value in rows && r.value.username == username
                           && VerifyPassword(sha, password, r.value.passwordHash)
    ensures (forall i :: 0 <= i < |rows| ==> rows[i].username != username) ==> r.Failure?
  {
    var found := Where(rows, ByUsername(username));
    if found == [] then Failure(InvalidCredentials)
    else if !VerifyPassword(sha, password, found[0].passwordHash) then Failure(InvalidCredentials)
    else Success(found[0])
  }

  /**
   * Login looks at the first row holding the username and nothing else:
   * it succeeds with that row iff the password verifies against it.
   */
  lemma AuthenticateFirst(rows: seq<User>, sha: Sha256, username: string, password: string, i: int)
    requires 0 <= i < |rows| && rows[i].username == username
    requires forall j :: 0 <= j < i ==> rows[j].username != username
    ensures Authenticate(rows, sha, username, password)
            == if VerifyPassword(sha, password, rows[i].passwordHash) then Success(rows[i])
               else Failure(InvalidCredentials)
  {
    WhereHead(rows, ByUsername(username), i);
  }

  /** In a table with unique usernames, the account holding the username is the one checked. */
  lemma AuthenticateUnique(rows: seq<User>, sha: Sha256, username: string, password: string, i: int)
    requires UniqueKeys(rows)
    requires 0 <= i < |rows| && rows[i].username == username
    ensures Authenticate(rows, sha, username, password)
            == if VerifyPassword(sha, password, rows[i].passwordHash) then Success(rows[i])
               else Failure(InvalidCredentials)
  {
    AuthenticateFirst(rows, sha, username, password, i);
  }

  /** The login-time update `update({'updated_at': now}).eq('id', id)`: every row with that id is touched. */
  function Touch(rows: seq<User>, id: string, now: string): (r: seq<User>)
    ensures |r| == |rows|
  {
    seq(|rows|, i requires 0 <= i < |rows| =>
      if rows[i].id == id then rows[i].(updatedAt := Some(now)) else rows[i])
  }

  /** With unique ids the touch changes one row, and only its `updatedAt`. */
  lemma TouchOneRow(rows: seq<User>, i: int, now: string)
    requires UniqueIds(rows) && 0 <= i < |rows|
    ensures Touch(rows, rows[i].id, now) == rows[i := rows[i].(updatedAt := Some(now))]
  {
  }

  /** Touching timestamps never breaks uniqueness of usernames, emails or ids. */
  lemma TouchKeepsKeys(rows: seq<User>, id: string, now: string)
    ensures UniqueKeys(rows) ==> UniqueKeys(Touch(rows, id, now))
    ensures UniqueIds(rows) ==> UniqueIds(Touch(rows, id, now))
  {
  }

  /** An insert of a row whose username and email are both new keeps the keys unique. */
  lemma InsertKeepsKeys(rows: seq<User>, u: User)
    requires UniqueKeys(rows) && !Taken(rows, u.username, u.email)
    ensures UniqueKeys(rows + [u])
  {
  }

  /**
   * What `create_user` returns: a refusal when the lookup raises, when any
   * row has the username or the email, or when the insert raises;
   * otherwise the new row, whose digest is `HashPassword(password)`.
   */
  function CreateReply(rows: seq<User>, sha: Sha256, username: string, email: string, password: string,
                       freshId: string, now: string,
                       selectError: Option<string>, insertError: Option<string>): (r: Result<User>)
    ensures r.Success? <==> selectError.None? && !Taken(rows, username, email) && insertError.None?
    ensures r.Success? ==> r.value == User(freshId, username, email, HashPassword(sha, password), now, None)
    ensures r.Success? ==> VerifyPassword(sha, password, r.value.passwordHash)
    ensures selectError.Some? ==> r == Failure(selectError.value)
    ensures selectError.None? && Taken(rows, username, email) ==> r == Failure(DuplicateAccount)
    ensures selectError.None? && !Taken(rows, username, email) && insertError.Some?
            ==> r == Failure(insertError.value)
  {
    if selectError.Some? then Failure(selectError.value)
    else if Where(rows, ByUsernameOrEmail(username, email)) != [] then
      var hit := Where(rows, ByUsernameOrEmail(username, email))[0];
      assert hit in rows;
      Failure(DuplicateAccount)
    else
      assert !Taken(rows, username, email) by {
        forall i | 0 <= i < |rows| ensures rows[i].username != username && rows[i].email != email {
          assert rows[i] !in Where(rows, ByUsernameOrEmail(username, email));
        }
      }
      if insertError.Some? then Failure(insertError.value)
      else Success(User(freshId, username, email, HashPassword(sha, password), now, None))
  }

  /**
   * What `login_user` returns: a refusal when the lookup raises, the one
   * text `InvalidCredentials` for an unknown username and for a wrong
   * password alike, a refusal when the `updated_at` touch raises (it runs
   * inside the same `try`), and otherwise the row as the lookup read it.
   */
  function LoginReply(rows: seq<User>, sha: Sha256, username: string, password: string,
                      selectError: Option<string>, updateError: Option<string>): (r: Result<User>)
    ensures r.Success? <==> selectError.None? && updateError.None?
                            && Authenticate(rows, sha, username, password).Success?
    ensures r.Success? ==> r.value in rows && r.value.username == username
                           && VerifyPassword(sha, password, r.value.passwordHash)
    ensures selectError.Some? ==> r == Failure(selectError.value)
    ensures selectError.None? && Authenticate(rows, sha, username, password).Failure?
            ==> r == Failure(InvalidCredentials)
    ensures selectError.None? && Authenticate(rows, sha, username, password).Success? && updateError.Some?
            ==> r == Failure(updateError.value)
  {
    if selectError.Some? then Failure(selectError.value)
    else
      match Authenticate(rows, sha, username, password)
      case Failure(e) => Failure(e)
      case Success(u) => if updateError.Some? then Failure(updateError.value) else Success(u)
  }

  /**
   * Signing in reveals nothing about which usernames exist: with the store
   * answering, an unknown username and a known one with a wrong password
   * draw the very same reply.
   */
  lemma NoUsernameEnumeration(rows: seq<User>, sha: Sha256, unknown: string, known: string,
                              password: string, wrong: string, updateError: Option<string>, i: int)
    requires forall j :: 0 <= j < |rows| ==> rows[j].username != unknown
    requires 0 <= i < |rows| && rows[i].username == known
    requires forall j :: 0 <= j < i ==> rows[j].username != known
    requires !VerifyPassword(sha, wrong, rows[i].passwordHash)
    ensures LoginReply(rows, sha, unknown, password, None, updateError)
            == LoginReply(rows, sha, known, wrong, None, updateError)
            == Failure(InvalidCredentials)
  {
    AuthenticateFirst(rows, sha, known, wrong, i);
  }

  /**
   * Signing up "alice" on an empty table succeeds; a second "alice" with
   * another email is a duplicate; "alice" then logs in with the signup
   * password as the very row created, and a password whose bytes do not
   * collide with it under SHA-256 is refused with the common text.
   */
  lemma AliceScenario(sha: Sha256)
    ensures var first := CreateReply([], sha, "alice", "a@x.com", "secret1", "id-1", "t0", None, None);
            && first.Success?
            && CreateReply([first.value], sha, "alice", "b@y.com", "secret2", "id-2", "t1", None, None)
               == Failure(DuplicateAccount)
            && LoginReply([first.value], sha, "alice", "secret1", None, None) == Success(first.value)
            && (sha(Utf8.Encode("wrong")) != sha(Utf8.Encode("secret1")) ==>
                  LoginReply([first.value], sha, "alice", "wrong", None, None) == Failure(InvalidCredentials))
  {
  }

  class UserTable {
    var rows: seq<User>

    /** Usernames and emails are unique, which every successful `CreateUser` keeps. */
    predicate Valid()
      reads this
    {
      UniqueKeys(rows)
    }

    constructor (initial: seq<User>)
      ensures rows == initial
    {
      rows := initial;
    }

    /**
     * `create_user`: the OR lookup, then the insert of one row, which the
     * store echoes back as the reply.
     */
    method CreateUser(sha: Sha256, username: string, email: string, password: string,
                      freshId: string, now: string,
                      selectError: Option<string>, insertError: Option<string>)
      returns (r: Result<User>)
      modifies this
      ensures r == CreateReply(old(rows), sha, username, email, password, freshId, now, selectError, insertError)
      ensures r.Success? ==> rows == old(rows) + [r.value]
      ensures r.Failure? ==> rows == old(rows)
      ensures old(Valid()) ==> Valid()
      ensures old(UniqueIds(rows)) && (forall u :: u in old(rows) ==> u.id != freshId) ==> UniqueIds(rows)
    {
      if selectError.Some? {
        return Failure(selectError.value);
      }
      var existing := Where(rows, ByUsernameOrEmail(username, email));
      if existing != [] {
        return Failure(DuplicateAccount);
      }
      assert !Taken(rows, username, email) by {
        forall i | 0 <= i < |rows| ensures rows[i].username != username && rows[i].email != email {
          assert rows[i] !in existing;
        }
      }
      var record := User(freshId, username, email, HashPassword(sha, password), now, None);
      if insertError.Some? {
        return Failure(insertError.value);
      }
      if Valid() {
        InsertKeepsKeys(rows, record);
      }
      rows := rows + [record];
      r := Success(rows[|rows| - 1]);
    }

    /**
     * `login_user`: the lookup by username, the digest check on the first
     * row found, then the `updated_at` touch of every row with its id.
     */
    method LoginUser(sha: Sha256, username: string, password: string, now: string,
                     selectError: Option<string>, updateError: Option<string>)
      returns (r: Result<User>)
      modifies this
      ensures r == LoginReply(old(rows), sha, username, password, selectError, updateError)
      ensures r.Success? ==> rows == Touch(old(rows), r.value.id, now)
      ensures r.Failure? ==> rows == old(rows)
      ensures old(Valid()) ==> Valid()
      ensures r.Success? && old(UniqueIds(rows))
              ==> exists i :: 0 <= i < |old(rows)| && old(rows)[i] == r.value
                             && rows == old(rows)[i := r.value.(updatedAt := Some(now))]
    {
      if selectError.Some? {
        return Failure(selectError.value);
      }
      var found := Where(rows, ByUsername(username));
      if found == [] {
        return Failure(InvalidCredentials);
      }
      var user := found[0];
      if !VerifyPassword(sha, password, user.passwordHash) {
        return Failure(InvalidCredentials);
      }
      if updateError.Some? {
        return Failure(updateError.value);
      }
      TouchKeepsKeys(rows, user.id, now);
      assert user in rows;
      ghost var i :| 0 <= i < |rows| && rows[i] == user;
      if UniqueIds(rows) {
        TouchOneRow(rows, i, now);
      }
      rows := Touch(rows, user.id, now);
      r := Success(user);
    }
  }
}

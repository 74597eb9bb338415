/** The account store behind `/api/signup` and `/api/login`: a `users` table with an
    auto-incremented id and a unique email, holding a password hash. The password-hashing
    library is a parameter: `hash` produces what is stored, `matches` compares a
    plaintext with a stored hash. */
module Accounts {
  import opened Wrappers

  /** A row of the `users` table. */
  datatype UserRow = UserRow(id: nat, name: string, email: string, password: string)

  /** What a successful login sends back: the row without its password. */
  datatype Profile = Profile(id: nat, name: string, email: string)

  datatype Hasher = Hasher(hash: string -> string, matches: (string, string) -> bool)

  const MsgMissingFields: string := "All fields are required"
  const MsgEmailExists: string := "Email already exists"
  const MsgUserNotFound: string := "User not found"
  const MsgInvalidPassword: string := "Invalid password"

  /** The outcome of a signup, with the HTTP status and `error` text it is sent as. */
  datatype SignupResult = Created(userId: nat) | MissingFields | EmailExists {
    /** 201 Created for a new user, 400 Bad Request for either rejection. */
    function Status(): (code: int)
      ensures 200 <= code < 300 <==> Created?
      ensures !Created? ==> code == 400
    {
      if Created? then 201 else 400
    }

    /** The body's `error` field: absent on success, a non-empty message otherwise. */
    function ErrorText(): (e: Option<string>)
      ensures e.None? <==> Created?
      ensures e.Some? ==> e.value != ""
    {
      match this
      case Created(_) => None
      case MissingFields => Some(MsgMissingFields)
      case EmailExists => Some(MsgEmailExists)
    }
  }

  /** The outcome of a login, with the HTTP status and `error` text it is sent as. */
  datatype LoginResult = LoggedIn(user: Profile) | UserNotFound | InvalidPassword {
    /** `res.json`'s default 200 on success, 400 for either rejection. */
    function Status(): (code: int)
      ensures 200 <= code < 300 <==> LoggedIn?
      ensures !LoggedIn? ==> code == 400
    {
      if LoggedIn? then 200 else 400
    }

    /** The body's `error` field: absent on success, a non-empty message otherwise. */
    function ErrorText(): (e: Option<string>)
      ensures e.None? <==> LoggedIn?
      ensures e.Some? ==> e.value != ""
    {
      match this
      case LoggedIn(_) => None
      case UserNotFound => Some(MsgUserNotFound)
      case InvalidPassword => Some(MsgInvalidPassword)
    }
  }

  /** A client can tell the signup outcomes apart by status and `error` text alone: equal
      replies come from the same kind of outcome, and equal failures are the same failure. */
  lemma SignupRepliesDistinct(r1: SignupResult, r2: SignupResult)
    requires r1.Status() == r2.Status() && r1.ErrorText() == r2.ErrorText()
    ensures r1.Created? == r2.Created?
    ensures !r1.Created? ==> r1 == r2
  {
    assert MsgMissingFields[0] != MsgEmailExists[0];
  }

  /** Likewise for the login outcomes. */
  lemma LoginRepliesDistinct(r1: LoginResult, r2: LoginResult)
    requires r1.Status() == r2.Status() && r1.ErrorText() == r2.ErrorText()
    ensures r1.LoggedIn? == r2.LoggedIn?
    ensures !r1.LoggedIn? ==> r1 == r2
  {
    assert MsgUserNotFound[0] != MsgInvalidPassword[0];
  }

  /** A request field is truthy when it is present and not the empty string. */
  predicate Truthy(field: Option<string>) {
    field.Some? && field.value != ""
  }

  ghost predicate EmailsUnique(rows: seq<UserRow>) {
    forall i, j :: 0 <= i < j < |rows| ==> rows[i].email != rows[j].email
  }

  /** `SELECT * FROM users WHERE email = ?` with `db.get`: the first matching row. */
  function Lookup(rows: seq<UserRow>, email: string): (r: Option<UserRow>)
    ensures r.None? <==> forall i :: 0 <= i < |rows| ==> rows[i].email != email
    ensures r.Some? ==>
              exists i :: 0 <= i < |rows| && rows[i] == r.value && rows[i].email == email
                          && forall j :: 0 <= j < i ==> rows[j].email != email
  {
    if rows == [] then None
    else if rows[0].email == email then Some(rows[0])
    else
      var r := Lookup(rows[1..], email);
      assert forall i :: 0 < i < |rows| ==> rows[i] == rows[1..][i - 1];
      r
  }

  /** With unique emails the lookup finds the one row that carries the email. */
  lemma LookupUnique(rows: seq<UserRow>, i: nat)
    requires EmailsUnique(rows)
    requires i < |rows|
    ensures Lookup(rows, rows[i].email) == Some(rows[i])
  {
  }

  /** Appending a row whose email is not yet taken keeps emails unique. */
  lemma AppendKeepsEmailsUnique(rows: seq<UserRow>, row: UserRow)
    requires EmailsUnique(rows)
    requires Lookup(rows, row.email).None?
    ensures EmailsUnique(rows + [row])
  {
  }

  /** Once a row with a fresh email is appended, looking that email up finds the row. */
  lemma {:induction false} LookupAfterAppend(rows: seq<UserRow>, row: UserRow)
    requires Lookup(rows, row.email).None?
    ensures Lookup(rows + [row], row.email) == Some(row)
  {
    if rows == [] {
      assert rows + [row] == [row];
    } else {
      assert (rows + [row])[1..] == rows[1..] + [row];
      LookupAfterAppend(rows[1..], row);
    }
  }

  class UserTable {
    var rows: seq<UserRow>
    /** The id AUTOINCREMENT hands out next. */
    var nextId: nat

    /** Emails are unique, ids start at 1, grow with the row order and stay below
        `nextId`. */
    ghost predicate Valid()
      reads this
    {
      1 <= nextId && EmailsUnique(rows)
      && (forall i :: 0 <= i < |rows| ==> 1 <= rows[i].id < nextId)
      && (forall i, j :: 0 <= i < j < |rows| ==> rows[i].id < rows[j].id)
    }

    constructor ()
      ensures Valid()
      ensures rows == [] && nextId == 1
    {
      rows := [];
      nextId := 1;
    }

    /** `POST /api/signup`. The fields are checked first; then the row is inserted
        with the hash of the password, unless the unique email constraint rejects it,
        in which case the table (and the id counter) stay as they were. */
    method Signup(h: Hasher, name: Option<string>, email: Option<string>, password: Option<string>)
      returns (r: SignupResult)
      requires Valid()
      modifies this
      ensures Valid()
      ensures r == MissingFields <==> !(Truthy(name) && Truthy(email) && Truthy(password))
      ensures r == EmailExists <==>
                Truthy(name) && Truthy(email) && Truthy(password)
                && exists i :: 0 <= i < |old(rows)| && old(rows)[i].email == email.value
      ensures !r.Created? ==> rows == old(rows) && nextId == old(nextId)
      ensures r.Created? ==>
                r.userId == old(nextId)
                && rows == old(rows) + [UserRow(r.userId, name.value, email.value, h.hash(password.value))]
                && nextId == old(nextId) + 1
      ensures r.Created? ==> forall i :: 0 <= i < |old(rows)| ==> old(rows)[i].id != r.userId
    {
      if !Truthy(name) || !Truthy(email) || !Truthy(password) {
        return MissingFields;
      }
      var hashed := h.hash(password.value);
      if Lookup(rows, email.value).Some? {
        return EmailExists;
      }
      AppendKeepsEmailsUnique(rows, UserRow(nextId, name.value, email.value, hashed));
      rows := rows + [UserRow(nextId, name.value, email.value, hashed)];
      r := Created(nextId);
      nextId := nextId + 1;
    }

    /** `POST /api/login`. An absent email binds as NULL, which no row's email equals.
        The table is only read. */
    method Login(h: Hasher, email: Option<string>, password: string) returns (r: LoginResult)
      requires Valid()
      ensures r == UserNotFound <==>
                email.None? || forall i :: 0 <= i < |rows| ==> rows[i].email != email.value
      ensures forall i :: 0 <= i < |rows| && email == Some(rows[i].email) ==>
                r == if h.matches(password, rows[i].password)
                     then LoggedIn(Profile(rows[i].id, rows[i].name, rows[i].email))
                     else InvalidPassword
    {
      if email.None? {
        return UserNotFound;
      }
      var found := Lookup(rows, email.value);
      if found.None? {
        return UserNotFound;
      }
      var user := found.value;
      forall i | 0 <= i < |rows| && email == Some(rows[i].email)
        ensures user == rows[i]
      {
        LookupUnique(rows, i);
      }
      if h.matches(password, user.password) {
        r := LoggedIn(Profile(user.id, user.name, user.email));
      } else {
        r := InvalidPassword;
      }
    }
  }

  /** A client of the two endpoints: after a successful signup, logging in with the
      same email and password gives back the new id, the name and the email, as long as
      the hashing library matches a password against its own hash. */
  method SignupThenLogin(t: UserTable, h: Hasher, name: string, email: string, password: string)
      returns (s: SignupResult, l: LoginResult)
    requires t.Valid()
    requires h.matches(password, h.hash(password))
    modifies t
    ensures t.Valid()
    ensures s.Created? ==> l == LoggedIn(Profile(s.userId, name, email))
    ensures s.Created? <==>
              name != "" && email != "" && password != ""
              && forall i :: 0 <= i < |old(t.rows)| ==> old(t.rows)[i].email != email
  {
    s := t.Signup(h, Some(name), Some(email), Some(password));
    l := t.Login(h, Some(email), password);
    if s.Created? {
      var k := |t.rows| - 1;
      assert t.rows[k] == UserRow(s.userId, name, email, h.hash(password));
    }
  }
}

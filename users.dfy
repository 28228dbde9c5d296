/**
 * The user entity: the validation rules attached to its fields, the unique
 * columns of the users table, and the before-insert hook that replaces the
 * plaintext password by its hash. The email-format check and the hash
 * function are library code and enter as function parameters.
 */
module Users {
  import opened Wrappers

  const EmailFormatMessage := "Wrong Format"
  const EmailLengthMessage := "Cannot be empty"
  const UsernameMessage := "Username must be more than 3."
  const PasswordMessage := "Password must be more than 6 digits."

  /** class-validator's Length(min, max): the length lies in [min, max]. */
  predicate Length(s: string, min: nat, max: nat)
  {
    min <= |s| <= max
  }

  /** Messages of the two rules on `email`: the format check and Length(1, 255). */
  function EmailErrors(email: string, isEmail: string -> bool): (r: set<string>)
    ensures EmailFormatMessage in r <==> !isEmail(email)
    ensures EmailLengthMessage in r <==> !(1 <= |email| <= 255)
    ensures r <= {EmailFormatMessage, EmailLengthMessage}
  {
    (if isEmail(email) then {} else {EmailFormatMessage})
    + (if Length(email, 1, 255) then {} else {EmailLengthMessage})
  }

  /** The field-keyed errors of a candidate user; a field appears only when one of its rules fails. */
  function ValidateUser(email: string, username: string, password: string, isEmail: string -> bool)
    : (r: map<string, set<string>>)
    ensures r.Keys <= {"email", "username", "password"}
    ensures "email" in r <==> !isEmail(email) || !(1 <= |email| <= 255)
    ensures "email" in r ==> r["email"] == EmailErrors(email, isEmail) && r["email"] != {}
    ensures "username" in r <==> !(3 <= |username| <= 32)
    ensures "username" in r ==> r["username"] == {UsernameMessage}
    ensures "password" in r <==> !(6 <= |password| <= 255)
    ensures "password" in r ==> r["password"] == {PasswordMessage}
    ensures r == map[] <==>
              isEmail(email) && 1 <= |email| <= 255 && 3 <= |username| <= 32 && 6 <= |password| <= 255
  {
    var e := EmailErrors(email, isEmail);
    var m1: map<string, set<string>> := if e == {} then map[] else map["email" := e];
    var m2 := if Length(username, 3, 32) then m1 else m1["username" := {UsernameMessage}];
    var m3 := if Length(password, 6, 255) then m2 else m2["password" := {PasswordMessage}];
    assert "email" in m3 ==> "email" in m1;
    m3
  }

  /** A persisted row of the users table. */
  datatype Row = Row(email: string, username: string, password: string)

  /** Some row other than `self` already holds this email or this username. */
  ghost predicate Clash(rows: map<nat, Row>, self: Option<nat>, email: string, username: string)
  {
    exists j :: j in rows && Some(j) != self && (rows[j].email == email || rows[j].username == username)
  }

  /** The unique columns: no two rows share an email or a username. */
  ghost predicate Unique(rows: map<nat, Row>)
  {
    forall i, j :: i in rows && j in rows && i != j ==>
      rows[i].email != rows[j].email && rows[i].username != rows[j].username
  }

  /** An in-memory user entity; `id` is set once the row exists. */
  class UserEntity {
    var id: Option<nat>
    var email: string
    var username: string
    var password: string

    constructor (email: string, username: string, password: string)
      ensures this.id == None
      ensures this.email == email && this.username == username && this.password == password
    {
      this.id := None;
      this.email, this.username, this.password := email, username, password;
    }

    /** The before-insert hook: the password field is overwritten by its hash. */
    method HashPassword(hash: string -> string)
      modifies this`password
      ensures password == hash(old(password))
    {
      password := hash(password);
    }
  }

  /** The users table. */
  class UserTable {
    var rows: map<nat, Row>
    /** The next generated primary key. */
    var nextId: nat

    ghost predicate Valid()
      reads this
    {
      (forall j :: j in rows ==> j < nextId) && Unique(rows)
    }

    constructor ()
      ensures rows == map[] && Valid()
    {
      rows, nextId := map[], 0;
    }

    /**
     * The ORM's save: an entity whose row exists is updated in place, which
     * fires no hook; otherwise the before-insert hook hashes the password and
     * the row is inserted. A unique-column violation fails either way and adds
     * or changes no row; the hook has already run when an insert fails.
     */
    method Save(u: UserEntity, hash: string -> string) returns (ok: bool)
      modifies this, u
      ensures u.email == old(u.email) && u.username == old(u.username)
      ensures var update := old(u.id).Some? && old(u.id).value in old(rows);
              && (update ==> u.password == old(u.password) && u.id == old(u.id))
              && (update ==> (ok <==> !Clash(old(rows), old(u.id), u.email, u.username)))
              && (update && ok ==> rows == old(rows)[old(u.id).value := Row(u.email, u.username, u.password)])
              && (!update ==> u.password == hash(old(u.password)))
              && (!update ==> (ok <==> !Clash(old(rows), None, u.email, u.username)))
              && (!update && ok ==>
                    u.id.Some? && rows == old(rows)[u.id.value := Row(u.email, u.username, hash(old(u.password)))])
              && (!update && ok && old(Valid()) ==> u.id.value !in old(rows))
      ensures !ok ==> rows == old(rows) && u.id == old(u.id)
      ensures old(Valid()) ==> Valid()
    {
      if u.id.Some? && u.id.value in rows {
        var id := u.id.value;
        ok := !exists j | j in rows && j != id :: rows[j].email == u.email || rows[j].username == u.username;
        if ok {
          rows := rows[id := Row(u.email, u.username, u.password)];
        }
        return;
      }
      u.HashPassword(hash);
      ok := !exists j | j in rows :: rows[j].email == u.email || rows[j].username == u.username;
      if ok {
        var id := if u.id.Some? then u.id.value else nextId;
        rows := rows[id := Row(u.email, u.username, u.password)];
        if id >= nextId {
          nextId := id + 1;
        }
        u.id := Some(id);
      }
    }

    /**
     * Registration followed by a second save of the same entity: the second
     * save is an update, so the stored password is the plaintext hashed once.
     */
    method RegisterThenResave(email: string, username: string, plain: string, hash: string -> string)
      returns (first: bool, second: bool, id: Option<nat>)
      requires Valid()
      modifies this
      ensures first <==> !Clash(old(rows), None, email, username)
      ensures !first ==> rows == old(rows) && id == None
      ensures first ==> second && id.Some? && id.value !in old(rows)
                        && rows == old(rows)[id.value := Row(email, username, hash(plain))]
      ensures Valid()
    {
      var u := new UserEntity(email, username, plain);
      first := Save(u, hash);
      id := u.id;
      if !first {
        second := false;
        return;
      }
      second := Save(u, hash);
      assert !Clash(old(rows), None, email, username);
    }
  }
}

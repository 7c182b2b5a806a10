/**
 * The `User` entity with its bean-validation and column constraints, and the
 * user table behind `UserRepository`: rows in insertion order, the row at
 * position i carrying the store-generated id i + 1.
 */
module Users {
  import opened Wrappers
  import opened Strings
  import opened Exceptions

  datatype User = User(id: Option<int>, email: Option<string>, password: Option<string>, role: Option<string>)

  const EMAIL_MAX := 50
  const PASSWORD_MAX := 100
  const ROLE_MAX := 20

  /** `@NotBlank`: present, and something is left after `trim()` (`Strings.TrimNonEmpty`). */
  predicate NotBlank(s: Option<string>) {
    s.Some? && HasVisible(s.value)
  }

  /** `@NotBlank` together with `@Size(max = n)` and the column length `n`. */
  predicate FieldOk(s: Option<string>, n: nat) {
    NotBlank(s) && |s.value| <= n
  }

  /** A user the validator and the table accept (the `@Email` syntax check is not part of the model). */
  predicate ValidUser(u: User) {
    FieldOk(u.email, EMAIL_MAX) && FieldOk(u.password, PASSWORD_MAX) && FieldOk(u.role, ROLE_MAX)
  }

  /** The names of the fields whose constraints `u` violates. */
  function Violations(u: User): (r: set<string>)
    ensures r <= {"email", "password", "role"}
    ensures "email" in r <==> !FieldOk(u.email, EMAIL_MAX)
    ensures "password" in r <==> !FieldOk(u.password, PASSWORD_MAX)
    ensures "role" in r <==> !FieldOk(u.role, ROLE_MAX)
    ensures r == {} <==> ValidUser(u)
  {
    (if FieldOk(u.email, EMAIL_MAX) then {} else {"email"}) +
    (if FieldOk(u.password, PASSWORD_MAX) then {} else {"password"}) +
    (if FieldOk(u.role, ROLE_MAX) then {} else {"role"})
  }

  /** The table invariant: ids are positions plus one, every row is valid, emails are unique. */
  ghost predicate WellFormed(users: seq<User>) {
    (forall i :: 0 <= i < |users| ==> users[i].id == Some(i + 1) && ValidUser(users[i])) &&
    (forall i, j :: 0 <= i < |users| && 0 <= j < |users| && i != j ==> users[i].email != users[j].email)
  }

  /** Some row other than the one at `except` already holds `email`: the unique index would be violated. */
  predicate EmailTaken(users: seq<User>, email: Option<string>, except: int) {
    exists j :: 0 <= j < |users| && j != except && users[j].email == email
  }

  /** `findByEmail`: the first row with exactly that email. */
  function LookupEmail(users: seq<User>, email: string): (r: Option<User>)
    ensures r.Some? ==> r.value in users && r.value.email == Some(email)
    ensures r.None? <==> forall i :: 0 <= i < |users| ==> users[i].email != Some(email)
  {
    if users == [] then None
    else if users[0].email == Some(email) then Some(users[0])
    else
      var r := LookupEmail(users[1..], email);
      assert forall i :: 1 <= i < |users| ==> users[i] == users[1..][i - 1];
      r
  }

  /** In a well-formed table the lookup finds the one row holding the email. */
  lemma LookupStoredEmail(users: seq<User>, i: int)
    requires WellFormed(users) && 0 <= i < |users|
    ensures LookupEmail(users, users[i].email.value) == Some(users[i])
  {
    var r := LookupEmail(users, users[i].email.value);
    var j :| 0 <= j < |users| && users[j] == r.value;
  }

  /**
   * `save` on the user table. Bean validation runs first. An entity without
   * id is new: it is inserted with the next generated id. An entity whose id
   * names a row is merged over that row; any other id is inserted like a new
   * entity. A clash on the unique email column fails the write.
   */
  function SaveUserOp(users: seq<User>, u: User): (res: (Result<User, Exception>, seq<User>))
    ensures !ValidUser(u) ==> res == (Err(ConstraintViolationException(Violations(u))), users)
    ensures res.0.Err? ==> res.1 == users
    ensures res.0.Ok? ==> ValidUser(u) && res.0.value.(id := u.id) == u && res.0.value.id.Some?
    ensures res.0.Ok? ==> 1 <= res.0.value.id.value <= |res.1| && res.1[res.0.value.id.value - 1] == res.0.value
    ensures u.id.None? && res.0.Ok? ==> res.0.value.id == Some(|users| + 1) && |res.1| == |users| + 1
  {
    if !ValidUser(u) then (Err(ConstraintViolationException(Violations(u))), users)
    else if u.id.Some? && 1 <= u.id.value <= |users| then
      var i := u.id.value - 1;
      if EmailTaken(users, u.email, i) then (Err(DataIntegrityViolationException), users)
      else (Ok(u), users[i := u])
    else if EmailTaken(users, u.email, -1) then (Err(DataIntegrityViolationException), users)
    else
      var saved := u.(id := Some(|users| + 1));
      (Ok(saved), users + [saved])
  }

  /** A successful save grows the table by at most the one appended row and leaves every other row as it was. */
  lemma SaveUserFrame(users: seq<User>, u: User)
    ensures var (r, users') := SaveUserOp(users, u);
      r.Ok? ==>
        && |users'| == (if r.value.id.value <= |users| then |users| else |users| + 1)
        && (forall j :: 0 <= j < |users| && j != r.value.id.value - 1 ==> users'[j] == users[j])
  {
  }

  lemma MergeKeepsWellFormed(users: seq<User>, i: int, u: User)
    requires WellFormed(users) && 0 <= i < |users|
    requires u.id == Some(i + 1) && ValidUser(u) && !EmailTaken(users, u.email, i)
    ensures WellFormed(users[i := u])
  {
    var users' := users[i := u];
    forall j | 0 <= j < |users'| ensures users'[j].id == Some(j + 1) && ValidUser(users'[j]) {
      if j != i {
        assert users'[j] == users[j];
      }
    }
    forall j, k | 0 <= j < |users'| && 0 <= k < |users'| && j != k
      ensures users'[j].email != users'[k].email
    {
      if j == i {
        assert users'[k] == users[k];
      } else if k == i {
        assert users'[j] == users[j];
      } else {
        assert users'[j] == users[j] && users'[k] == users[k];
      }
    }
  }

  lemma AppendKeepsWellFormed(users: seq<User>, s: User)
    requires WellFormed(users)
    requires s.id == Some(|users| + 1) && ValidUser(s) && !EmailTaken(users, s.email, -1)
    ensures WellFormed(users + [s])
  {
    var users' := users + [s];
    forall j | 0 <= j < |users'| ensures users'[j].id == Some(j + 1) && ValidUser(users'[j]) {
      if j < |users| {
        assert users'[j] == users[j];
      }
    }
    forall j, k | 0 <= j < |users'| && 0 <= k < |users'| && j != k
      ensures users'[j].email != users'[k].email
    {
      if j == |users| {
        assert users'[k] == users[k];
      } else if k == |users| {
        assert users'[j] == users[j];
      } else {
        assert users'[j] == users[j] && users'[k] == users[k];
      }
    }
  }

  /** A write keeps the table well formed: ids in place, every row valid, emails unique. */
  lemma SaveUserKeepsWellFormed(users: seq<User>, u: User)
    requires WellFormed(users)
    ensures WellFormed(SaveUserOp(users, u).1)
  {
    var users' := SaveUserOp(users, u).1;
    if !ValidUser(u) {
      assert users' == users;
    } else if u.id.Some? && 1 <= u.id.value <= |users| {
      if EmailTaken(users, u.email, u.id.value - 1) {
        assert users' == users;
      } else {
        assert users' == users[u.id.value - 1 := u];
        MergeKeepsWellFormed(users, u.id.value - 1, u);
      }
    } else if EmailTaken(users, u.email, -1) {
      assert users' == users;
    } else {
      assert users' == users + [u.(id := Some(|users| + 1))];
      AppendKeepsWellFormed(users, u.(id := Some(|users| + 1)));
    }
  }

  /** Only an existing email can make a valid write fail, and a saved user is found under its email. */
  lemma SaveUserOutcome(users: seq<User>, u: User)
    requires WellFormed(users) && ValidUser(u)
    ensures SaveUserOp(users, u).0.Err? ==> SaveUserOp(users, u).0 == Err(DataIntegrityViolationException)
    ensures (forall j :: 0 <= j < |users| ==> users[j].email != u.email) ==> SaveUserOp(users, u).0.Ok?
    ensures SaveUserOp(users, u).0.Ok? ==>
      LookupEmail(SaveUserOp(users, u).1, u.email.value) == Some(SaveUserOp(users, u).0.value)
  {
    var (r, users') := SaveUserOp(users, u);
    if r.Ok? {
      SaveUserKeepsWellFormed(users, u);
      LookupStoredEmail(users', r.value.id.value - 1);
    }
  }

  /** A new user gets an id the store chose, one no existing row has. */
  lemma NewUserIdIsStoreGenerated(users: seq<User>, u: User)
    requires WellFormed(users) && u.id.None?
    requires SaveUserOp(users, u).0.Ok?
    ensures forall j :: 0 <= j < |users| ==> users[j].id != SaveUserOp(users, u).0.value.id
  {
  }

  /** The table object the services are given. */
  class UserRepository {
    var users: seq<User>

    ghost predicate Valid()
      reads this
    {
      WellFormed(users)
    }

    constructor ()
      ensures Valid() && users == []
    {
      users := [];
    }

    /** `findByEmail`. */
    function FindByEmail(email: string): (r: Option<User>)
      reads this
      ensures r.Some? ==> r.value in users && r.value.email == Some(email)
      ensures r.None? <==> forall i :: 0 <= i < |users| ==> users[i].email != Some(email)
    {
      LookupEmail(users, email)
    }

    method Save(u: User) returns (r: Result<User, Exception>)
      requires Valid()
      modifies this
      ensures Valid()
      ensures (r, users) == SaveUserOp(old(users), u)
    {
      ghost var expected := SaveUserOp(users, u);
      SaveUserKeepsWellFormed(users, u);
      if !ValidUser(u) {
        r := Err(ConstraintViolationException(Violations(u)));
      } else if u.id.Some? && 1 <= u.id.value <= |users| {
        if EmailTaken(users, u.email, u.id.value - 1) {
          r := Err(DataIntegrityViolationException);
        } else {
          assert expected == (Ok(u), users[u.id.value - 1 := u]);
          users := users[u.id.value - 1 := u];
          r := Ok(u);
        }
      } else if EmailTaken(users, u.email, -1) {
        r := Err(DataIntegrityViolationException);
      } else {
        var saved := u.(id := Some(|users| + 1));
        assert expected == (Ok(saved), users + [saved]);
        users := users + [saved];
        r := Ok(saved);
      }
    }
  }
}

/** `AuthController`: the login echo and the registration endpoint. */
module AuthController {
  import opened Wrappers
  import opened Exceptions
  import opened Authentications
  import opened Users
  import opened AuthService

  /** What `BCryptPasswordEncoder.encode` throws for a null password. */
  const RAW_PASSWORD_NULL := "rawPassword cannot be null"

  /**
   * `GET /api/auth/login`: 202 with the authentication it was handed. The log
   * line reads `auth.getName()` first, so a missing authentication throws there.
   */
  function Login(auth: Option<Authentication>): (r: Result<ResponseEntity<Authentication>, Exception>)
    ensures auth.None? ==> r == Err(NullPointerException)
    ensures auth.Some? ==> r.Ok? && r.value.status.Code() == 202 && r.value.body == Some(auth.value)
  {
    match auth
    case None => Err(NullPointerException)
    case Some(_) =>
      match GetAuthenticationDetails(auth)
      case Ok(details) => Ok(ResponseEntity(Some(details), ACCEPTED))
      case Err(e) => Err(e)
  }

  /** The user as `register` hands it on: the password replaced by its encoding, nothing else touched. */
  function Encoded(u: User, encode: string -> string): (v: User)
    requires u.password.Some?
    ensures v.(password := u.password) == u
    ensures v.password == Some(encode(u.password.value))
  {
    u.(password := Some(encode(u.password.value)))
  }

  /**
   * `POST /api/auth/register`: log the email (a missing body throws), encode the
   * password (a null one throws), register, answer 201 with the service's text.
   */
  function RegisterSpec(users: seq<User>, user: Option<User>, encode: string -> string)
    : (res: (Result<ResponseEntity<string>, Exception>, seq<User>))
    ensures user.None? ==> res == (Err(NullPointerException), users)
    ensures user.Some? && user.value.password.None? ==> res == (Err(IllegalArgumentException(RAW_PASSWORD_NULL)), users)
    ensures user.Some? && user.value.password.Some? ==>
      var (r, users') := RegisterUserOp(users, Some(Encoded(user.value, encode)));
      res.1 == users' &&
      (r.Err? ==> res.0 == Err(r.error)) &&
      (r.Ok? ==> res.0 == Ok(ResponseEntity(Some(r.value), CREATED)))
  {
    match user
    case None => (Err(NullPointerException), users)
    case Some(u) =>
      if u.password.None? then (Err(IllegalArgumentException(RAW_PASSWORD_NULL)), users)
      else
        var (r, users') := RegisterUserOp(users, Some(Encoded(u, encode)));
        match r
        case Err(e) => (Err(e), users')
        case Ok(msg) => (Ok(ResponseEntity(Some(msg), CREATED)), users')
  }

  /**
   * Registration never stores the raw password: every row of the new table is
   * an old row or the submitted user with the encoded password (under whatever
   * id the save put it: a new one for a body without id, the body's own id when
   * that names a row), and a success answers 201 naming the submitted email.
   */
  lemma RegisterStoresEncodedUser(users: seq<User>, u: User, encode: string -> string)
    requires WellFormed(users) && u.password.Some?
    ensures var (r, users') := RegisterSpec(users, Some(u), encode);
      && WellFormed(users')
      && (r.Ok? ==> r.value == ResponseEntity(Some(REGISTERED + u.email.value), CREATED))
      && (forall i :: 0 <= i < |users'| ==>
            users'[i] in users || users'[i] == Encoded(u, encode).(id := users'[i].id))
      && (forall i :: 0 <= i < |users'| && users'[i] !in users ==> users'[i].password == Some(encode(u.password.value)))
  {
    var v := Encoded(u, encode);
    SaveUserKeepsWellFormed(users, v);
    SaveUserFrame(users, v);
    var (saved, users') := SaveUserOp(users, v);
    if saved.Ok? {
      var k := saved.value.id.value - 1;
      forall i | 0 <= i < |users'|
        ensures users'[i] in users || users'[i] == v.(id := users'[i].id)
      {
        if i != k {
          assert i < |users| && users'[i] == users[i];
        }
      }
    }
  }

  /**
   * The bound body may carry an id, and `save` merges such a body over the row
   * with that id. So a registration whose id names a stored user, with an email
   * no other row holds, succeeds and replaces that user: email, encoded password
   * and role are the caller's, and the old email no longer finds anyone.
   */
  lemma RegisterWithExistingIdOverwrites(users: seq<User>, i: int, u: User, encode: string -> string)
    requires WellFormed(users) && 0 <= i < |users|
    requires u.id == Some(i + 1) && u.password.Some? && ValidUser(Encoded(u, encode))
    requires forall j :: 0 <= j < |users| && j != i ==> users[j].email != u.email
    ensures RegisterSpec(users, Some(u), encode).0.Ok?
    ensures RegisterSpec(users, Some(u), encode).1 == users[i := Encoded(u, encode)]
    ensures u.email != users[i].email ==>
      LookupEmail(RegisterSpec(users, Some(u), encode).1, users[i].email.value).None?
  {
  }

  /** The controller object, holding the service it was given. */
  class AuthController {
    const authService: AuthServiceImpl

    constructor (service: AuthServiceImpl)
      ensures authService == service
    {
      authService := service;
    }

    method Register(user: Option<User>, encode: string -> string) returns (r: Result<ResponseEntity<string>, Exception>)
      requires authService.userRepository.Valid()
      modifies authService.userRepository
      ensures authService.userRepository.Valid()
      ensures (r, authService.userRepository.users) == RegisterSpec(old(authService.userRepository.users), user, encode)
    {
      if user.None? {
        return Err(NullPointerException);
      }
      var u := user.value;
      if u.password.None? {
        return Err(IllegalArgumentException(RAW_PASSWORD_NULL));
      }
      u := u.(password := Some(encode(u.password.value)));
      var result := authService.RegisterUser(Some(u));
      if result.Err? {
        return Err(result.error);
      }
      r := Ok(ResponseEntity(Some(result.value), CREATED));
    }
  }
}

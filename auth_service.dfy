/** `AuthServiceImpl`: echoing the authenticated principal, and storing a new user. */
module AuthService {
  import opened Wrappers
  import opened Strings
  import opened Exceptions
  import opened Authentications
  import opened Users

  const AUTH_NOT_FOUND := "Authentication details not found"
  const REGISTRATION_FAILED := "User registration failed"
  const REGISTERED := "Successfully registered: "

  /** `getAuthenticationDetails`: the argument itself, or an error when there is none. */
  function GetAuthenticationDetails(auth: Option<Authentication>): (r: Result<Authentication, Exception>)
    ensures r.Ok? <==> auth.Some?
    ensures auth.Some? ==> r.value == auth.value
    ensures auth.None? ==> r.error == ClientManagerException(AUTH_NOT_FOUND)
  {
    match auth
    case None => Err(ClientManagerException(AUTH_NOT_FOUND))
    case Some(a) => Ok(a)
  }

  /** `registerUser`: no user fails without a write; otherwise save, and report the saved email. */
  function RegisterUserOp(users: seq<User>, user: Option<User>): (res: (Result<string, Exception>, seq<User>))
    ensures user.None? ==> res == (Err(ClientManagerException(REGISTRATION_FAILED)), users)
    ensures user.Some? ==> res.1 == SaveUserOp(users, user.value).1
    ensures user.Some? && SaveUserOp(users, user.value).0.Err? ==> res.0 == Err(SaveUserOp(users, user.value).0.error)
    ensures user.Some? && SaveUserOp(users, user.value).0.Ok? ==> res.0 == Ok(REGISTERED + user.value.email.value)
  {
    match user
    case None => (Err(ClientManagerException(REGISTRATION_FAILED)), users)
    case Some(u) =>
      var (saved, users') := SaveUserOp(users, u);
      match saved
      case Err(e) => (Err(e), users')
      case Ok(s) => (Ok(REGISTERED + JavaStr(s.email)), users')
  }

  /** The service object, holding the user table it was given. */
  class AuthServiceImpl {
    const userRepository: UserRepository

    constructor (repository: UserRepository)
      ensures userRepository == repository
    {
      userRepository := repository;
    }

    method RegisterUser(user: Option<User>) returns (r: Result<string, Exception>)
      requires userRepository.Valid()
      modifies userRepository
      ensures userRepository.Valid()
      ensures (r, userRepository.users) == RegisterUserOp(old(userRepository.users), user)
    {
      if user.None? {
        return Err(ClientManagerException(REGISTRATION_FAILED));
      }
      var saved := userRepository.Save(user.value);
      if saved.Err? {
        return Err(saved.error);
      }
      r := Ok(REGISTERED + JavaStr(saved.value.email));
    }
  }
}

/** Credential check for login, and the gateway that turns a bearer token
    into the stored user it names. */
module AuthService {
  import opened Wrappers
  import opened Http
  import opened Config
  import opened Models
  import opened Security
  import UserRepo

  /** Some stored user's e-mail is exactly `email` and `password` verifies
      against that user's stored hash. */
  predicate ValidCredentials(users: map<int, User>, h: Hasher, email: string, password: string) {
    exists k | k in users :: users[k].email == email && VerifyPassword(h, password, users[k].password)
  }

  /** The user whose stored e-mail is exactly `email`, provided `password`
      verifies against that user's stored hash; otherwise nothing. */
  function AuthenticateUser(s: State, h: Hasher, email: string, password: string): (r: Option<User>)
    requires EmailsUnique(s.users)
    ensures r.Some? <==> ValidCredentials(s.users, h, email, password)
    ensures r.Some? ==> r.value in s.users.Values && r.value.email == email
  {
    match UserRepo.GetUserByEmail(s, email)
    case Some(u) => if VerifyPassword(h, password, u.password) then Some(u) else None
    case None => None
  }

  /** The answer to a request without an `Authorization: Bearer` header. */
  const NotAuthenticated := ApiError(Unauthorized, "Not authenticated")

  /** The answer when a valid token names no stored user. */
  const CouldNotValidate := ApiError(Unauthorized, "Could not validate credentials")

  /** Resolves the bearer token (absent when the header is missing) to the
      user whose e-mail is the token's subject. Every failure is a 401. */
  function GetCurrentUser(s: State, cfg: Settings, bearer: Option<Token>, now: int): (r: Result<User, ApiError>)
    requires EmailsUnique(s.users)
    ensures r.Err? ==> r.error.status == Unauthorized
    ensures bearer.None? ==> r == Err(NotAuthenticated)
    ensures bearer.Some? && VerifyAccessToken(cfg, bearer.value, now).Err? ==>
              r == Err(VerifyAccessToken(cfg, bearer.value, now).error)
    ensures (bearer.Some? && VerifyAccessToken(cfg, bearer.value, now).Ok?
             && !UserRepo.EmailTaken(s.users, bearer.value.claims.sub.value)) ==> r == Err(CouldNotValidate)
    ensures r.Ok? <==> bearer.Some? && VerifyAccessToken(cfg, bearer.value, now).Ok?
                       && UserRepo.EmailTaken(s.users, bearer.value.claims.sub.value)
    ensures r.Ok? ==> r.value in s.users.Values && Some(r.value.email) == bearer.value.claims.sub
  {
    match bearer
    case None => Err(NotAuthenticated)
    case Some(token) =>
      match VerifyAccessToken(cfg, token, now)
      case Err(e) => Err(e)
      case Ok(data) =>
        match UserRepo.GetUserByEmail(s, data.username.value)
        case None => Err(CouldNotValidate)
        case Some(u) => Ok(u)
  }
}

/** The `/auth` endpoints: login with e-mail and password, and exchanging a
    refresh token for a new access token. */
module AuthRouter {
  import opened Wrappers
  import opened Http
  import opened Config
  import opened Models
  import opened Security
  import UserRepo
  import AuthService

  /** The response body: both tokens and their type. */
  datatype TokenPair = TokenPair(accessToken: Token, refreshToken: Token, tokenType: string)

  /** The login form: `username` carries the e-mail address. */
  datatype LoginForm = LoginForm(username: string, password: string)

  const IncorrectCredentials := ApiError(Unauthorized, "Incorrect email or password")
  const RefreshUserNotFound := ApiError(Unauthorized, "User not found")

  /** `POST /auth/login`. The address is looked up exactly as typed; an
      unknown address and a wrong password get the same 401. On success both
      tokens name the stored e-mail. */
  function Login(s: State, cfg: Settings, h: Hasher, form: LoginForm, now: int): (r: Result<TokenPair, ApiError>)
    requires EmailsUnique(s.users)
    ensures r.Err? ==> r.error == IncorrectCredentials
    ensures r.Ok? <==> AuthService.ValidCredentials(s.users, h, form.username, form.password)
    ensures r.Ok? ==> r.value == TokenPair(CreateAccessToken(cfg, Claims(Some(form.username), None, None), now),
                                           CreateRefreshToken(cfg, Claims(Some(form.username), None, None), now),
                                           "bearer")
  {
    match UserRepo.GetUserByEmail(s, form.username)
    case None => Err(IncorrectCredentials)
    case Some(user) =>
      if !VerifyPassword(h, form.password, user.password) then Err(IncorrectCredentials)
      else
        var data := Claims(Some(user.email), None, None);
        Ok(TokenPair(CreateAccessToken(cfg, data, now), CreateRefreshToken(cfg, data, now), "bearer"))
  }

  /** `POST /auth/refresh`. Any token that fails refresh verification
      (an access token included) is a 401 with the verifier's message; a
      subject with no stored user is a 401 "User not found"; otherwise a new
      access token for that subject and the same refresh token back. */
  function RefreshAccessToken(s: State, cfg: Settings, refreshToken: Token, now: int): (r: Result<TokenPair, ApiError>)
    requires EmailsUnique(s.users)
    ensures r.Err? ==> r.error.status == Unauthorized
    ensures VerifyRefreshToken(cfg, refreshToken, now).Err? ==>
              r == Err(VerifyRefreshToken(cfg, refreshToken, now).error)
    ensures (VerifyRefreshToken(cfg, refreshToken, now).Ok?
             && !UserRepo.EmailTaken(s.users, refreshToken.claims.sub.value)) ==> r == Err(RefreshUserNotFound)
    ensures r.Ok? <==> VerifyRefreshToken(cfg, refreshToken, now).Ok?
                       && UserRepo.EmailTaken(s.users, refreshToken.claims.sub.value)
    ensures r.Ok? ==> r.value.refreshToken == refreshToken && r.value.tokenType == "bearer"
                      && r.value.accessToken == CreateAccessToken(cfg, Claims(refreshToken.claims.sub, None, None), now)
  {
    match VerifyRefreshToken(cfg, refreshToken, now)
    case Err(e) => Err(e)
    case Ok(data) =>
      match UserRepo.GetUserByEmail(s, data.username.value)
      case None => Err(RefreshUserNotFound)
      case Some(_) =>
        Ok(TokenPair(CreateAccessToken(cfg, Claims(data.username, None, None), now), refreshToken, "bearer"))
  }
}

/** Password hashing and the two scoped signed tokens.

    The hash library is abstract: a `Hasher` is any pair of functions, and
    the one property the service relies on, that a password verifies
    against its own hash, is the hypothesis `SoundHasher`.

    A token is either a signed payload, remembering the key and algorithm it
    was signed with, or a string that does not parse as a token at all. */
module Security {
  import opened Wrappers
  import opened Http
  import opened Config

  // ---------------- password hashing ----------------

  datatype Hasher = Hasher(hash: string -> string, verify: (string, string) -> bool)

  ghost predicate SoundHasher(h: Hasher) {
    forall p :: h.verify(p, h.hash(p))
  }

  function HashPassword(h: Hasher, password: string): string {
    h.hash(password)
  }

  function VerifyPassword(h: Hasher, password: string, hashed: string): bool {
    h.verify(password, hashed)
  }

  /** A password always verifies against its own hash, for a sound hasher. */
  lemma HashThenVerify(h: Hasher, password: string)
    requires SoundHasher(h)
    ensures VerifyPassword(h, password, HashPassword(h, password))
  {
  }

  // ---------------- tokens ----------------

  /** The registered claims the service reads; `exp` is a Unix time in seconds. */
  datatype Claims = Claims(sub: Option<string>, exp: Option<int>, scope: Option<string>)

  datatype Token =
    | Signed(key: string, algorithm: string, claims: Claims)
    | Malformed(text: string)

  const AccessScope := "access_token"
  const RefreshScope := "refresh_token"

  /** The result of a successful verification: the token's subject. */
  datatype TokenData = TokenData(username: Option<string>)

  /** A token is expired once its `exp` is not after the current time
      (the token library's rule, with no leeway). */
  predicate Expired(exp: int, now: int) {
    exp <= now
  }

  /** Copy of `data` with `exp` and `scope` replaced, signed with the configured key. */
  function Issue(cfg: Settings, data: Claims, now: int, ttl: int, scope: string): Token {
    Signed(cfg.secretKey, cfg.algorithm, data.(exp := Some(now + ttl), scope := Some(scope)))
  }

  /** A token signed with the configured key and algorithm that keeps the
      caller's subject and always carries `exp = now + AccessTtl` and the
      access scope, whatever `exp`/`scope` the caller's claims held. */
  function CreateAccessToken(cfg: Settings, data: Claims, now: int): (t: Token)
    ensures t.Signed? && t.key == cfg.secretKey && t.algorithm == cfg.algorithm
    ensures t.claims.sub == data.sub
    ensures t.claims.exp == Some(now + AccessTtl(cfg)) && t.claims.scope == Some(AccessScope)
  {
    Issue(cfg, data, now, AccessTtl(cfg), AccessScope)
  }

  /** The same with `RefreshTtl` and the refresh scope. */
  function CreateRefreshToken(cfg: Settings, data: Claims, now: int): (t: Token)
    ensures t.Signed? && t.key == cfg.secretKey && t.algorithm == cfg.algorithm
    ensures t.claims.sub == data.sub
    ensures t.claims.exp == Some(now + RefreshTtl(cfg)) && t.claims.scope == Some(RefreshScope)
  {
    Issue(cfg, data, now, RefreshTtl(cfg), RefreshScope)
  }

  /** `t` decodes under `cfg` at `now`, whatever its scope. */
  predicate Authentic(cfg: Settings, t: Token, now: int) {
    t.Signed? && t.key == cfg.secretKey && t.algorithm == cfg.algorithm
    && !(t.claims.exp.Some? && Expired(t.claims.exp.value, now))
  }

  /** `t` is signed with the configured key and algorithm but its `exp` has passed. */
  predicate ExpiredButSigned(cfg: Settings, t: Token, now: int) {
    t.Signed? && t.key == cfg.secretKey && t.algorithm == cfg.algorithm
    && t.claims.exp.Some? && Expired(t.claims.exp.value, now)
  }

  /** Why the token library refuses a token. */
  datatype DecodeError = ExpiredSignature | InvalidSignature | DecodeFailure

  /** What the token library's decode does: parse, check the signature and
      algorithm, then check expiry. Scope and subject are not its business. */
  function Decode(cfg: Settings, t: Token, now: int): (r: Result<Claims, DecodeError>)
    ensures r.Ok? <==> Authentic(cfg, t, now)
    ensures r.Ok? ==> r.value == t.claims
    ensures r == Err(ExpiredSignature) <==> ExpiredButSigned(cfg, t, now)
  {
    match t
    case Malformed(_) => Err(DecodeFailure)
    case Signed(key, alg, claims) =>
      if key != cfg.secretKey || alg != cfg.algorithm then Err(InvalidSignature)
      else if claims.exp.Some? && Expired(claims.exp.value, now) then Err(ExpiredSignature)
      else Ok(claims)
  }

  /** Shared by the two verifiers: decode, then demand the scope, then a subject.
      An expired token is reported as such; every other failure as invalid. */
  function VerifyScoped(cfg: Settings, t: Token, now: int, scope: string,
                        expiredDetail: string, invalidDetail: string): (r: Result<TokenData, ApiError>)
    ensures r.Ok? <==> Authentic(cfg, t, now) && t.claims.scope == Some(scope) && t.claims.sub.Some?
    ensures r.Ok? ==> r.value.username == t.claims.sub && r.value.username.Some?
    ensures r.Err? ==> r.error.status == Unauthorized
    ensures r.Err? ==> r.error.detail == (if ExpiredButSigned(cfg, t, now) then expiredDetail else invalidDetail)
  {
    match Decode(cfg, t, now)
    case Err(ExpiredSignature) => Err(ApiError(Unauthorized, expiredDetail))
    case Err(_) => Err(ApiError(Unauthorized, invalidDetail))
    case Ok(claims) =>
      if claims.scope != Some(scope) then Err(ApiError(Unauthorized, invalidDetail))
      else if claims.sub.None? then Err(ApiError(Unauthorized, invalidDetail))
      else Ok(TokenData(claims.sub))
  }

  /** Accepts exactly the authentic, unexpired access tokens that carry a
      subject, and returns that subject. */
  function VerifyAccessToken(cfg: Settings, t: Token, now: int): (r: Result<TokenData, ApiError>)
    ensures r.Ok? <==> Authentic(cfg, t, now) && t.claims.scope == Some(AccessScope) && t.claims.sub.Some?
    ensures r.Ok? ==> r.value.username == t.claims.sub && r.value.username.Some?
    ensures r.Err? ==> r.error.status == Unauthorized
    ensures r.Err? ==> r.error.detail == (if ExpiredButSigned(cfg, t, now)
                                         then "Access token has expired" else "Invalid access token")
  {
    VerifyScoped(cfg, t, now, AccessScope, "Access token has expired", "Invalid access token")
  }

  /** The same for refresh tokens. */
  function VerifyRefreshToken(cfg: Settings, t: Token, now: int): (r: Result<TokenData, ApiError>)
    ensures r.Ok? <==> Authentic(cfg, t, now) && t.claims.scope == Some(RefreshScope) && t.claims.sub.Some?
    ensures r.Ok? ==> r.value.username == t.claims.sub && r.value.username.Some?
    ensures r.Err? ==> r.error.status == Unauthorized
    ensures r.Err? ==> r.error.detail == (if ExpiredButSigned(cfg, t, now)
                                         then "Refresh token has expired" else "Invalid refresh token")
  {
    VerifyScoped(cfg, t, now, RefreshScope, "Refresh token has expired", "Invalid refresh token")
  }

  // ---------------- properties ----------------

  /** An access token issued at `issued` for subject `sub` verifies, and
      yields `sub`, exactly until `issued + AccessTtl`; from then on it is
      reported as expired. */
  lemma AccessTokenLifetime(cfg: Settings, data: Claims, issued: int, now: int)
    ensures var r := VerifyAccessToken(cfg, CreateAccessToken(cfg, data, issued), now);
            && (r.Ok? <==> data.sub.Some? && now < issued + AccessTtl(cfg))
            && (r.Ok? ==> r.value.username == data.sub)
            && (now >= issued + AccessTtl(cfg) ==> r == Err(ApiError(Unauthorized, "Access token has expired")))
  {
  }

  /** The same for refresh tokens and `RefreshTtl`. */
  lemma RefreshTokenLifetime(cfg: Settings, data: Claims, issued: int, now: int)
    ensures var r := VerifyRefreshToken(cfg, CreateRefreshToken(cfg, data, issued), now);
            && (r.Ok? <==> data.sub.Some? && now < issued + RefreshTtl(cfg))
            && (r.Ok? ==> r.value.username == data.sub)
            && (now >= issued + RefreshTtl(cfg) ==> r == Err(ApiError(Unauthorized, "Refresh token has expired")))
  {
  }

  /** A refresh token is never accepted as an access token, nor an access
      token as a refresh token, at any time. While still unexpired it is
      reported as invalid. */
  lemma ScopeSeparation(cfg: Settings, data: Claims, issued: int, now: int)
    ensures VerifyAccessToken(cfg, CreateRefreshToken(cfg, data, issued), now).Err?
    ensures VerifyRefreshToken(cfg, CreateAccessToken(cfg, data, issued), now).Err?
    ensures now < issued + RefreshTtl(cfg) ==>
              VerifyAccessToken(cfg, CreateRefreshToken(cfg, data, issued), now)
              == Err(ApiError(Unauthorized, "Invalid access token"))
    ensures now < issued + AccessTtl(cfg) ==>
              VerifyRefreshToken(cfg, CreateAccessToken(cfg, data, issued), now)
              == Err(ApiError(Unauthorized, "Invalid refresh token"))
  {
  }

  /** Expiry is checked before scope: an expired refresh token presented as an
      access token is reported as an expired access token. */
  lemma ExpiryReportedBeforeScope(cfg: Settings, data: Claims, issued: int, now: int)
    requires now >= issued + RefreshTtl(cfg)
    ensures VerifyAccessToken(cfg, CreateRefreshToken(cfg, data, issued), now)
            == Err(ApiError(Unauthorized, "Access token has expired"))
  {
  }

  /** Anything that is not a token at all is invalid, never expired. */
  lemma MalformedIsInvalid(cfg: Settings, text: string, now: int)
    ensures VerifyAccessToken(cfg, Malformed(text), now) == Err(ApiError(Unauthorized, "Invalid access token"))
    ensures VerifyRefreshToken(cfg, Malformed(text), now) == Err(ApiError(Unauthorized, "Invalid refresh token"))
  {
  }

  /** A token signed with another key or algorithm is invalid even after its expiry. */
  lemma ForeignKeyIsInvalid(cfg: Settings, t: Token, now: int)
    requires t.Signed? && (t.key != cfg.secretKey || t.algorithm != cfg.algorithm)
    ensures VerifyAccessToken(cfg, t, now) == Err(ApiError(Unauthorized, "Invalid access token"))
    ensures VerifyRefreshToken(cfg, t, now) == Err(ApiError(Unauthorized, "Invalid refresh token"))
  {
  }
}

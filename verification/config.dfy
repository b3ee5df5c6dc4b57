/** The settings the token service reads, as one immutable value instead of
    a process-wide singleton. Only the security settings matter to the core. */
module Config {

  datatype Settings = Settings(
    secretKey: string,
    algorithm: string,
    accessTokenExpireMinutes: int,
    refreshTokenExpireDays: int)

  /** The values used when the environment sets nothing. */
  const DefaultSettings := Settings("change_me_in_env", "HS256", 60, 7)

  /** Access-token lifetime in seconds. */
  function AccessTtl(cfg: Settings): int {
    cfg.accessTokenExpireMinutes * 60
  }

  /** Refresh-token lifetime in seconds. */
  function RefreshTtl(cfg: Settings): int {
    cfg.refreshTokenExpireDays * 24 * 60 * 60
  }

  /** With the defaults an access token lives one hour and a refresh token one week. */
  lemma DefaultLifetimes()
    ensures AccessTtl(DefaultSettings) == 3600
    ensures RefreshTtl(DefaultSettings) == 604800
  {
  }
}

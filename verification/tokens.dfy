/** The bearer tokens `flask_jwt_extended` issues. Signing, the random token
    id and the expiry check live in that library; a token is modelled by the
    claims the core decides: its class, its identity, when it was issued and
    how many seconds it lives. */
module Tokens {

  import opened Timestamps

  datatype TokenClass = Access | Refresh

  datatype Token = Token(cls: TokenClass, identity: string, issuedAt: DateTime, lifetime: int)

  /** The two lifetimes the application configuration resolves, in seconds:
      `JWT_ACCESS_TOKEN_EXPIRES` and `JWT_REFRESH_TOKEN_EXPIRES`. */
  datatype Lifetimes = Lifetimes(access: int, refresh: int)

  /** The configuration as written: the access setting (default 900) is read
      as minutes and the refresh setting (default 7) as days. */
  function Configured(accessSetting: int := 900, refreshSetting: int := 7): Lifetimes {
    Lifetimes(accessSetting * 60, refreshSetting * 24 * 60 * 60)
  }

  /** The configuration as its comment intends: the access setting read as
      seconds, so that the default is fifteen minutes. */
  function Intended(accessSetting: int := 900, refreshSetting: int := 7): Lifetimes {
    Lifetimes(accessSetting, refreshSetting * 24 * 60 * 60)
  }

  /** `create_access_token(identity=...)` under the configured lifetimes. */
  function CreateAccessToken(identity: string, now: DateTime, jwt: Lifetimes): Token {
    Token(Access, identity, now, jwt.access)
  }

  /** `create_refresh_token(identity=...)` under the configured lifetimes. */
  function CreateRefreshToken(identity: string, now: DateTime, jwt: Lifetimes): Token {
    Token(Refresh, identity, now, jwt.refresh)
  }

  /** The `expires_in` the service reports with an access token, in seconds:
      a literal 900, whatever the configuration says. */
  const ReportedExpiresIn: int := 900

  /** By default the configured access lifetime is 15 hours, sixty times the
      900 seconds clients are told; the refresh lifetime is seven days. */
  lemma ConfiguredLifetimeDisagrees()
    ensures Configured().access != ReportedExpiresIn
    ensures Configured().access == 60 * ReportedExpiresIn
    ensures Configured().refresh == 604800
  {
  }

  /** By default the intended access lifetime is what clients are told, and
      the refresh lifetime is the configured one. */
  lemma IntendedLifetimeAgrees()
    ensures Intended().access == ReportedExpiresIn
    ensures Intended().refresh == Configured().refresh
  {
  }
}

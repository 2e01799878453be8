/** The access token the flows hand out, as the claims it carries rather than as bytes. */
module Tokens {

  const SecondsPerDay: int := 24 * 60 * 60

  /** The `expiresIn: "7d"` option, in seconds. */
  const TokenLifetime: int := 7 * SecondsPerDay

  /** The claims of a signed token: the subject and the issue and expiry times, in whole
      seconds since the epoch. */
  datatype Claims = Claims(sub: string, iat: int, exp: int)

  /** A token for `sub` signed at `now` expires seven days later. */
  function Issue(sub: string, now: int): (c: Claims)
    ensures c.sub == sub && c.iat == now
    ensures c.exp - c.iat == 604800
  {
    Claims(sub, now, now + TokenLifetime)
  }
}

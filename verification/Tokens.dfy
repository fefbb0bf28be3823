/** Refresh and access tokens as values of their claims.

    Signing is deterministic (HMAC) and hashing is injective: a token is its claims, a hash is its
    token. Times are clock readings in microseconds; claims hold whole seconds.
 */
module Tokens {
  import opened Common

  const MICROS := 1_000_000

  datatype TokenType = Access | Refresh

  datatype Claims = Claims(sub: UserId, kind: TokenType, iat: int, exp: int)

  /** Either signed with the server's key, or any other text. */
  datatype Token = Signed(claims: Claims) | Foreign(text: string)

  datatype TokenHash = Sha256(token: Token)

  /** The whole second of a clock reading. */
  function Second(now: int): int {
    now / MICROS
  }

  /** `lifetime` is in seconds; the configured days and minutes are whole seconds. */
  function CreateToken(sub: UserId, kind: TokenType, now: int, lifetime: nat): Token {
    Signed(Claims(sub, kind, Second(now), Second(now + lifetime * MICROS)))
  }

  /** The claims of a well-signed token of the expected type that has not passed its expiry. */
  function VerifyToken(token: Token, expected: TokenType, now: int): Option<Claims> {
    if token.Signed? && token.claims.kind == expected && Second(now) <= token.claims.exp
    then Some(token.claims) else None
  }

  /** A created token verifies, as its own type only, through the last second of its lifetime. */
  lemma VerifyUndoesCreate(sub: UserId, kind: TokenType, made: int, lifetime: nat, expected: TokenType, now: int)
    ensures VerifyToken(CreateToken(sub, kind, made, lifetime), expected, now)
            == if expected == kind && now / 1_000_000 <= made / 1_000_000 + lifetime
               then Some(Claims(sub, kind, made / 1_000_000, made / 1_000_000 + lifetime)) else None
  {
  }

  /** Only what the server signed verifies, with the claims it signed. */
  lemma VerifiedIsSigned(token: Token, expected: TokenType, now: int)
    ensures VerifyToken(token, expected, now).Some? <==>
              token.Signed? && token.claims.kind == expected && now < (token.claims.exp + 1) * 1_000_000
    ensures VerifyToken(token, expected, now).Some? ==> token == Signed(VerifyToken(token, expected, now).value)
  {
  }

  /** Refresh tokens coincide exactly when made for one user in one whole second. */
  lemma TokensCoincide(u: UserId, v: UserId, madeU: int, madeV: int, lifetime: nat)
    ensures CreateToken(u, Refresh, madeU, lifetime) == CreateToken(v, Refresh, madeV, lifetime)
            <==> u == v && madeU / 1_000_000 == madeV / 1_000_000
  {
  }
}

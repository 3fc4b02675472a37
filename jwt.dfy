/** Session tokens (lib/api/jwt.ts). Signing, verification and decoding are
    done by the `jsonwebtoken` library; the model receives what the library
    returned (or that it threw) and states what the wrappers do with it. */
module Jwt {
  import opened Common

  datatype JwtPayload = JwtPayload(userId: string, email: string, iat: Option<int>, exp: Option<int>)

  /** `Omit<JwtPayload, 'iat' | 'exp'>`: what callers of `generateToken` may supply. */
  datatype SessionIdentity = SessionIdentity(userId: string, email: string)

  /** The outcome of a library call that may throw. */
  datatype LibResult<T> = Returned(value: T) | Raised(errorName: string)

  /** `jwt.verify(token, JWT_SECRET)` for each token string (signature and expiry checked by the library). */
  type Verifier = string -> LibResult<JwtPayload>

  /** `jwt.decode(token)` for each token string (no signature check; null for malformed input). */
  type Decoder = string -> LibResult<Option<JwtPayload>>

  const DEFAULT_JWT_SECRET: string := "your-secret-key"
  const DEFAULT_JWT_EXPIRE_IN: string := "7d"

  /** `process.env.X || fallback`: an unset or empty variable gives the fallback. */
  function ConfigOr(env: Option<string>, fallback: string): (v: string)
    ensures Truthy(env) ==> v == env.value
    ensures !Truthy(env) ==> v == fallback
  {
    if Truthy(env) then env.value else fallback
  }

  /** The arguments `generateToken` hands to `jwt.sign`. */
  datatype SignRequest = SignRequest(payload: JwtPayload, secret: string, expiresIn: string)

  /** `generateToken(payload)`; the token string is `sign(GenerateToken(...))` for the library's `sign`. */
  function GenerateToken(identity: SessionIdentity, secretEnv: Option<string>, expireEnv: Option<string>): (req: SignRequest)
    ensures req.payload.userId == identity.userId && req.payload.email == identity.email
    ensures req.payload.iat.None? && req.payload.exp.None?
    ensures !Truthy(expireEnv) ==> req.expiresIn == "7d"
    ensures !Truthy(secretEnv) ==> req.secret == "your-secret-key"
  {
    SignRequest(JwtPayload(identity.userId, identity.email, None, None),
                ConfigOr(secretEnv, DEFAULT_JWT_SECRET),
                ConfigOr(expireEnv, DEFAULT_JWT_EXPIRE_IN))
  }

  /** What `generateToken` reads from its environment, and the library's `jwt.sign`. */
  datatype JwtConfig = JwtConfig(secretEnv: Option<string>, expireEnv: Option<string>, sign: SignRequest -> string)

  /** The string `generateToken(identity)` returns. */
  function SignedToken(cfg: JwtConfig, identity: SessionIdentity): string {
    cfg.sign(GenerateToken(identity, cfg.secretEnv, cfg.expireEnv))
  }

  /** `verifyToken(token)`: the payload, or null whenever the library throws. */
  function VerifyToken(token: string, verify: Verifier): (r: Option<JwtPayload>)
    ensures r.Some? <==> verify(token).Returned?
    ensures r.Some? ==> r.value == verify(token).value
  {
    match verify(token)
    case Returned(p) => Some(p)
    case Raised(_) => None
  }

  /** `decodeToken(token)`: the unverified payload, or null when decoding fails or throws. */
  function DecodeToken(token: string, decode: Decoder): (r: Option<JwtPayload>)
    ensures r.Some? <==> decode(token).Returned? && decode(token).value.Some?
    ensures r.Some? ==> r.value == decode(token).value.value
  {
    match decode(token)
    case Returned(p) => p
    case Raised(_) => None
  }

  /** JavaScript truthiness of `exp`: absent and 0 are falsy. */
  predicate HasExp(p: JwtPayload) { p.exp.Some? && p.exp.value != 0 }

  /** `isTokenExpired(token)` at time `nowMs`. */
  predicate IsTokenExpired(token: string, decode: Decoder, nowMs: int) {
    var decoded := DecodeToken(token, decode);
    decoded.None? || !HasExp(decoded.value) || decoded.value.exp.value * 1000 < nowMs
  }

  /** Undecodable tokens and tokens without a usable `exp` are expired; otherwise the token is
      expired exactly when `exp` (seconds) is strictly before the clock (milliseconds). */
  lemma ExpiredIff(token: string, decode: Decoder, nowMs: int)
    ensures DecodeToken(token, decode).None? ==> IsTokenExpired(token, decode, nowMs)
    ensures var d := DecodeToken(token, decode);
      d.Some? && (d.value.exp.None? || d.value.exp == Some(0)) ==> IsTokenExpired(token, decode, nowMs)
    ensures var d := DecodeToken(token, decode);
      d.Some? && HasExp(d.value) ==> (IsTokenExpired(token, decode, nowMs) <==> d.value.exp.value * 1000 < nowMs)
  {
  }

  /** At the exact expiry instant the token is still valid. */
  lemma NotExpiredAtBoundary(token: string, decode: Decoder)
    requires var d := DecodeToken(token, decode); d.Some? && HasExp(d.value)
    ensures !IsTokenExpired(token, decode, DecodeToken(token, decode).value.exp.value * 1000)
  {
  }

  lemma ExpiryMonotone(token: string, decode: Decoder, t1: int, t2: int)
    requires t1 <= t2 && IsTokenExpired(token, decode, t1)
    ensures IsTokenExpired(token, decode, t2)
  {
  }
}

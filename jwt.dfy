/**
 * The signed session token issued at login (`create_jwt`) and checked on each
 * request (`verify_jwt`).
 *
 * The token is an HS256 JSON Web Token (section 3.2 of RFC 7518). Its compact
 * serialisation and its HMAC stay abstract: a `Codec` pairs the signing
 * encoder, which knows the server's secret, with the decoder, which parses a
 * text and reports whether its signature matches that secret. `Lawful` states
 * the one fact the rest of the model relies on: what the server signed decodes
 * back to the same claims with a valid signature. Expiry is checked here, as
 * section 4.1.4 of RFC 7519 prescribes: a token is accepted only while the
 * current time is strictly before its `exp` claim.
 */
module Jwt {
  import opened Store

  /** Token lifetime: `SESSION_DURATION_HOURS`, in seconds. */
  const SessionDurationHours: int := 8
  const SessionDurationSeconds: int := SessionDurationHours * 3600

  /** The payload claims the core reads: `sub` (user id), `sid` (session id), `exp`. */
  datatype Claims = Claims(sub: Option<string>, sid: Option<string>, exp: Option<int>)

  /** A parsed token: its claims and whether its signature verifies under the server's secret. */
  datatype Token = Token(claims: Claims, signatureValid: bool)

  /**
   * `encode` is `jwt.encode(payload, JWT_SECRET, "HS256")`; `decode` parses a text,
   * `None` meaning it is not a token at all.
   */
  datatype Codec = Codec(encode: Claims -> string, decode: string -> Option<Token>)

  /** A signed token decodes to what was signed, with a valid signature, and is never empty. */
  ghost predicate Lawful(codec: Codec) {
    forall c: Claims {:trigger codec.encode(c)} ::
      codec.decode(codec.encode(c)) == Some(Token(c, true)) && codec.encode(c) != ""
  }

  /** RFC 7519, section 4.1.4: the token has not expired at time `now`. */
  predicate Live(c: Claims, now: int) {
    c.exp.None? || now < c.exp.value
  }

  /** The result of `create_jwt`: the token text and its expiry time. */
  datatype Issued = Issued(token: string, exp: int)

  /** `create_jwt(user_id, session_id)` at time `now`. */
  function Issue(codec: Codec, userId: string, sessionId: string, now: int): (r: Issued)
    ensures r.exp == now + SessionDurationSeconds
    ensures Lawful(codec) ==> r.token != ""
    ensures Lawful(codec) ==>
      forall t {:trigger Verify(codec, r.token, t)} :: Verify(codec, r.token, t) ==
        if t < r.exp then Some(Claims(Some(userId), Some(sessionId), Some(r.exp))) else None
  {
    var exp := now + SessionDurationSeconds;
    Issued(codec.encode(Claims(Some(userId), Some(sessionId), Some(exp))), exp)
  }

  /**
   * `verify_jwt(token)`: the payload when the text is a token whose signature
   * verifies and which has not expired; `None` for every `InvalidTokenError`
   * (malformed text, bad signature) and for `ExpiredSignatureError`.
   */
  function Verify(codec: Codec, text: string, now: int): (r: Option<Claims>)
    ensures r.Some? ==> codec.decode(text) == Some(Token(r.value, true))
    ensures r.Some? ==> Live(r.value, now)
    ensures (exists c :: codec.decode(text) == Some(Token(c, true)) && Live(c, now)) ==> r.Some?
  {
    match codec.decode(text)
    case None => None
    case Some(t) => if t.signatureValid && Live(t.claims, now) then Some(t.claims) else None
  }
}

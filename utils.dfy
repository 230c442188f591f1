/**
 * Password hashing and access tokens (fast_backend/app/utils/utils.py).
 *
 * bcrypt and JSON Web Token signing are library code. They are modelled
 * symbolically: a hash and a signed token are terms that record what
 * produced them, so "verify recomputes the digest" and "the signature checks
 * only under the key that made it" hold by construction rather than by
 * axiom. No byte format, salt encoding or MAC is modelled.
 */
module Utils {
  import opened Wrappers
  import PyText

  /** An HTTPException: status code and detail message. */
  datatype HttpError = HttpError(status: int, detail: string)

  /** The one rejection every token failure maps to (utils.py:48, 55). */
  const InvalidToken := HttpError(401, "Invalid token")

  // ---------------------------------------------------------------- hashing

  /**
   * The value stored in `hashed_password`. `Bcrypt(salt, digestOf)` is the
   * bcrypt digest of the password `digestOf` under `salt`; it is a term, not
   * the stored text. Any other string is `Unparsable`: passlib cannot
   * identify it, and `verify` raises `ValueError` on it. The users table
   * never holds one, since every stored hash comes from `HashPassword`.
   */
  datatype PasswordHash = Bcrypt(salt: string, digestOf: string) | Unparsable(text: string)

  /**
   * `pwd_context.hash(password)`. bcrypt draws a fresh salt on every call;
   * the salt is an input here.
   */
  function HashPassword(password: string, salt: string): (h: PasswordHash)
    ensures VerifyPassword(password, h)
    ensures forall other :: VerifyPassword(other, h) ==> other == password
  {
    Bcrypt(salt, password)
  }

  /**
   * `pwd_context.verify(plain, hashed)` on a bcrypt hash: recompute the
   * digest with the salt held in `hashed` and compare. It is only applied to
   * stored hashes, which are all bcrypt hashes.
   */
  predicate VerifyPassword(plain: string, hashed: PasswordHash)
    ensures VerifyPassword(plain, hashed) ==> hashed.Bcrypt? && hashed.digestOf == plain
    ensures hashed.Bcrypt? && hashed.digestOf != plain ==> !VerifyPassword(plain, hashed)
  {
    hashed.Bcrypt? && Bcrypt(hashed.salt, plain) == hashed
  }

  /** Two hashes of one password under different salts differ. */
  lemma SaltedHashesDiffer(password: string, salt1: string, salt2: string)
    requires salt1 != salt2
    ensures HashPassword(password, salt1) != HashPassword(password, salt2)
    ensures VerifyPassword(password, HashPassword(password, salt1))
    ensures VerifyPassword(password, HashPassword(password, salt2))
  {
  }

  // ----------------------------------------------------------------- claims

  /** The claim values that occur: Python None, ints and strings. */
  datatype Claim = NoneClaim | IntClaim(i: int) | StrClaim(s: string)

  type Claims = map<string, Claim>

  /** `dict.get(key)`: None for a missing key. */
  function Get(claims: Claims, key: string): (c: Claim)
    ensures key in claims ==> c == claims[key]
    ensures key !in claims ==> c == NoneClaim
  {
    if key in claims then claims[key] else NoneClaim
  }

  /** Python's `str()` of a claim value. */
  function Str(c: Claim): (s: string)
    ensures c.StrClaim? ==> s == c.s
    ensures c.IntClaim? ==> s == PyText.IntStr(c.i)
    ensures c.NoneClaim? ==> s == "None"
  {
    match c
    case NoneClaim => "None"
    case IntClaim(i) => PyText.IntStr(i)
    case StrClaim(s) => s
  }

  /** `SECRET_KEY` and `ALGORITHM`, read once at start-up (utils.py:15-16). */
  datatype Config = Config(secretKey: string, algorithm: string)

  /** `timedelta(hours=1)` in seconds. */
  const DefaultExpiresDelta: int := 3600

  /**
   * A bearer token as `jwt.encode` produces it: the claims signed with `key`
   * under algorithm `alg`. `Garbled` is any text that is not such a token.
   */
  datatype Token = Jws(claims: Claims, key: string, alg: string) | Garbled(text: string)

  /**
   * `create_access_token(data, expires_delta)` issued at `now` (seconds).
   * The caller's `data` is a value and is left as it was; the token carries
   * a copy with `exp` and `sub` set.
   */
  function CreateAccessToken(data: Claims, cfg: Config, now: int, expiresDelta: int := DefaultExpiresDelta): (t: Token)
    ensures t.Jws? && t.key == cfg.secretKey && t.alg == cfg.algorithm
    ensures t.claims.Keys == data.Keys + {"exp", "sub"}
    ensures t.claims["exp"] == IntClaim(now + expiresDelta)
    ensures t.claims["sub"] == StrClaim(Str(Get(data, "sub")))
    ensures forall k :: k in data && k != "exp" && k != "sub" ==> t.claims[k] == data[k]
  {
    Jws(data["exp" := IntClaim(now + expiresDelta)]["sub" := StrClaim(Str(Get(data, "sub")))],
        cfg.secretKey, cfg.algorithm)
  }

  /**
   * `jwt.decode(token, SECRET_KEY, algorithms=[ALGORITHM])` at time `now`:
   * the payload, or None where PyJWT raises. It rejects a token that is not
   * signed with the key under the one allowed algorithm, an integer `exp`
   * that is not after `now`, and a `sub` that is not a string. Any `exp`
   * other than an integer is rejected too; PyJWT would convert a numeric
   * string, and raise an uncaught `TypeError` on `None`.
   */
  function JwtDecode(token: Token, cfg: Config, now: int): (r: Option<Claims>)
    ensures r.Some? ==> token.Jws? && r.value == token.claims
  {
    if !token.Jws? || token.key != cfg.secretKey || token.alg != cfg.algorithm then None
    else if "exp" in token.claims && !(token.claims["exp"].IntClaim? && now < token.claims["exp"].i) then None
    else if "sub" in token.claims && !token.claims["sub"].StrClaim? then None
    else Some(token.claims)
  }

  /**
   * `decode_token(token)` at time `now`: the subject string, or the single
   * `InvalidToken` error whatever went wrong.
   */
  function DecodeToken(token: Token, cfg: Config, now: int): (r: Result<string, HttpError>)
    ensures r.Err? ==> r.error == InvalidToken
    ensures r.Ok? ==> && token.Jws? && token.key == cfg.secretKey && token.alg == cfg.algorithm
                      && "sub" in token.claims && token.claims["sub"] == StrClaim(r.value)
    ensures r.Ok? && "exp" in token.claims ==> token.claims["exp"].IntClaim? && now < token.claims["exp"].i
  {
    match JwtDecode(token, cfg, now)
    case None => Err(InvalidToken)
    case Some(payload) =>
      match Get(payload, "sub")
      case StrClaim(s) => Ok(s)
      case _ => Err(InvalidToken)
  }

  /**
   * Round trip: a token issued under `cfg` decodes under `cfg` to the string
   * form of the supplied subject while `now` is before its expiry, and is
   * rejected from the expiry instant on.
   */
  lemma DecodeIssued(data: Claims, cfg: Config, issuedAt: int, expiresDelta: int, now: int)
    requires "aud" !in data && "iat" !in data && "nbf" !in data
    ensures DecodeToken(CreateAccessToken(data, cfg, issuedAt, expiresDelta), cfg, now)
         == if now < issuedAt + expiresDelta then Ok(Str(Get(data, "sub"))) else Err(InvalidToken)
  {
  }

  /** A token is accepted only under the key and algorithm that signed it. */
  lemma ForeignKeyRejected(data: Claims, signer: Config, verifier: Config, issuedAt: int, now: int)
    requires signer != verifier
    ensures DecodeToken(CreateAccessToken(data, signer, issuedAt), verifier, now) == Err(InvalidToken)
  {
  }

  /** Text that is not a signed token is rejected like every other failure. */
  lemma GarbledRejected(text: string, cfg: Config, now: int)
    ensures DecodeToken(Garbled(text), cfg, now) == Err(InvalidToken)
  {
  }

  /** A validly signed, unexpired token without `sub` is rejected. */
  lemma MissingSubjectRejected(claims: Claims, cfg: Config, now: int)
    requires "sub" !in claims
    ensures DecodeToken(Jws(claims, cfg.secretKey, cfg.algorithm), cfg, now) == Err(InvalidToken)
  {
  }

  /**
   * The token the routes issue, `create_access_token({"sub": user_id})`,
   * decodes to the decimal text of that id, and that text names no other
   * id.
   */
  lemma {:induction false} SubjectIdentifiesUser(id: int, other: int, cfg: Config, issuedAt: int, now: int)
    requires now < issuedAt + DefaultExpiresDelta
    ensures DecodeToken(CreateAccessToken(map["sub" := IntClaim(id)], cfg, issuedAt), cfg, now) == Ok(PyText.IntStr(id))
    ensures DecodeToken(CreateAccessToken(map["sub" := IntClaim(id)], cfg, issuedAt), cfg, now) == Ok(PyText.IntStr(other)) ==> id == other
  {
    DecodeIssued(map["sub" := IntClaim(id)], cfg, issuedAt, DefaultExpiresDelta, now);
    if PyText.IntStr(id) == PyText.IntStr(other) {
      PyText.IntStrInjective(id, other);
    }
  }
}

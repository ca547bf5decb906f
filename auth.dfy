/** The backend's token helpers (`AuthHandler`): access and refresh tokens are
    the caller's claims plus an `exp`, both signed with the access secret;
    decoding picks the secret by token kind, lets the JWT library verify it,
    checks `exp` once more against the current time, and turns the library's
    errors into 401 replies. Signing is symbolic: a token is the claims paired
    with the key that signed them. */
module Auth {
  import opened Common

  /** A JWT claim value: a string (such as `sub`) or a number (such as `exp`). */
  datatype Claim = Text(text: string) | Number(n: int)

  type Claims = map<string, Claim>

  /** The environment settings the handler reads. */
  datatype Config = Config(secretKey: string, refreshSecret: string,
                           accessExpireMinutes: int, refreshExpireDays: int)

  /** A token as `jwt.encode` leaves it, or a string that is not one. */
  datatype Token = Signed(claims: Claims, key: string) | Malformed(text: string)

  /** What `jwt.decode` does with a token: return its payload, or raise
      `ExpiredSignatureError`, `DecodeError`, or another `InvalidTokenError`. */
  datatype LibOutcome = Decoded(payload: Claims) | ExpiredSignature | DecodeFailure | OtherInvalid

  const ExpiredError := HttpError(401, "Token has expired")
  const InvalidError := HttpError(401, "Token is invalid")
  /** What FastAPI answers for an exception the handler does not catch. */
  const UncaughtError := HttpError(500, "Internal Server Error")

  const SecondsPerMinute := 60
  const SecondsPerDay := 86400

  /** `expiresDelta or timedelta(...)`: a zero delta is falsy in Python, so it
      falls back to the default just like a missing one. */
  function Lifetime(expiresDelta: Option<int>, defaultSeconds: int): (seconds: int)
    ensures expiresDelta.Some? && expiresDelta.value != 0 ==> seconds == expiresDelta.value
    ensures expiresDelta.None? || expiresDelta.value == 0 ==> seconds == defaultSeconds
  {
    if expiresDelta.Some? && expiresDelta.value != 0 then expiresDelta.value else defaultSeconds
  }

  /** `toEncode = data.copy(); toEncode.update({"exp": expire})`. */
  function WithExpiry(data: Claims, expire: int): (toEncode: Claims)
    ensures toEncode.Keys == data.Keys + {"exp"}
    ensures toEncode["exp"] == Number(expire)
    ensures forall k :: k in data && k != "exp" ==> toEncode[k] == data[k]
  {
    data["exp" := Number(expire)]
  }

  function CreateAccessToken(data: Claims, expiresDelta: Option<int>, now: int, cfg: Config): (t: Token)
    ensures t.Signed? && t.key == cfg.secretKey
    ensures t.claims.Keys == data.Keys + {"exp"}
    ensures forall k :: k in data && k != "exp" ==> t.claims[k] == data[k]
    ensures t.claims["exp"] == Number(now + Lifetime(expiresDelta, cfg.accessExpireMinutes * SecondsPerMinute))
  {
    Signed(WithExpiry(data, now + Lifetime(expiresDelta, cfg.accessExpireMinutes * SecondsPerMinute)), cfg.secretKey)
  }

  /** Signed with `self.secret`, the access secret, like the access token. */
  function CreateRefreshToken(data: Claims, expiresDelta: Option<int>, now: int, cfg: Config): (t: Token)
    ensures t.Signed? && t.key == cfg.secretKey
    ensures t.claims.Keys == data.Keys + {"exp"}
    ensures forall k :: k in data && k != "exp" ==> t.claims[k] == data[k]
    ensures t.claims["exp"] == Number(now + Lifetime(expiresDelta, cfg.refreshExpireDays * SecondsPerDay))
  {
    Signed(WithExpiry(data, now + Lifetime(expiresDelta, cfg.refreshExpireDays * SecondsPerDay)), cfg.secretKey)
  }

  /** The key `decodeToken` verifies with. */
  function SecretFor(isRefresh: bool, cfg: Config): (key: string)
    ensures isRefresh ==> key == cfg.refreshSecret
    ensures !isRefresh ==> key == cfg.secretKey
  {
    if isRefresh then cfg.refreshSecret else cfg.secretKey
  }

  /** What `decodeToken` does with the library's answer: the payload comes
      back unchanged unless its `exp` lies strictly before `now`; the two
      library errors it catches become 401 replies. */
  function CheckDecoded(lib: LibOutcome, now: int): (r: Result<Claims>)
    ensures r.Ok? ==> lib.Decoded? && r.value == lib.payload
    ensures lib.Decoded? && "exp" !in lib.payload ==> r == Ok(lib.payload)
    ensures lib.Decoded? && "exp" in lib.payload && lib.payload["exp"].Number? ==>
              (r == Err(ExpiredError) <==> now > lib.payload["exp"].n) &&
              (r == Ok(lib.payload) <==> now <= lib.payload["exp"].n)
    ensures lib.ExpiredSignature? ==> r == Err(ExpiredError)
    ensures lib.DecodeFailure? ==> r == Err(InvalidError)
    ensures lib.OtherInvalid? ==> r == Err(UncaughtError)
  {
    match lib
    case Decoded(payload) =>
      if "exp" in payload then
        match payload["exp"]
        case Number(exp) => if now > exp then Err(ExpiredError) else Ok(payload)
        // comparing a float with a string raises TypeError, which nothing catches
        case Text(_) => Err(UncaughtError)
      else Ok(payload)
    case ExpiredSignature => Err(ExpiredError)
    case DecodeFailure => Err(InvalidError)
    case OtherInvalid => Err(UncaughtError)
  }

  /** `decodeToken(token, is_refresh)`, with `jwt.decode` as the parameter
      `jwtDecode` and the current UTC time in seconds as `now`. */
  function DecodeToken(token: Token, isRefresh: bool, cfg: Config, now: int,
                       jwtDecode: (Token, string) -> LibOutcome): (r: Result<Claims>)
    ensures r.Ok? ==> jwtDecode(token, SecretFor(isRefresh, cfg)) == Decoded(r.value)
    ensures jwtDecode(token, SecretFor(isRefresh, cfg)) == DecodeFailure ==> r == Err(InvalidError)
    ensures jwtDecode(token, SecretFor(isRefresh, cfg)) == ExpiredSignature ==> r == Err(ExpiredError)
    ensures jwtDecode(token, SecretFor(isRefresh, cfg)).Decoded? ==>
              r == CheckDecoded(jwtDecode(token, SecretFor(isRefresh, cfg)), now)
  {
    CheckDecoded(jwtDecode(token, SecretFor(isRefresh, cfg)), now)
  }

  /** Signature checking alone, as a reference for `jwt.decode`: a token
      decodes exactly under the key that signed it; anything else is a
      `DecodeError` (PyJWT's `InvalidSignatureError` is one). */
  function Verify(token: Token, key: string): (outcome: LibOutcome)
    ensures outcome.Decoded? <==> token.Signed? && token.key == key
    ensures outcome.Decoded? ==> outcome.payload == token.claims
    ensures !outcome.Decoded? ==> outcome == DecodeFailure
  {
    if token.Signed? && token.key == key then Decoded(token.claims) else DecodeFailure
  }

  /** An access token decodes to the claims it was created with, plus `exp`,
      until `exp` has passed, and is expired after. The boundary (`later ==
      exp` passes) is the handler's own strict check over `Verify`, which
      leaves out the JWT library's expiry check. */
  lemma AccessTokenRoundTrip(data: Claims, expiresDelta: Option<int>, now: int, later: int, cfg: Config)
    ensures var exp := now + Lifetime(expiresDelta, cfg.accessExpireMinutes * SecondsPerMinute);
            DecodeToken(CreateAccessToken(data, expiresDelta, now, cfg), false, cfg, later, Verify)
              == if later > exp then Err(ExpiredError) else Ok(WithExpiry(data, exp))
  {
  }

  /** The refresh secret never verifies a refresh token, because refresh
      tokens are signed with the access secret: whenever the two secrets
      differ, decoding a refresh token as a refresh token is rejected as
      invalid, at any time. */
  lemma RefreshTokenRejectedAsRefresh(data: Claims, expiresDelta: Option<int>, now: int, later: int, cfg: Config)
    requires cfg.secretKey != cfg.refreshSecret
    ensures DecodeToken(CreateRefreshToken(data, expiresDelta, now, cfg), true, cfg, later, Verify)
              == Err(InvalidError)
  {
  }

  /** The other side of the same mismatch: a refresh token that has not
      expired passes the access-token check. */
  lemma RefreshTokenAcceptedAsAccess(data: Claims, expiresDelta: Option<int>, now: int, later: int, cfg: Config)
    requires later <= now + Lifetime(expiresDelta, cfg.refreshExpireDays * SecondsPerDay)
    ensures DecodeToken(CreateRefreshToken(data, expiresDelta, now, cfg), false, cfg, later, Verify)
              == Ok(CreateRefreshToken(data, expiresDelta, now, cfg).claims)
  {
  }
}

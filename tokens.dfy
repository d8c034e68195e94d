/**
 * Token minting in auth/service.go: the claim sets of the access and refresh
 * tokens, their expiry arithmetic, and the random token id. Signing and
 * parsing belong to the JWT library and are supplied as a Signer.
 */
module Tokens {
  import opened Results
  import opened GoTime
  import Hex = HexEncoding

  /** A claim value as the JWT library hands it back: a string or a number. */
  datatype Claim = Text(text: string) | Number(value: int)

  type Claims = map<string, Claim>

  const UsernameClaim: string := "username"
  const TokenIdClaim: string := "token_id"
  const ExpiryClaim: string := "exp"
  const IssuedAtClaim: string := "iat"

  /** Number of random bytes behind a refresh token's id. */
  const TokenIdBytes: nat := 32

  /**
   * One `jwtauth.JWTAuth` instance: `Encode` signs a claim set (it may fail),
   * `Decode` parses and checks a token string (None stands for an error or a
   * nil token).
   */
  datatype Signer = Signer(encode: Claims -> Option<string>, decode: string -> Option<Claims>)

  /** The signer gives back, on decoding, exactly the claims it signed. */
  ghost predicate RoundTrips(s: Signer) {
    forall c: Claims :: s.encode(c).Some? ==> s.decode(s.encode(c).value) == Some(c)
  }

  /** The package-level configuration that `Initialize` sets up. */
  datatype Config = Config(
    accessTokenAuth: Signer,
    refreshTokenAuth: Signer,
    accessTokenDuration: Duration,
    refreshTokenDuration: Duration)

  datatype IssuedToken = IssuedToken(token: string, expiresAt: Time)

  datatype TokenError = AccessTokenEncodeFailed | TokenIdFailed | RefreshTokenEncodeFailed

  /** The claims of an access token: its owner, its expiry and its issue time, both in Unix seconds; no token id. */
  function AccessClaims(username: string, expiresAt: Time, issuedAt: Time): (c: Claims)
    ensures c.Keys == {UsernameClaim, ExpiryClaim, IssuedAtClaim}
    ensures TokenIdClaim !in c
    ensures c[UsernameClaim] == Text(username)
    ensures c[ExpiryClaim] == Number(Unix(expiresAt)) && c[IssuedAtClaim] == Number(Unix(issuedAt))
  {
    map[UsernameClaim := Text(username), ExpiryClaim := Number(Unix(expiresAt)), IssuedAtClaim := Number(Unix(issuedAt))]
  }

  /**
   * The claims of a refresh token: those of an access token plus the token id,
   * so no refresh claim set equals an access claim set.
   */
  function RefreshClaims(username: string, tokenId: string, expiresAt: Time, issuedAt: Time): (c: Claims)
    ensures c.Keys == AccessClaims(username, expiresAt, issuedAt).Keys + {TokenIdClaim}
    ensures c[TokenIdClaim] == Text(tokenId)
    ensures forall k :: k in c && k != TokenIdClaim ==> c[k] == AccessClaims(username, expiresAt, issuedAt)[k]
    ensures forall u, e, i :: c != AccessClaims(u, e, i)
  {
    map[UsernameClaim := Text(username), TokenIdClaim := Text(tokenId),
        ExpiryClaim := Number(Unix(expiresAt)), IssuedAtClaim := Number(Unix(issuedAt))]
  }

  /**
   * `generateRandomString(length)`: `read` is what `crypto/rand.Read` put into
   * the length-byte buffer, or None when it failed.
   */
  function GenerateRandomString(length: nat, read: Option<seq<Hex.byte>>): (r: Option<string>)
    requires read.Some? ==> |read.value| == length
    ensures r.Some? <==> read.Some?
    ensures r.Some? ==> |r.value| == 2 * length && Hex.IsLowerHex(r.value)
    ensures r.Some? ==> Hex.Decode(r.value) == Some(read.value)
  {
    match read
    case None => None
    case Some(bytes) =>
      Hex.DecodeEncode(bytes);
      Some(Hex.Encode(bytes))
  }

  /** `GenerateAccessToken(username)` at instant `now`. */
  function GenerateAccessToken(cfg: Config, username: string, now: Time): (r: Result<IssuedToken, TokenError>)
    ensures r.Success? <==> cfg.accessTokenAuth.encode(AccessClaims(username, now + cfg.accessTokenDuration, now)).Some?
    ensures r.Success? ==> r.value.expiresAt == now + cfg.accessTokenDuration
    ensures r.Failure? ==> r.error == AccessTokenEncodeFailed
  {
    var expiresAt := Add(now, cfg.accessTokenDuration);
    match cfg.accessTokenAuth.encode(AccessClaims(username, expiresAt, now))
    case None => Failure(AccessTokenEncodeFailed)
    case Some(token) => Success(IssuedToken(token, expiresAt))
  }

  /** `GenerateRefreshToken(username)` at instant `now`, with `read` the random bytes of its id. */
  function GenerateRefreshToken(cfg: Config, username: string, now: Time, read: Option<seq<Hex.byte>>): (r: Result<IssuedToken, TokenError>)
    requires read.Some? ==> |read.value| == TokenIdBytes
    ensures read.None? ==> r == Failure(TokenIdFailed)
    ensures read.Some? ==>
      (r.Success? <==> cfg.refreshTokenAuth.encode(RefreshClaims(username, Hex.Encode(read.value), now + cfg.refreshTokenDuration, now)).Some?)
    ensures r.Success? ==> r.value.expiresAt == now + cfg.refreshTokenDuration
    ensures read.Some? && r.Failure? ==> r.error == RefreshTokenEncodeFailed
  {
    var expiresAt := Add(now, cfg.refreshTokenDuration);
    match GenerateRandomString(TokenIdBytes, read)
    case None => Failure(TokenIdFailed)
    case Some(tokenId) =>
      match cfg.refreshTokenAuth.encode(RefreshClaims(username, tokenId, expiresAt, now))
      case None => Failure(RefreshTokenEncodeFailed)
      case Some(token) => Success(IssuedToken(token, expiresAt))
  }

  /** An access token decodes to its owner's name and its expiry in Unix seconds. */
  lemma AccessTokenClaims(cfg: Config, username: string, now: Time)
    requires RoundTrips(cfg.accessTokenAuth)
    requires GenerateAccessToken(cfg, username, now).Success?
    ensures var t := GenerateAccessToken(cfg, username, now).value;
      && cfg.accessTokenAuth.decode(t.token) == Some(AccessClaims(username, t.expiresAt, now))
      && cfg.accessTokenAuth.decode(t.token).value[UsernameClaim] == Text(username)
      && cfg.accessTokenAuth.decode(t.token).value[ExpiryClaim] == Number(Unix(now + cfg.accessTokenDuration))
  {
    var c := AccessClaims(username, now + cfg.accessTokenDuration, now);
    assert cfg.accessTokenAuth.encode(c).Some?;
  }

  /** A refresh token decodes to its owner's name and the hex form of its random bytes. */
  lemma RefreshTokenClaims(cfg: Config, username: string, now: Time, bytes: seq<Hex.byte>)
    requires RoundTrips(cfg.refreshTokenAuth)
    requires |bytes| == TokenIdBytes
    requires GenerateRefreshToken(cfg, username, now, Some(bytes)).Success?
    ensures var t := GenerateRefreshToken(cfg, username, now, Some(bytes)).value;
      && cfg.refreshTokenAuth.decode(t.token) == Some(RefreshClaims(username, Hex.Encode(bytes), t.expiresAt, now))
      && cfg.refreshTokenAuth.decode(t.token).value[UsernameClaim] == Text(username)
      && cfg.refreshTokenAuth.decode(t.token).value[TokenIdClaim] == Text(Hex.Encode(bytes))
  {
    var c := RefreshClaims(username, Hex.Encode(bytes), now + cfg.refreshTokenDuration, now);
    assert cfg.refreshTokenAuth.encode(c).Some?;
  }

  /** Refresh tokens minted from different random bytes are different strings. */
  lemma DistinctEntropyDistinctTokens(cfg: Config, u1: string, now1: Time, b1: seq<Hex.byte>,
                                       u2: string, now2: Time, b2: seq<Hex.byte>)
    requires RoundTrips(cfg.refreshTokenAuth)
    requires |b1| == TokenIdBytes && |b2| == TokenIdBytes && b1 != b2
    requires GenerateRefreshToken(cfg, u1, now1, Some(b1)).Success?
    requires GenerateRefreshToken(cfg, u2, now2, Some(b2)).Success?
    ensures GenerateRefreshToken(cfg, u1, now1, Some(b1)).value.token != GenerateRefreshToken(cfg, u2, now2, Some(b2)).value.token
  {
    RefreshTokenClaims(cfg, u1, now1, b1);
    RefreshTokenClaims(cfg, u2, now2, b2);
    if Hex.Encode(b1) == Hex.Encode(b2) {
      Hex.EncodeInjective(b1, b2);
    }
  }
}

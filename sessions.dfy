/**
 * The session store of auth/service.go and the two operations that drive it:
 * creating a session at login and rotating it on refresh. The pure functions
 * Create, Refresh, Revoke, RevokeUser and Sweep say what each operation does
 * to the map of sessions; SessionStore and the methods below do it in place.
 */
module Sessions {
  import opened Results
  import opened GoTime
  import opened Tokens
  import Hex = HexEncoding

  /** One active session; its key in the store equals `refreshTokenHash`. */
  datatype Session = Session(
    username: string,
    refreshTokenHash: string,
    createdAt: Time,
    lastUsedAt: Time,
    userAgent: string)

  type SessionMap = map<string, Session>

  /** `hashToken`: the store key of a refresh token, which is the token itself. */
  function HashToken(token: string): string {
    token
  }

  /** Every session is filed under its own refresh-token hash. */
  predicate KeyedByHash(m: SessionMap) {
    forall k :: k in m ==> m[k].refreshTokenHash == k
  }

  datatype TokenPair = TokenPair(accessToken: string, refreshToken: string)

  datatype SessionError =
    | TokenFailed(cause: TokenError)
      /** "invalid or expired refresh token": no session under the token's key. */
    | InvalidOrExpiredRefreshToken
      /** "invalid refresh token": the refresh signer rejected the token. */
    | InvalidRefreshToken
      /** "invalid token claims": the token carries no username claim. */
    | InvalidTokenClaims
      /** The username claim is not a string: the type assertion in the source panics. */
    | UsernameNotString

  /** What an operation returns, with the session map it leaves behind. */
  datatype Step = Step(result: Result<TokenPair, SessionError>, sessions: SessionMap)

  /** The expiry that governs removal: the session is older than `maxAge`. */
  predicate Expired(s: Session, now: Time, maxAge: Duration): (e: bool)
    ensures maxAge < MaxDuration ==> (e <==> now - s.createdAt > maxAge)
    ensures maxAge == MaxDuration ==> !e
  {
    SubExceedsIff(now, s.createdAt, maxAge);
    Sub(now, s.createdAt) > maxAge
  }

  function ExpiredKeys(m: SessionMap, now: Time, maxAge: Duration): set<string> {
    set k | k in m && Expired(m[k], now, maxAge)
  }

  /** `CreateSession(username, userAgent)` at `now`, `read` being the random bytes of the token id. */
  function Create(m: SessionMap, cfg: Config, username: string, userAgent: string, now: Time,
                  read: Option<seq<Hex.byte>>): (s: Step)
    requires read.Some? ==> |read.value| == TokenIdBytes
    ensures s.result.Success? <==>
      GenerateAccessToken(cfg, username, now).Success? && GenerateRefreshToken(cfg, username, now, read).Success?
    ensures s.result.Failure? ==> s.sessions == m
    ensures GenerateAccessToken(cfg, username, now).Failure? ==>
      s.result == Failure(TokenFailed(GenerateAccessToken(cfg, username, now).error))
    ensures GenerateAccessToken(cfg, username, now).Success? && GenerateRefreshToken(cfg, username, now, read).Failure? ==>
      s.result == Failure(TokenFailed(GenerateRefreshToken(cfg, username, now, read).error))
    ensures s.result.Success? ==>
      var t := s.result.value.refreshToken;
      && t == GenerateRefreshToken(cfg, username, now, read).value.token
      && s.result.value.accessToken == GenerateAccessToken(cfg, username, now).value.token
      && t in s.sessions
      && s.sessions[t] == Session(username, t, now, now, userAgent)
      && s.sessions.Keys == m.Keys + {t}
      && (forall k :: k in m && k != t ==> s.sessions[k] == m[k])
    ensures KeyedByHash(m) ==> KeyedByHash(s.sessions)
  {
    match GenerateAccessToken(cfg, username, now)
    case Failure(e) => Step(Failure(TokenFailed(e)), m)
    case Success(access) =>
      match GenerateRefreshToken(cfg, username, now, read)
      case Failure(e) => Step(Failure(TokenFailed(e)), m)
      case Success(refresh) =>
        var key := HashToken(refresh.token);
        Step(Success(TokenPair(access.token, refresh.token)),
             m[key := Session(username, key, now, now, userAgent)])
  }

  /** `RevokeSession(key)`. */
  function Revoke(m: SessionMap, key: string): (r: SessionMap)
    ensures key !in r
    ensures forall k :: k != key ==> (k in r <==> k in m)
    ensures forall k :: k in r ==> r[k] == m[k]
    ensures KeyedByHash(m) ==> KeyedByHash(r)
  {
    m - {key}
  }

  /** `RevokeAllUserSessions(username)`. */
  function RevokeUser(m: SessionMap, username: string): (r: SessionMap)
    ensures forall k :: k in r <==> k in m && m[k].username != username
    ensures forall k :: k in r ==> r[k] == m[k]
    ensures KeyedByHash(m) ==> KeyedByHash(r)
  {
    map k | k in m && m[k].username != username :: m[k]
  }

  /** One pass of `cleanupExpiredSessions` at `now`, `maxAge` being the refresh-token duration. */
  function Sweep(m: SessionMap, now: Time, maxAge: Duration): (r: SessionMap)
    ensures forall k :: k in r <==> k in m && !Expired(m[k], now, maxAge)
    ensures forall k :: k in r ==> r[k] == m[k]
    ensures KeyedByHash(m) ==> KeyedByHash(r)
  {
    map k | k in m && !Expired(m[k], now, maxAge) :: m[k]
  }

  /** `RefreshSession(oldRefreshToken, userAgent)` at `now`: token rotation. */
  function Refresh(m: SessionMap, cfg: Config, oldRefreshToken: string, userAgent: string, now: Time,
                   read: Option<seq<Hex.byte>>): (s: Step)
    requires read.Some? ==> |read.value| == TokenIdBytes
    // A token without a session is refused and nothing changes (never issued, rotated, revoked, swept).
    ensures oldRefreshToken !in m ==> s == Step(Failure(InvalidOrExpiredRefreshToken), m)
    // A token the signer rejects loses its session.
    ensures oldRefreshToken in m && cfg.refreshTokenAuth.decode(oldRefreshToken).None? ==>
      s == Step(Failure(InvalidRefreshToken), Revoke(m, oldRefreshToken))
    // A token without a username claim is refused but keeps its session.
    ensures oldRefreshToken in m && cfg.refreshTokenAuth.decode(oldRefreshToken).Some? &&
            UsernameClaim !in cfg.refreshTokenAuth.decode(oldRefreshToken).value ==>
      s == Step(Failure(InvalidTokenClaims), m)
    // A username claim that is not a string aborts the call after the session was revoked.
    ensures oldRefreshToken in m && cfg.refreshTokenAuth.decode(oldRefreshToken).Some? &&
            UsernameClaim in cfg.refreshTokenAuth.decode(oldRefreshToken).value &&
            !cfg.refreshTokenAuth.decode(oldRefreshToken).value[UsernameClaim].Text? ==>
      s == Step(Failure(UsernameNotString), Revoke(m, oldRefreshToken))
    // A live, decodable token naming a user string: its session is revoked first, then the
    // new pair is minted for that user at `now`; a minting failure leaves the session revoked.
    ensures oldRefreshToken in m && cfg.refreshTokenAuth.decode(oldRefreshToken).Some? &&
            UsernameClaim in cfg.refreshTokenAuth.decode(oldRefreshToken).value &&
            cfg.refreshTokenAuth.decode(oldRefreshToken).value[UsernameClaim].Text? ==>
      var username := cfg.refreshTokenAuth.decode(oldRefreshToken).value[UsernameClaim].text;
      var access := GenerateAccessToken(cfg, username, now);
      var refresh := GenerateRefreshToken(cfg, username, now, read);
      && (access.Failure? ==> s == Step(Failure(TokenFailed(access.error)), Revoke(m, oldRefreshToken)))
      && (access.Success? && refresh.Failure? ==>
            s == Step(Failure(TokenFailed(refresh.error)), Revoke(m, oldRefreshToken)))
      && (access.Success? && refresh.Success? ==>
            s.result == Success(TokenPair(access.value.token, refresh.value.token)))
    // A failed refresh adds nothing; at most the presented token's session is gone.
    ensures s.result.Failure? ==> s.sessions == m || s.sessions == Revoke(m, oldRefreshToken)
    // A successful refresh: the presented token was live and decoded to a username,
    // its session is replaced by a fresh one for that user, created now.
    ensures s.result.Success? ==>
      var t := s.result.value.refreshToken;
      && oldRefreshToken in m
      && cfg.refreshTokenAuth.decode(oldRefreshToken).Some?
      && var claims := cfg.refreshTokenAuth.decode(oldRefreshToken).value;
      && UsernameClaim in claims && claims[UsernameClaim].Text?
      && t in s.sessions
      && s.sessions[t] == Session(claims[UsernameClaim].text, t, now, now, userAgent)
      && (t != oldRefreshToken ==> oldRefreshToken !in s.sessions)
      && s.sessions.Keys == (m.Keys - {oldRefreshToken}) + {t}
      && (forall k :: k in m && k != oldRefreshToken && k != t ==> s.sessions[k] == m[k])
    ensures KeyedByHash(m) ==> KeyedByHash(s.sessions)
  {
    var key := HashToken(oldRefreshToken);
    if key !in m then Step(Failure(InvalidOrExpiredRefreshToken), m)
    else match cfg.refreshTokenAuth.decode(oldRefreshToken)
      case None => Step(Failure(InvalidRefreshToken), Revoke(m, key))
      case Some(claims) =>
        if UsernameClaim !in claims then Step(Failure(InvalidTokenClaims), m)
        else
          var remaining := Revoke(m, key);
          match claims[UsernameClaim]
          case Number(_) => Step(Failure(UsernameNotString), remaining)
          case Text(username) => Create(remaining, cfg, username, userAgent, now, read)
  }

  /** The refresh signer's claims for `token` carry a token id other than the hex of `read`. */
  predicate FreshTokenId(cfg: Config, token: string, read: Option<seq<Hex.byte>>)
    requires read.Some? ==> |read.value| == TokenIdBytes
  {
    && read.Some?
    && match cfg.refreshTokenAuth.decode(token)
       case None => true
       case Some(claims) => TokenIdClaim !in claims || claims[TokenIdClaim] != Text(Hex.Encode(read.value))
  }

  /** Every session's key decodes, under the refresh signer, to claims naming the session's owner. */
  ghost predicate OwnersMatchClaims(m: SessionMap, refreshAuth: Signer) {
    forall k :: k in m ==>
      var c := refreshAuth.decode(k);
      c.Some? && UsernameClaim in c.value && c.value[UsernameClaim] == Text(m[k].username)
  }

  /** With a round-tripping signer, creating a session keeps every key's claims naming its owner. */
  lemma CreateKeepsOwners(m: SessionMap, cfg: Config, username: string, userAgent: string, now: Time,
                          read: Option<seq<Hex.byte>>)
    requires read.Some? ==> |read.value| == TokenIdBytes
    requires RoundTrips(cfg.refreshTokenAuth)
    requires OwnersMatchClaims(m, cfg.refreshTokenAuth)
    ensures OwnersMatchClaims(Create(m, cfg, username, userAgent, now, read).sessions, cfg.refreshTokenAuth)
  {
    if Create(m, cfg, username, userAgent, now, read).result.Success? {
      RefreshTokenClaims(cfg, username, now, read.value);
    }
  }

  /** Removing sessions, one key, one user's or the expired ones, keeps the owner invariant. */
  lemma RemovalsKeepOwners(m: SessionMap, refreshAuth: Signer, key: string, username: string,
                           now: Time, maxAge: Duration)
    requires OwnersMatchClaims(m, refreshAuth)
    ensures OwnersMatchClaims(Revoke(m, key), refreshAuth)
    ensures OwnersMatchClaims(RevokeUser(m, username), refreshAuth)
    ensures OwnersMatchClaims(Sweep(m, now, maxAge), refreshAuth)
  {
  }

  /** With a round-tripping signer, a refresh keeps every key's claims naming its owner. */
  lemma RefreshKeepsOwners(m: SessionMap, cfg: Config, oldRefreshToken: string, userAgent: string, now: Time,
                           read: Option<seq<Hex.byte>>)
    requires read.Some? ==> |read.value| == TokenIdBytes
    requires RoundTrips(cfg.refreshTokenAuth)
    requires OwnersMatchClaims(m, cfg.refreshTokenAuth)
    ensures OwnersMatchClaims(Refresh(m, cfg, oldRefreshToken, userAgent, now, read).sessions, cfg.refreshTokenAuth)
  {
    var remaining := Revoke(m, oldRefreshToken);
    RemovalsKeepOwners(m, cfg.refreshTokenAuth, oldRefreshToken, "", now, 0);
    if oldRefreshToken in m {
      var c := cfg.refreshTokenAuth.decode(oldRefreshToken);
      if c.Some? && UsernameClaim in c.value && c.value[UsernameClaim].Text? {
        CreateKeepsOwners(remaining, cfg, c.value[UsernameClaim].text, userAgent, now, read);
      }
    }
  }

  /** Under the owner invariant, a rotated session belongs to the same user as the one it replaces. */
  lemma RotationKeepsOwner(m: SessionMap, cfg: Config, oldRefreshToken: string, userAgent: string, now: Time,
                           read: Option<seq<Hex.byte>>)
    requires read.Some? ==> |read.value| == TokenIdBytes
    requires OwnersMatchClaims(m, cfg.refreshTokenAuth)
    requires Refresh(m, cfg, oldRefreshToken, userAgent, now, read).result.Success?
    ensures var s := Refresh(m, cfg, oldRefreshToken, userAgent, now, read);
      s.sessions[s.result.value.refreshToken].username == m[oldRefreshToken].username
  {
  }

  /** Revoking is idempotent. */
  lemma RevokeIdempotent(m: SessionMap, key: string)
    ensures Revoke(Revoke(m, key), key) == Revoke(m, key)
  {
  }

  /**
   * When the signer round-trips and the new token id differs from the old one,
   * rotation hands out a new token and the presented one has no session left.
   */
  lemma RotationReplacesToken(m: SessionMap, cfg: Config, oldRefreshToken: string, userAgent: string, now: Time,
                              read: Option<seq<Hex.byte>>)
    requires read.Some? ==> |read.value| == TokenIdBytes
    requires RoundTrips(cfg.refreshTokenAuth)
    requires FreshTokenId(cfg, oldRefreshToken, read)
    requires Refresh(m, cfg, oldRefreshToken, userAgent, now, read).result.Success?
    ensures var s := Refresh(m, cfg, oldRefreshToken, userAgent, now, read);
      s.result.value.refreshToken != oldRefreshToken && oldRefreshToken !in s.sessions
  {
    var claims := cfg.refreshTokenAuth.decode(oldRefreshToken).value;
    var username := claims[UsernameClaim].text;
    RefreshTokenClaims(cfg, username, now, read.value);
  }

  /** Presenting a refresh token again after it was rotated fails and changes nothing. */
  lemma ReplayAfterRotationFails(m: SessionMap, cfg: Config, oldRefreshToken: string, userAgent: string, now: Time,
                                 read: Option<seq<Hex.byte>>, userAgent': string, now': Time,
                                 read': Option<seq<Hex.byte>>)
    requires read.Some? ==> |read.value| == TokenIdBytes
    requires read'.Some? ==> |read'.value| == TokenIdBytes
    requires RoundTrips(cfg.refreshTokenAuth)
    requires FreshTokenId(cfg, oldRefreshToken, read)
    requires Refresh(m, cfg, oldRefreshToken, userAgent, now, read).result.Success?
    ensures var after := Refresh(m, cfg, oldRefreshToken, userAgent, now, read).sessions;
      Refresh(after, cfg, oldRefreshToken, userAgent', now', read') == Step(Failure(InvalidOrExpiredRefreshToken), after)
  {
    RotationReplacesToken(m, cfg, oldRefreshToken, userAgent, now, read);
  }

  /** After revoking all of a user's sessions, none of that user's refresh tokens can be refreshed. */
  lemma RevokeUserBlocksRefresh(m: SessionMap, username: string, cfg: Config, token: string, userAgent: string,
                                now: Time, read: Option<seq<Hex.byte>>)
    requires read.Some? ==> |read.value| == TokenIdBytes
    requires token in m && m[token].username == username
    ensures var r := RevokeUser(m, username);
      Refresh(r, cfg, token, userAgent, now, read) == Step(Failure(InvalidOrExpiredRefreshToken), r)
  {
  }

  /** A sweep over N sessions, K of them expired, leaves N - K. */
  lemma SweepCount(m: SessionMap, now: Time, maxAge: Duration)
    ensures |Sweep(m, now, maxAge)| == |m| - |ExpiredKeys(m, now, maxAge)|
  {
    var kept := Sweep(m, now, maxAge).Keys;
    var gone := ExpiredKeys(m, now, maxAge);
    assert kept == m.Keys - gone;
    assert m.Keys == kept + gone;
    assert kept !! gone;
  }

  /**
   * For a refresh-token duration below the largest Duration, a sweep removes a
   * session exactly when more than that duration has passed since its creation;
   * a session aged exactly the duration stays.
   */
  lemma SweepRemovesExactlyOlder(m: SessionMap, now: Time, maxAge: Duration, k: string)
    requires k in m && maxAge < MaxDuration
    ensures k !in Sweep(m, now, maxAge) <==> now - m[k].createdAt > maxAge
  {
    SubExceedsIff(now, m[k].createdAt, maxAge);
  }

  /**
   * Rotation resets the session age: the session a refresh at `now` creates
   * survives a sweep at `later` exactly when no more than the refresh-token
   * duration has elapsed since `now`.
   */
  lemma RotationResetsAge(m: SessionMap, cfg: Config, oldRefreshToken: string, userAgent: string, now: Time,
                          read: Option<seq<Hex.byte>>, later: Time)
    requires read.Some? ==> |read.value| == TokenIdBytes
    requires cfg.refreshTokenDuration < MaxDuration
    requires Refresh(m, cfg, oldRefreshToken, userAgent, now, read).result.Success?
    ensures var s := Refresh(m, cfg, oldRefreshToken, userAgent, now, read);
      s.result.value.refreshToken in Sweep(s.sessions, later, cfg.refreshTokenDuration) <==>
      later - now <= cfg.refreshTokenDuration
  {
    var s := Refresh(m, cfg, oldRefreshToken, userAgent, now, read);
    SweepRemovesExactlyOlder(s.sessions, later, cfg.refreshTokenDuration, s.result.value.refreshToken);
  }

  /** The in-memory map of active sessions, keyed by refresh-token hash. */
  class SessionStore {
    var sessions: SessionMap

    ghost predicate Valid()
      reads this
    {
      KeyedByHash(sessions)
    }

    constructor ()
      ensures Valid() && sessions == map[]
    {
      sessions := map[];
    }

    /** Deletes the session under `tokenHash`, if any. */
    method RevokeSession(tokenHash: string)
      requires Valid()
      modifies this
      ensures Valid()
      ensures sessions == Revoke(old(sessions), tokenHash)
      ensures GetSessionCount() == old(GetSessionCount()) - (if tokenHash in old(sessions) then 1 else 0)
    {
      sessions := sessions - {tokenHash};
    }

    /** Deletes every session owned by `username`, visiting the keys one by one. */
    method RevokeAllUserSessions(username: string)
      requires Valid()
      modifies this
      ensures Valid()
      ensures sessions == RevokeUser(old(sessions), username)
    {
      var pending := sessions.Keys;
      while pending != {}
        invariant pending <= old(sessions).Keys
        invariant forall k :: k in sessions <==> k in old(sessions) && (k in pending || old(sessions)[k].username != username)
        invariant forall k :: k in sessions ==> sessions[k] == old(sessions)[k]
        decreases pending
      {
        var hash :| hash in pending;
        if sessions[hash].username == username {
          sessions := sessions - {hash};
        }
        pending := pending - {hash};
      }
    }

    /** One tick of the cleanup task: deletes every session older than `refreshTokenDuration` at `now`. */
    method CleanupExpiredSessions(now: Time, refreshTokenDuration: Duration)
      requires Valid()
      modifies this
      ensures Valid()
      ensures sessions == Sweep(old(sessions), now, refreshTokenDuration)
      ensures GetSessionCount() == old(GetSessionCount()) - |ExpiredKeys(old(sessions), now, refreshTokenDuration)|
    {
      var pending := sessions.Keys;
      while pending != {}
        invariant pending <= old(sessions).Keys
        invariant forall k :: k in sessions <==>
          k in old(sessions) && (k in pending || !Expired(old(sessions)[k], now, refreshTokenDuration))
        invariant forall k :: k in sessions ==> sessions[k] == old(sessions)[k]
        decreases pending
      {
        var hash :| hash in pending;
        if Sub(now, sessions[hash].createdAt) > refreshTokenDuration {
          sessions := sessions - {hash};
        }
        pending := pending - {hash};
      }
      SweepCount(old(sessions), now, refreshTokenDuration);
    }

    /** The number of active sessions. */
    function GetSessionCount(): (n: nat)
      reads this
      ensures n == |sessions.Keys|
    {
      |sessions|
    }
  }

  /** `CreateSession`: mints a token pair and files a session under the refresh token. */
  method CreateSession(store: SessionStore, cfg: Config, username: string, userAgent: string, now: Time,
                       read: Option<seq<Hex.byte>>) returns (r: Result<TokenPair, SessionError>)
    requires store.Valid()
    requires read.Some? ==> |read.value| == TokenIdBytes
    modifies store
    ensures store.Valid()
    ensures Step(r, store.sessions) == Create(old(store.sessions), cfg, username, userAgent, now, read)
    ensures r.Success? && r.value.refreshToken !in old(store.sessions) ==>
      store.GetSessionCount() == old(store.GetSessionCount()) + 1
    ensures r.Success? && r.value.refreshToken in old(store.sessions) ==>
      store.GetSessionCount() == old(store.GetSessionCount())
  {
    var access := GenerateAccessToken(cfg, username, now);
    if access.Failure? {
      return Failure(TokenFailed(access.error));
    }
    var refresh := GenerateRefreshToken(cfg, username, now, read);
    if refresh.Failure? {
      return Failure(TokenFailed(refresh.error));
    }
    var session := Session(username, HashToken(refresh.value.token), now, now, userAgent);
    store.sessions := store.sessions[session.refreshTokenHash := session];
    r := Success(TokenPair(access.value.token, refresh.value.token));
  }

  /** `RefreshSession`: checks the presented refresh token and rotates its session. */
  method RefreshSession(store: SessionStore, cfg: Config, oldRefreshToken: string, userAgent: string, now: Time,
                        read: Option<seq<Hex.byte>>) returns (r: Result<TokenPair, SessionError>)
    requires store.Valid()
    requires read.Some? ==> |read.value| == TokenIdBytes
    modifies store
    ensures store.Valid()
    ensures Step(r, store.sessions) == Refresh(old(store.sessions), cfg, oldRefreshToken, userAgent, now, read)
  {
    var tokenHash := HashToken(oldRefreshToken);
    var found := tokenHash in store.sessions;
    if !found {
      return Failure(InvalidOrExpiredRefreshToken);
    }
    var token := cfg.refreshTokenAuth.decode(oldRefreshToken);
    if token.None? {
      store.RevokeSession(tokenHash);
      return Failure(InvalidRefreshToken);
    }
    if UsernameClaim !in token.value {
      return Failure(InvalidTokenClaims);
    }
    var username := token.value[UsernameClaim];
    store.RevokeSession(tokenHash);
    if !username.Text? {
      return Failure(UsernameNotString);
    }
    r := CreateSession(store, cfg, username.text, userAgent, now, read);
  }
}

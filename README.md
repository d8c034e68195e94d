# Session and credential engine of the deployment agent's `auth` package

This project is a Dafny model of the authentication core of the deployment agent, with proofs about it. It covers two parts:

- **The session store** (auth/service.go). It is an in-memory map from a key to a `Session` record: username, key, created-at, last-used-at and user agent. Login mints an access/refresh token pair and files one session (`CreateSession`). Refresh rotates the pair: it looks up the presented token, decodes it, revokes its session and creates a new one (`RefreshSession`). Sessions can be revoked one at a time or all at once for a user. An hourly task sweeps out sessions older than the refresh-token duration.
- **The credential store** (auth/users.go). It maps a username to a `User` with a bcrypt hash. It is seeded with the administrator at startup (`InitializeUsers`). It checks logins (`ValidateCredentials`) and registers further users (`AddUser`).

Layout, one module per file:

- `results.dfy` (`Results`): `Option`, `Result` and `Outcome`, standing for Go's `(value, error)` and `error` returns.
- `gotime.dfy` (`GoTime`): instants are integer nanoseconds. `Duration` is the int64 range. `Sub` saturates the way Go's `Time.Sub` does. `Unix` rounds down to seconds.
- `hex.dfy` (`HexEncoding`): `hex.EncodeToString` and its inverse.
- `tokens.dfy` (`Tokens`): the claim sets, the expiry arithmetic, the random token id, and the configuration that `Initialize` sets up.
- `sessions.dfy` (`Sessions`): the session map, the pure operations on it (`Create`, `Refresh`, `Revoke`, `RevokeUser`, `Sweep`), the `SessionStore` class whose methods perform them in place, and the `CreateSession`/`RefreshSession` methods.
- `users.dfy` (`Users`): the `UserStore` class.

Each in-place method is proved to leave exactly the map that the matching pure function describes. The properties of the store are proved about those functions.

Foreign pieces are parameters:

- The two `jwtauth` instances are `Signer` values, each holding an encode function and a decode function. `RoundTrips` states that a signer decodes what it encoded. Lemmas that need this property take it as a precondition.
- bcrypt is a `Bcrypt` value, holding a generate function and a compare function. `Sound` states that a generated hash matches its password.
- `crypto/rand.Read` becomes the bytes it delivered, or `None` when it failed.
- `time.Now()` becomes the instant `now`.
- `os.Getenv` becomes the values passed to `InitializeUsers`.

Four points about the code's behaviour that the model keeps:

- The session key is the raw refresh-token string, because `hashToken` is the identity.
- Nothing checks that the access duration is shorter than the refresh duration.
- A rotated session is created at the refresh time, so rotation resets the session's age.
- Sweeping uses a strict comparison: a session exactly as old as the refresh duration is kept.

## Model

| member | source | states |
|---|---|---|
| GoTime.Add | auth/service.go:91 | `Time.Add`: subtracting the start instant from the result gives the added duration back |
| GoTime.Sub | auth/service.go:229 | `Time.Sub`: the true difference when it fits in an int64, otherwise clamped to the largest or smallest Duration |
| GoTime.Unix | auth/service.go:95-96 | `Time.Unix`: the whole number of seconds at or before the instant |
| GoTime.SubExceedsIff | auth/service.go:229 | for a bound below the largest Duration, "elapsed > bound" is the same test on the true difference; at the largest Duration nothing exceeds it |
| HexEncoding.Encode | auth/service.go:257 | the encoding has two characters per byte, all lower-case hex digits, and bytes[i] becomes characters 2i and 2i+1 |
| HexEncoding.DecodeEncode | auth/service.go:257 | decoding the hex string gives back the original bytes |
| HexEncoding.EncodeInjective | auth/service.go:257 | different byte strings have different hex strings |
| Tokens.AccessClaims | auth/service.go:93-97 | the access-token claims are exactly username, exp and iat, the two times in Unix seconds, with no token id |
| Tokens.RefreshClaims | auth/service.go:117-122 | the refresh-token claims are the access-token ones plus the token id, so they never equal any access-token claim set |
| Tokens.GenerateRandomString | auth/service.go:252-258 | fails exactly when the random read fails; otherwise a string of 2·n lower-case hex digits that decodes to the n random bytes |
| Tokens.GenerateAccessToken | auth/service.go:90-105 | succeeds iff signing the claims succeeds; the expiry is now + access duration; a failure is the access-token error |
| Tokens.GenerateRefreshToken | auth/service.go:108-130 | a failed random read gives the token-id error; otherwise succeeds iff signing the claims with the fresh token id succeeds; the expiry is now + refresh duration |
| Tokens.AccessTokenClaims | auth/service.go:93-99 | with a round-tripping signer, the access token decodes to its username and its expiry in Unix seconds |
| Tokens.RefreshTokenClaims | auth/service.go:111-124 | with a round-tripping signer, the refresh token decodes to its username and the hex of its random bytes as token id |
| Tokens.DistinctEntropyDistinctTokens | auth/service.go:111-124 | with a round-tripping signer, refresh tokens minted from different random bytes are different strings |
| Sessions.Create | auth/service.go:133-159 | succeeds iff both tokens are minted, and a failure carries the error of the first token that failed; on success, inserts or replaces the entry under the new refresh token, which is the store key because `HashToken` (auth/service.go:245-249) is the identity; that entry has the given username and user agent and created-at = last-used-at = now; every other entry is unchanged; on failure the map is unchanged |
| Sessions.Revoke | auth/service.go:201-205 | the key is absent afterwards; every other key and its entry are kept |
| Sessions.RevokeIdempotent | auth/service.go:201-205 | revoking the same key twice is the same as revoking it once |
| Sessions.RevokeUser | auth/service.go:208-217 | afterwards no entry is owned by the user; every entry of any other user is kept unchanged |
| Sessions.RevokeUserBlocksRefresh | auth/service.go:208-217 | after revoking a user's sessions, refreshing any of that user's tokens fails with "invalid or expired" and changes nothing |
| Sessions.Expired | auth/service.go:229 | the sweep's test: for a duration below the largest Duration, the session is expired iff now − created-at > duration; at the largest Duration nothing is expired |
| Sessions.Sweep | auth/service.go:225-233 | keeps exactly the entries not older than the refresh duration (by Go's saturating `Sub`, strict >), with their values unchanged |
| Sessions.SweepCount | auth/service.go:225-233 | sweeping N sessions, K of them expired, leaves N − K |
| Sessions.SweepRemovesExactlyOlder | auth/service.go:229 | for a duration below the largest Duration, a session is removed iff now − created-at > duration, so one aged exactly the duration stays |
| Sessions.Refresh | auth/service.go:162-198 | an absent key fails and changes nothing; a token that does not decode fails and loses its key; a token with no username claim fails and keeps its key; a non-string username claim (a panic in the source) fails after the key is revoked; when minting the new pair fails, the error is the minting error and the old key is already revoked; on success the returned pair is what the two generators mint for the claimed username at `now`, the old key is gone (unless the new token equals it), and the new token's entry has the claimed username and is created now |
| Sessions.CreateKeepsOwners | auth/service.go:133-159 | with a round-tripping signer, creating a session keeps the invariant that every key decodes to claims naming its entry's owner |
| Sessions.RemovalsKeepOwners | auth/service.go:201-233 | revoking one key, revoking a user's sessions and sweeping keep that owner invariant |
| Sessions.RefreshKeepsOwners | auth/service.go:162-198 | with a round-tripping signer, a refresh keeps that owner invariant |
| Sessions.RotationKeepsOwner | auth/service.go:183-192 | under the owner invariant, the session a refresh creates belongs to the same user as the session it replaces |
| Sessions.RotationReplacesToken | auth/service.go:188-197 | with a round-tripping signer and a new token id, a successful refresh issues a different token and removes the old key |
| Sessions.ReplayAfterRotationFails | auth/service.go:163-172 | re-presenting a token after its rotation fails with "invalid or expired" and leaves the store unchanged |
| Sessions.RotationResetsAge | auth/service.go:146-151 | the session a refresh creates at `now` survives a later sweep exactly when no more than the refresh duration has passed since `now` |
| Sessions.SessionStore.constructor | auth/service.go:40-42 | the store starts empty |
| Sessions.SessionStore.RevokeSession | auth/service.go:201-205 | deletes the key in place, leaving the map `Revoke` describes, with keys still matching their entries; the count drops by one iff the key was present |
| Sessions.SessionStore.RevokeAllUserSessions | auth/service.go:208-217 | the loop deletes entries in place and leaves the map `RevokeUser` describes |
| Sessions.SessionStore.CleanupExpiredSessions | auth/service.go:225-233 | one pass of the cleanup loop deletes entries in place and leaves the map `Sweep` describes; the count drops by the number of expired sessions |
| Sessions.SessionStore.GetSessionCount | auth/service.go:238-242 | the number of keys in the map |
| Sessions.CreateSession | auth/service.go:133-159 | returns and stores exactly what `Create` describes; on success the count rises by one when the new token was not already a key, and stays the same otherwise |
| Sessions.RefreshSession | auth/service.go:162-198 | the look-up, decode, revoke and create sequence returns and stores exactly what `Refresh` describes |
| Users.Utf8Length | auth/users.go:34 | Go's byte length of a string: between 1 and 4 bytes per character, and equal to the character count for ASCII |
| Users.CheckAdminConfig | auth/users.go:23-36 | passes iff the username is non-empty, the password is non-empty and at least 8 bytes long; otherwise the error of the first check that fails, in that order |
| Users.AsciiPasswordBoundary | auth/users.go:33-36 | with a non-empty username and an ASCII password, the check passes iff the password has at least 8 characters |
| Users.UserStore.constructor | auth/users.go:18 | the user map starts empty |
| Users.UserStore.InitializeUsers | auth/users.go:21-52 | a failed check or a failed hash returns its error and leaves the map unchanged; on success the admin name maps to a `User` with that name and the new hash, replacing any earlier entry; with a sound bcrypt the admin can then log in |
| Users.UserStore.ValidateCredentials | auth/users.go:55-68 | succeeds iff the user exists and the stored hash matches the password; every failure, unknown user or wrong password, is the same "invalid credentials" error |
| Users.UserStore.AddUser | auth/users.go:71-89 | an existing name fails with "user already exists" and changes nothing; otherwise, if hashing succeeds, inserts exactly that key, the user count goes up by one, and with a sound bcrypt the user can log in |
| Users.UserStore.GetUserCount | auth/users.go:92-94 | the number of registered users |
| Users.UserStore.UserExists | auth/users.go:97-100 | true iff the name is a key of the map; that entry then carries the same name |

## Left out

- Locking: the `sync.RWMutex` discipline is not modelled. The store is modelled sequentially. The gap in `RefreshSession` between the look-up and the later revoke (the lock is released and taken again) is therefore not modelled.
- The hourly ticker goroutine: `cleanupExpiredSessions` is modelled as a single sweep pass (`CleanupExpiredSessions`), run at a given instant.
- `Initialize`: reading environment variables, the default secrets, `time.ParseDuration` and starting the goroutine are left out. The two durations and the two signers are the fields of `Config`.
- JWT signing, parsing, signature checks and expiry checks belong to the `jwtauth` library. They are the functions inside a `Signer`. Whether `Decode` checks expiry is therefore not modelled.
- bcrypt: the hash and compare functions are supplied. The cost factor and bcrypt's own limits (the password length it accepts, for example) show up only as a possible hash failure.
- `crypto/rand.Read` and `time.Now` are parameters. A refresh token id has a fixed 32 bytes, so a negative length (a panic in Go) cannot occur.
- Sessions.Create: the source reads the clock separately for created-at and for last-used-at, and again inside each token generator. The model uses one instant `now` for all of them, so it does not capture nanoseconds elapsing between the reads.
- Instants are unbounded integers, so the overflow behaviour of `Time.Add` for instants centuries away is not modelled.
- Users.Utf8Length: Go strings are bytes, but the model's strings are sequences of Unicode scalar values. A username or password that is not valid UTF-8 cannot be expressed.
- Logging, the startup warnings and `log.Printf`.
- The HTTP handlers, cookies and the request guard in handlers/auth.go and middleware/auth.go. This includes `Logout`, which does not revoke any session.
- All Docker, registry and project code outside the `auth` package.

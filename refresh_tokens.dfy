/** `RefreshTokenService`: issue, check, revoke and clean up refresh tokens.
    The clock and the random token string are parameters; the user table and
    the access-token signer are passed in by the caller. */
module RefreshTokens {
  import opened Common
  import opened TokenTable
  import opened Users

  const SecondsPerDay := 24 * 60 * 60
  const DefaultExpirationDays := 7
  const ExpiredMessage := "Refresh token was expired. Please make a new signin request"
  const TokenNotFoundMessage := "Refresh token not found"
  const UserNotFoundMessage := "User not found"
  const BearerType := "Bearer"

  /** The body `refreshAccessToken` answers with. */
  datatype AccessGrant = AccessGrant(accessToken: string, tokenType: string)

  /** The token `createRefreshToken` stores for `username` at `now`. */
  function NewRefreshToken(token: string, username: string, now: int, days: int): RefreshToken {
    RefreshToken(token, username, now + days * SecondsPerDay, now, false)
  }

  /** The table after `createRefreshToken`: the user's older tokens
      revoked, and the new token stored under its own string. */
  function Issued(tokens: map<string, RefreshToken>, username: string, token: string, now: int, days: int): map<string, RefreshToken> {
    RevokeByUsername(tokens, username)[token := NewRefreshToken(token, username, now, days)]
  }

  class RefreshTokenService {
    var tokens: map<string, RefreshToken>
    const expirationDays: int

    ghost predicate Valid()
      reads this
    {
      Keyed(tokens)
    }

    /** An empty table; `days` is the configured expiration, seven by default. */
    constructor(days: int)
      ensures Valid()
      ensures tokens == map[] && expirationDays == days
    {
      tokens := map[];
      expirationDays := days;
    }

    /** Revokes every token the user holds, then stores one new unrevoked
        token that expires `expirationDays` days after `now`. `newToken`
        stands for the random UUID and is new to the table. */
    method CreateRefreshToken(username: string, newToken: string, now: int) returns (t: RefreshToken)
      requires Valid()
      requires newToken !in tokens
      modifies this
      ensures Valid()
      ensures t == NewRefreshToken(newToken, username, now, expirationDays)
      ensures t.expiryDate == now + expirationDays * SecondsPerDay && t.createdAt == now && !t.revoked
      ensures tokens == Issued(old(tokens), username, newToken, now, expirationDays)
      ensures forall k :: k in tokens && tokens[k].username == username && k != newToken ==> tokens[k].revoked
    {
      QueriesKeepKeys(tokens, username, now);
      tokens := RevokeByUsername(tokens, username);
      t := NewRefreshToken(newToken, username, now, expirationDays);
      tokens := tokens[newToken := t];
    }

    /** The row stored under `token`, if any. */
    function FindByToken(token: string): (r: Option<RefreshToken>)
      reads this
      ensures r.Some? <==> token in tokens
      ensures r.Some? ==> r.value == tokens[token]
    {
      TokenTable.FindByToken(tokens, token)
    }

    /** Passes an unexpired token through and refuses an expired one. The
        delete of the expired row is undone when the failure leaves the
        transactional service, so the table is left as it was. */
    method VerifyExpiration(t: RefreshToken, now: int) returns (r: Result<RefreshToken, string>)
      ensures r.Ok? <==> !IsExpired(t, now)
      ensures r.Ok? ==> r.value == t
      ensures r.Err? ==> r.error == ExpiredMessage
    {
      if t.expiryDate < now {
        r := Err(ExpiredMessage);
      } else {
        r := Ok(t);
      }
    }

    /** Marks the matching token revoked; an unknown token changes nothing. */
    method RevokeToken(token: string)
      requires Valid()
      modifies this
      ensures Valid()
      ensures tokens.Keys == old(tokens).Keys
      ensures token in old(tokens) ==> tokens == old(tokens)[token := old(tokens)[token].(revoked := true)]
      ensures token !in old(tokens) ==> tokens == old(tokens)
    {
      var found := FindByToken(token);
      if found.Some? {
        tokens := tokens[token := found.value.(revoked := true)];
      }
    }

    /** Revokes every token the user holds. */
    method RevokeAllTokensForUser(username: string)
      requires Valid()
      modifies this
      ensures Valid()
      ensures tokens == RevokeByUsername(old(tokens), username)
    {
      QueriesKeepKeys(tokens, username, 0);
      tokens := RevokeByUsername(tokens, username);
    }

    /** A new access token for the owner of a known, unexpired refresh
        token whose user still exists. The `revoked` flag is never looked
        at, and no new refresh token is issued. `sign` stands for the JWT
        signer applied to the username and its role claim. */
    method RefreshAccessToken(token: string, users: map<string, User>, now: int,
                              sign: (string, string) -> string)
      returns (r: Result<AccessGrant, string>)
      ensures token !in tokens ==> r == Err(TokenNotFoundMessage)
      ensures token in tokens && IsExpired(tokens[token], now) ==> r == Err(ExpiredMessage)
      ensures token in tokens && !IsExpired(tokens[token], now) && tokens[token].username !in users ==>
                r == Err(UserNotFoundMessage)
      ensures r.Ok? <==> token in tokens && !IsExpired(tokens[token], now) && tokens[token].username in users
      ensures r.Ok? ==>
                var u := users[tokens[token].username];
                r.value == AccessGrant(sign(u.username, u.role), BearerType)
    {
      var found := FindByToken(token);
      if found.None? {
        return Err(TokenNotFoundMessage);
      }
      var checked := VerifyExpiration(found.value, now);
      if checked.Err? {
        return Err(checked.error);
      }
      var owner := found.value.username;
      if owner !in users {
        return Err(UserNotFoundMessage);
      }
      var user := users[owner];
      r := Ok(AccessGrant(sign(user.username, user.role), BearerType));
    }

    /** The hourly job: drops exactly the tokens expired at `now`. */
    method CleanupExpiredTokens(now: int)
      requires Valid()
      modifies this
      ensures Valid()
      ensures tokens == DeleteExpiredTokens(old(tokens), now)
    {
      QueriesKeepKeys(tokens, "", now);
      tokens := DeleteExpiredTokens(tokens, now);
    }
  }
}

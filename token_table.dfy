/** The refresh-token table and the queries `RefreshTokenRepository`
    declares. Rows are keyed by their token string. */
module TokenTable {
  import opened Common

  /** A refresh-token row; instants are whole seconds. */
  datatype RefreshToken = RefreshToken(token: string, username: string, expiryDate: int, createdAt: int, revoked: bool)

  /** Every row sits under its own token string. */
  predicate Keyed(table: map<string, RefreshToken>) {
    forall t :: t in table ==> table[t].token == t
  }

  /** `expiryDate < now`, strictly: a token expiring right now still passes. */
  predicate IsExpired(t: RefreshToken, now: int) {
    t.expiryDate < now
  }

  /** `findByToken`. */
  function FindByToken(table: map<string, RefreshToken>, token: string): (r: Option<RefreshToken>)
    ensures r.Some? <==> token in table
    ensures r.Some? ==> r.value == table[token]
  {
    if token in table then Some(table[token]) else None
  }

  /** `deleteByUsername`: every token of that user goes, no other. */
  function DeleteByUsername(table: map<string, RefreshToken>, username: string): (r: map<string, RefreshToken>)
    ensures forall t :: t in r <==> t in table && table[t].username != username
    ensures forall t :: t in r ==> r[t] == table[t]
  {
    map t | t in table && table[t].username != username :: table[t]
  }

  /** `deleteExpiredTokens`: exactly the tokens expired at `now` go. */
  function DeleteExpiredTokens(table: map<string, RefreshToken>, now: int): (r: map<string, RefreshToken>)
    ensures forall t :: t in r <==> t in table && !IsExpired(table[t], now)
    ensures forall t :: t in r ==> r[t] == table[t]
  {
    map t | t in table && !IsExpired(table[t], now) :: table[t]
  }

  /** `revokeByUsername`: every token of that user is marked revoked; no
      row appears or disappears and nothing else changes. */
  function RevokeByUsername(table: map<string, RefreshToken>, username: string): (r: map<string, RefreshToken>)
    ensures r.Keys == table.Keys
    ensures forall t :: t in table && table[t].username == username ==> r[t] == table[t].(revoked := true)
    ensures forall t :: t in table && table[t].username != username ==> r[t] == table[t]
  {
    map t | t in table :: if table[t].username == username then table[t].(revoked := true) else table[t]
  }

  /** Revoking a user's tokens twice is revoking them once. */
  lemma RevokeByUsernameIdempotent(table: map<string, RefreshToken>, username: string)
    ensures RevokeByUsername(RevokeByUsername(table, username), username) == RevokeByUsername(table, username)
  {
    var once := RevokeByUsername(table, username);
    var twice := RevokeByUsername(once, username);
    assert forall t :: t in twice ==> twice[t] == once[t];
  }

  /** After cleanup at `now` no expired token is left, and a second cleanup
      at the same instant removes nothing more. */
  lemma CleanupIsComplete(table: map<string, RefreshToken>, now: int)
    ensures forall t :: t in DeleteExpiredTokens(table, now) ==> !IsExpired(DeleteExpiredTokens(table, now)[t], now)
    ensures DeleteExpiredTokens(DeleteExpiredTokens(table, now), now) == DeleteExpiredTokens(table, now)
  {
  }

  /** The queries keep every row under its own token. */
  lemma QueriesKeepKeys(table: map<string, RefreshToken>, username: string, now: int)
    requires Keyed(table)
    ensures Keyed(DeleteByUsername(table, username))
    ensures Keyed(DeleteExpiredTokens(table, now))
    ensures Keyed(RevokeByUsername(table, username))
  {
  }
}

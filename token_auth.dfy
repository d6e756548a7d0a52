/**
 * Issuing, verifying and revoking tokens over the `tokens` table
 * (apps/server/src/lib/auth.ts). JWT signing and verification are not
 * modelled: they are the two functions of a `Jwt` value.
 */
module TokenAuth {
  import opened Wrappers
  import opened Schema

  /** The JWT payload: `sub`, `role`, and `exp`/`iat` in whole seconds. */
  datatype Claims = Claims(sub: string, role: string, exp: int, iat: int)

  /**
   * `sign(payload, JWT_SECRET)` and `verify(token, JWT_SECRET)` at a clock
   * reading in milliseconds; `verify` is `None` where it throws (a bad
   * signature or an expired `exp`).
   */
  datatype Jwt = Jwt(sign: Claims -> string, verify: (string, int) -> Option<Claims>)

  const AccessKind := "access"
  const RefreshKind := "refresh"
  const ResetKind := "password_reset"

  /** 15 minutes, and 30 days of 24 hours, in milliseconds. */
  const AccessLifetime := 15 * 60 * 1000
  const RefreshLifetime := 30 * 24 * 60 * 60 * 1000

  /** `Math.floor(ms / 1000)`; Dafny's division by a positive divisor is floor division. */
  function Seconds(ms: int): int {
    ms / 1000
  }

  /** The payload signed for a token that expires at `expiresAt`, issued at `now`. */
  function ClaimsFor(userId: string, role: string, expiresAt: int, now: int): (c: Claims)
    ensures c.sub == userId && c.role == role
    ensures c.exp * 1000 <= expiresAt < c.exp * 1000 + 1000
  {
    Claims(userId, role, Seconds(expiresAt), Seconds(now))
  }

  /**
   * The row `generate*Token` inserts for `userId` at `now`: its token is the
   * signed payload, its expiry `lifetime` milliseconds later, not revoked.
   */
  function Issued(jwt: Jwt, userId: string, role: string, kind: string, lifetime: int, now: int): (row: TokenRow)
    ensures row.userId == userId && row.kind == kind && row.expiresAt == now + lifetime
    ensures !row.revoked && row.revokedAt.None? && row.createdAt == now
    ensures row.token == jwt.sign(Claims(userId, role, Seconds(now + lifetime), Seconds(now)))
  {
    var expiresAt := now + lifetime;
    TokenRow(userId, jwt.sign(ClaimsFor(userId, role, expiresAt, now)), kind, expiresAt, false, None, now)
  }

  function AccessRow(jwt: Jwt, userId: string, role: string, now: int): TokenRow {
    Issued(jwt, userId, role, AccessKind, AccessLifetime, now)
  }

  function RefreshRow(jwt: Jwt, userId: string, role: string, now: int): TokenRow {
    Issued(jwt, userId, role, RefreshKind, RefreshLifetime, now)
  }

  /** `generateAccessToken` and `generateRefreshToken`, which differ only in type and lifetime; `None` is a refused insert. */
  method GenerateToken(db: Database, jwt: Jwt, userId: string, role: string, kind: string, lifetime: int, now: int)
    returns (r: Option<string>)
    requires db.Valid()
    modifies db
    ensures db.Valid() && db.users == old(db.users)
    ensures var row := Issued(jwt, userId, role, kind, lifetime, now);
      && (r.Some? <==> !TokenTaken(old(db.tokens), row.token) && userId in old(db.users))
      && (r.Some? ==> r.value == row.token && db.tokens == old(db.tokens) + [row])
      && (r.None? ==> db.tokens == old(db.tokens))
  {
    var row := Issued(jwt, userId, role, kind, lifetime, now);
    var ok := db.InsertToken(row);
    r := if ok then Some(row.token) else None;
  }

  /** `generateAccessToken`: one `access` row expiring 15 minutes after `now`. */
  method GenerateAccessToken(db: Database, jwt: Jwt, userId: string, role: string, now: int)
    returns (r: Option<string>)
    requires db.Valid()
    modifies db
    ensures db.Valid() && db.users == old(db.users)
    ensures var row := AccessRow(jwt, userId, role, now);
      && (r.Some? <==> !TokenTaken(old(db.tokens), row.token) && userId in old(db.users))
      && (r.Some? ==> r.value == row.token && db.tokens == old(db.tokens) + [row])
      && (r.None? ==> db.tokens == old(db.tokens))
  {
    r := GenerateToken(db, jwt, userId, role, AccessKind, AccessLifetime, now);
  }

  /** `generateRefreshToken`: one `refresh` row expiring 30 days after `now`. */
  method GenerateRefreshToken(db: Database, jwt: Jwt, userId: string, role: string, now: int)
    returns (r: Option<string>)
    requires db.Valid()
    modifies db
    ensures db.Valid() && db.users == old(db.users)
    ensures var row := RefreshRow(jwt, userId, role, now);
      && (r.Some? <==> !TokenTaken(old(db.tokens), row.token) && userId in old(db.users))
      && (r.Some? ==> r.value == row.token && db.tokens == old(db.tokens) + [row])
      && (r.None? ==> db.tokens == old(db.tokens))
  {
    r := GenerateToken(db, jwt, userId, role, RefreshKind, RefreshLifetime, now);
  }

  /**
   * Two issues of the same type for the same user and role within one clock
   * second sign the same payload, hence the same token string: the second
   * insert breaks the unique constraint on `tokens.token`.
   */
  lemma SameSecondIssueCollides(jwt: Jwt, userId: string, role: string, kind: string, lifetime: int,
                                t1: int, t2: int, tokens: seq<TokenRow>)
    requires lifetime % 1000 == 0 && Seconds(t1) == Seconds(t2)
    requires Issued(jwt, userId, role, kind, lifetime, t1) in tokens
    ensures TokenTaken(tokens, Issued(jwt, userId, role, kind, lifetime, t2).token)
  {
    assert Seconds(t1 + lifetime) == Seconds(t1) + lifetime / 1000;
    assert Seconds(t2 + lifetime) == Seconds(t2) + lifetime / 1000;
    var i :| 0 <= i < |tokens| && tokens[i] == Issued(jwt, userId, role, kind, lifetime, t1);
    assert tokens[i].token == Issued(jwt, userId, role, kind, lifetime, t2).token;
  }

  /** `select ... where token = ? limit 1`: the first row holding the string. */
  function FindToken(tokens: seq<TokenRow>, token: string): (r: Option<nat>)
    ensures r.None? <==> !TokenTaken(tokens, token)
    ensures r.Some? ==> r.value < |tokens| && tokens[r.value].token == token &&
                        forall j | 0 <= j < r.value :: tokens[j].token != token
  {
    if |tokens| == 0 then None
    else if tokens[0].token == token then Some(0)
    else
      var rest := FindToken(tokens[1..], token);
      if rest.Some? then Some(rest.value + 1) else None
  }

  /** `verifyToken`: the payload's `sub`, if the signature holds and the row is present, not revoked and not expired. */
  function VerifyToken(tokens: seq<TokenRow>, jwt: Jwt, token: string, now: int): (r: Option<string>)
    ensures r.Some? <==>
      jwt.verify(token, now).Some? &&
      exists i | 0 <= i < |tokens| :: FindToken(tokens, token) == Some(i) && !tokens[i].revoked && !(tokens[i].expiresAt < now)
    ensures r.Some? ==> r.value == jwt.verify(token, now).value.sub
  {
    match jwt.verify(token, now)
    case None => None
    case Some(claims) =>
      match FindToken(tokens, token)
      case None => None
      case Some(i) =>
        if tokens[i].revoked || tokens[i].expiresAt < now then None else Some(claims.sub)
  }

  /** The row as `set({ revoked: true, revokedAt: now })` leaves it. */
  function RevokeRow(row: TokenRow, now: int): TokenRow {
    row.(revoked := true, revokedAt := Some(now))
  }

  /** `revokeToken`: every row holding `token` is revoked; no other row changes. */
  function RevokeToken(tokens: seq<TokenRow>, token: string, now: int): (r: seq<TokenRow>)
    ensures |r| == |tokens|
    ensures forall i | 0 <= i < |r| :: r[i] == (if tokens[i].token == token then RevokeRow(tokens[i], now) else tokens[i])
  {
    seq(|tokens|, i requires 0 <= i < |tokens| =>
      if tokens[i].token == token then RevokeRow(tokens[i], now) else tokens[i])
  }

  /** `revokeAllUserTokens`: every row of user `userId` is revoked; no other row changes. */
  function RevokeAllUserTokens(tokens: seq<TokenRow>, userId: string, now: int): (r: seq<TokenRow>)
    ensures |r| == |tokens|
    ensures forall i | 0 <= i < |r| :: r[i] == (if tokens[i].userId == userId then RevokeRow(tokens[i], now) else tokens[i])
  {
    seq(|tokens|, i requires 0 <= i < |tokens| =>
      if tokens[i].userId == userId then RevokeRow(tokens[i], now) else tokens[i])
  }

  /** The `tokens` update of `revokeToken`, in place. */
  method RevokeTokenIn(db: Database, token: string, now: int)
    requires db.Valid()
    modifies db
    ensures db.Valid() && db.users == old(db.users)
    ensures db.tokens == RevokeToken(old(db.tokens), token, now)
  {
    db.tokens := RevokeToken(db.tokens, token, now);
  }

  /** The `tokens` update of `revokeAllUserTokens`, in place. */
  method RevokeAllUserTokensIn(db: Database, userId: string, now: int)
    requires db.Valid()
    modifies db
    ensures db.Valid() && db.users == old(db.users)
    ensures db.tokens == RevokeAllUserTokens(old(db.tokens), userId, now)
  {
    db.tokens := RevokeAllUserTokens(db.tokens, userId, now);
  }

  /** Once revoked, a token no longer verifies, at any later or earlier time. */
  lemma RevokedTokenFailsVerification(tokens: seq<TokenRow>, jwt: Jwt, token: string, now: int, later: int)
    ensures VerifyToken(RevokeToken(tokens, token, now), jwt, token, later).None?
  {
    var r := RevokeToken(tokens, token, now);
    if i :| 0 <= i < |r| && FindToken(r, token) == Some(i) {
      assert r[i].revoked;
    }
  }

  /** After revoking all of a user's tokens, none of that user's rows can pass verification. */
  lemma RevokedUserTokensFailVerification(tokens: seq<TokenRow>, jwt: Jwt, userId: string, now: int, later: int, i: nat)
    requires UniqueTokens(tokens)
    requires i < |tokens| && tokens[i].userId == userId
    ensures VerifyToken(RevokeAllUserTokens(tokens, userId, now), jwt, tokens[i].token, later).None?
  {
    var r := RevokeAllUserTokens(tokens, userId, now);
    var t := tokens[i].token;
    assert r[i].token == t;
    var k := FindToken(r, t).value;
    assert tokens[k].token == t;
    assert k == i;
    assert r[i].revoked;
  }

  /** Revocation is idempotent on the revoked flags; only `revokedAt` moves to the second time. */
  lemma RevokeIdempotent(tokens: seq<TokenRow>, token: string, t1: int, t2: int)
    ensures var once := RevokeToken(tokens, token, t1);
            var twice := RevokeToken(once, token, t2);
            && |twice| == |once|
            && (forall i | 0 <= i < |once| :: twice[i].revoked == once[i].revoked)
            && twice == RevokeToken(tokens, token, t2)
  {
  }

  /** Verification does not look at a row's type: access, refresh and reset rows are accepted alike. */
  lemma VerificationIgnoresKind(tokens: seq<TokenRow>, jwt: Jwt, i: nat, kind: string, now: int)
    requires i < |tokens|
    ensures VerifyToken(tokens[i := tokens[i].(kind := kind)], jwt, tokens[i].token, now) ==
            VerifyToken(tokens, jwt, tokens[i].token, now)
  {
    var t := tokens[i].token;
    var changed := tokens[i := tokens[i].(kind := kind)];
    FindTokenIgnoresKind(tokens, i, kind, t);
  }

  lemma {:induction false} FindTokenIgnoresKind(tokens: seq<TokenRow>, i: nat, kind: string, t: string)
    requires i < |tokens|
    ensures FindToken(tokens[i := tokens[i].(kind := kind)], t) == FindToken(tokens, t)
  {
    if i > 0 {
      assert tokens[i := tokens[i].(kind := kind)][1..] == tokens[1..][i - 1 := tokens[i].(kind := kind)];
      FindTokenIgnoresKind(tokens[1..], i - 1, kind, t);
    }
  }

  /**
   * A freshly issued token verifies, for its owner, until the row's expiry,
   * provided the JWT library accepts its own signature at that time.
   */
  lemma IssuedTokenVerifies(tokens: seq<TokenRow>, jwt: Jwt, userId: string, role: string,
                            kind: string, lifetime: int, now: int, t: int)
    requires var row := Issued(jwt, userId, role, kind, lifetime, now);
             !TokenTaken(tokens, row.token) && jwt.verify(row.token, t) == Some(ClaimsFor(userId, role, now + lifetime, now))
    requires t <= now + lifetime
    ensures var row := Issued(jwt, userId, role, kind, lifetime, now);
            VerifyToken(tokens + [row], jwt, row.token, t) == Some(userId)
  {
    FindTokenAppend(tokens, Issued(jwt, userId, role, kind, lifetime, now));
  }

  lemma {:induction false} FindTokenAppend(tokens: seq<TokenRow>, row: TokenRow)
    requires !TokenTaken(tokens, row.token)
    ensures FindToken(tokens + [row], row.token) == Some(|tokens|)
  {
    if |tokens| > 0 {
      assert (tokens + [row])[1..] == tokens[1..] + [row];
      assert forall j | 0 <= j < |tokens[1..]| :: tokens[1..][j] == tokens[j + 1];
      FindTokenAppend(tokens[1..], row);
    }
  }
}

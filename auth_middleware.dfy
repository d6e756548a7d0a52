/** `authMiddleware` (apps/server/src/middleware/auth.ts): the Bearer-header guard. */
module AuthMiddleware {
  import opened Wrappers
  import opened Strings
  import opened Schema
  import opened TokenAuth
  import opened Responses
  import opened RequestContext

  /** The prefix both Bearer-header readers require. */
  const BearerPrefix := "Bearer "

  const NoTokenReply := Reply(401, Failure("No token provided", None))
  const InvalidTokenReply := Reply(401, Failure("Invalid or expired token", None))

  /** `authHeader.substring(7)` after the prefix test: the header without its first 7 characters. */
  function BearerToken(header: Option<string>): (r: Option<string>)
    ensures r.Some? <==> header.Some? && StartsWith(header.value, BearerPrefix)
    ensures r.Some? ==> header.value == BearerPrefix + r.value
  {
    if header.Some? && StartsWith(header.value, BearerPrefix) then
      assert header.value == header.value[..7] + header.value[7..];
      Some(header.value[7..])
    else None
  }

  /** A `userId` the guards accept: present and truthy, so not the empty string. */
  predicate TruthyId(id: Option<string>) {
    id.Some? && id.value != ""
  }

  /**
   * What the guard decides: the verified subject and the raw token, or the
   * 401 reply. The prefix test comes before verification.
   */
  function Authenticate(tokens: seq<TokenRow>, jwt: Jwt, header: Option<string>, now: int): (r: Result<(string, string), Reply>)
    ensures BearerToken(header).None? ==> r == Err(NoTokenReply)
    ensures BearerToken(header).Some? ==>
      var sub := VerifyToken(tokens, jwt, BearerToken(header).value, now);
      if TruthyId(sub) then r == Ok((sub.value, BearerToken(header).value)) else r == Err(InvalidTokenReply)
    ensures r.Ok? ==> header == Some(BearerPrefix + r.value.1) && r.value.0 != ""
  {
    match BearerToken(header)
    case None => Err(NoTokenReply)
    case Some(token) =>
      var sub := VerifyToken(tokens, jwt, token, now);
      if TruthyId(sub) then Ok((sub.value, token)) else Err(InvalidTokenReply)
  }

  /**
   * `authMiddleware`: on success sets `userId` and `token` and calls `next`
   * once (`reply` is `None`, the downstream handler answers); otherwise
   * answers 401 and touches nothing.
   */
  method Run(ctx: Context, tokens: seq<TokenRow>, jwt: Jwt, header: Option<string>, now: int) returns (reply: Option<Reply>)
    modifies ctx
    ensures var d := Authenticate(tokens, jwt, header, now);
      if d.Ok? then
        reply.None? && ctx.userId == Some(d.value.0) && ctx.token == Some(d.value.1) &&
        ctx.userRole == old(ctx.userRole) && ctx.nextCalls == old(ctx.nextCalls) + 1
      else
        reply == Some(d.error) && ctx.userId == old(ctx.userId) && ctx.token == old(ctx.token) &&
        ctx.userRole == old(ctx.userRole) && ctx.nextCalls == old(ctx.nextCalls)
  {
    var d := Authenticate(tokens, jwt, header, now);
    if d.Err? {
      return Some(d.error);
    }
    ctx.userId := Some(d.value.0);
    ctx.token := Some(d.value.1);
    ctx.nextCalls := ctx.nextCalls + 1;
    reply := None;
  }

  /** A revoked token never passes the guard, whatever the header and clock. */
  lemma RevokedTokenRejected(tokens: seq<TokenRow>, jwt: Jwt, token: string, revokedAt: int, now: int)
    ensures Authenticate(RevokeToken(tokens, token, revokedAt), jwt, Some(BearerPrefix + token), now) == Err(InvalidTokenReply)
  {
    assert StartsWith(BearerPrefix + token, BearerPrefix);
    assert (BearerPrefix + token)[7..] == token;
    RevokedTokenFailsVerification(tokens, jwt, token, revokedAt, now);
  }
}

/** `requireRole` and `requireAdmin` (apps/server/src/middleware/role.ts). */
module RoleGuard {
  import opened Wrappers
  import opened Schema
  import opened Responses
  import opened RequestContext
  import AuthMiddleware

  /** The members of `UserRole` (apps/server/src/types/user.ts). */
  const AdminRole := "admin"
  const StudentRole := "student"

  const UnauthorizedReply := Reply(401, Failure("Unauthorized", None))
  const MissingUserReply := Reply(404, Failure("User not found", None))
  const ForbiddenReply := Reply(403, Denied("Forbidden", "You don't have permission to access this resource"))

  /**
   * What `requireRole(...allowed)` decides, in its order: no `userId` (401)
   * before the lookup, a missing row (404) before the role test (403); on
   * success the stored role.
   */
  function Authorize(userId: Option<string>, users: Users, allowed: seq<string>): (r: Result<string, Reply>)
    ensures !AuthMiddleware.TruthyId(userId) ==> r == Err(UnauthorizedReply)
    ensures AuthMiddleware.TruthyId(userId) && userId.value !in users ==> r == Err(MissingUserReply)
    ensures AuthMiddleware.TruthyId(userId) && userId.value in users ==>
      if users[userId.value].role in allowed then r == Ok(users[userId.value].role) else r == Err(ForbiddenReply)
  {
    if !AuthMiddleware.TruthyId(userId) then Err(UnauthorizedReply)
    else if userId.value !in users then Err(MissingUserReply)
    else
      var role := users[userId.value].role;
      if role in allowed then Ok(role) else Err(ForbiddenReply)
  }

  /** `requireRole(...allowed)`: on success stores the role and calls `next` once. */
  method RequireRole(ctx: Context, users: Users, allowed: seq<string>) returns (reply: Option<Reply>)
    modifies ctx
    ensures ctx.userId == old(ctx.userId) && ctx.token == old(ctx.token)
    ensures var d := Authorize(old(ctx.userId), users, allowed);
      if d.Ok? then reply.None? && ctx.userRole == Some(d.value) && ctx.nextCalls == old(ctx.nextCalls) + 1
      else reply == Some(d.error) && ctx.userRole == old(ctx.userRole) && ctx.nextCalls == old(ctx.nextCalls)
  {
    var d := Authorize(ctx.userId, users, allowed);
    if d.Err? {
      return Some(d.error);
    }
    ctx.userRole := Some(d.value);
    ctx.nextCalls := ctx.nextCalls + 1;
    reply := None;
  }

  /** `requireAdmin`. */
  method RequireAdmin(ctx: Context, users: Users) returns (reply: Option<Reply>)
    modifies ctx
    ensures ctx.userId == old(ctx.userId) && ctx.token == old(ctx.token)
    ensures var d := Authorize(old(ctx.userId), users, [AdminRole]);
      if d.Ok? then reply.None? && ctx.userRole == Some(AdminRole) && ctx.nextCalls == old(ctx.nextCalls) + 1
      else reply == Some(d.error) && ctx.userRole == old(ctx.userRole) && ctx.nextCalls == old(ctx.nextCalls)
  {
    reply := RequireRole(ctx, users, [AdminRole]);
  }

  /** `requireAdmin` admits a request exactly when its user's stored role is the string `"admin"`. */
  lemma AdminGuardAdmitsExactlyAdmins(userId: Option<string>, users: Users)
    ensures Authorize(userId, users, [AdminRole]).Ok? <==>
            AuthMiddleware.TruthyId(userId) && userId.value in users && users[userId.value].role == "admin"
  {
  }

  /**
   * The database stores only `admin` and `user`, so a guard for `student`
   * alone admits no stored user: it answers 403 to everyone signed in.
   */
  lemma StudentGuardAdmitsNoStoredUser(userId: Option<string>, users: Users, tokens: seq<TokenRow>)
    requires Consistent(users, tokens)
    requires AuthMiddleware.TruthyId(userId) && userId.value in users
    ensures Authorize(userId, users, [StudentRole]) == Err(ForbiddenReply)
  {
    assert users[userId.value].role in DbRoles;
  }
}

/**
 * The handlers of apps/server/src/routes/auth.ts over the two tables. Each
 * handler reads the clock once (`now`); the outputs of the password hasher and
 * of `crypto.randomUUID` are parameters, and `c.req.json()` is `None` when the
 * body is not JSON (it throws, and the catch answers 500).
 */
module AuthRoutes {
  import opened Wrappers
  import opened Strings
  import opened Json
  import opened Schema
  import opened TokenAuth
  import opened Responses
  import opened AuthMiddleware

  /** One hour, the lifetime of a password reset token, in milliseconds. */
  const ResetLifetime := 60 * 60 * 1000

  const InvalidCredentialsReply := Reply(400, Failure("Invalid credentials", Some(InvalidCredentials)))
  const ForgotReply := Reply(200, Message("If the email exists, a reset link has been sent"))
  const InvalidResetReply := Reply(400, Failure("Invalid or expired reset token", Some(InvalidResetToken)))
  const RefreshRequiredReply := Reply(400, Failure("Refresh token required", Some(RefreshTokenRequired)))
  const InvalidRefreshReply := Reply(400, Failure("Invalid or expired refresh token", Some(InvalidRefreshToken)))
  const LogoutNoTokenReply := Reply(400, Failure("No token provided", None))

  datatype SignupInput = SignupInput(email: string, password: string, name: string)
  datatype LoginInput = LoginInput(email: string, password: string)
  datatype ResetInput = ResetInput(token: string, password: string)

  /** `registerSchema.parse`: an object with an email, a password of 8 or more characters and a non-empty name. */
  function ParseSignup(body: Json, isEmail: string -> bool): (r: Option<SignupInput>)
    ensures r.Some? <==>
      && body.JObj?
      && "email" in body.fields && body.fields["email"].JStr? && isEmail(body.fields["email"].s)
      && "password" in body.fields && body.fields["password"].JStr? && |body.fields["password"].s| >= 8
      && "name" in body.fields && body.fields["name"].JStr? && |body.fields["name"].s| >= 1
    ensures r.Some? ==>
      && body.fields["email"] == JStr(r.value.email)
      && body.fields["password"] == JStr(r.value.password)
      && body.fields["name"] == JStr(r.value.name)
  {
    if !body.JObj? then None
    else
      var email := EmailField(body.fields, "email", isEmail);
      var password := StringField(body.fields, "password", 8);
      var name := StringField(body.fields, "name", 1);
      if email.Some? && password.Some? && name.Some? then Some(SignupInput(email.value, password.value, name.value))
      else None
  }

  /** `loginSchema.parse`: an object with an email and a password string of any length. */
  function ParseLogin(body: Json, isEmail: string -> bool): (r: Option<LoginInput>)
    ensures r.Some? <==>
      && body.JObj?
      && "email" in body.fields && body.fields["email"].JStr? && isEmail(body.fields["email"].s)
      && "password" in body.fields && body.fields["password"].JStr?
    ensures r.Some? ==>
      body.fields["email"] == JStr(r.value.email) && body.fields["password"] == JStr(r.value.password)
  {
    if !body.JObj? then None
    else
      var email := EmailField(body.fields, "email", isEmail);
      var password := StringField(body.fields, "password", 0);
      if email.Some? && password.Some? then Some(LoginInput(email.value, password.value)) else None
  }

  /** `forgotPasswordSchema.parse`: an object with an email. */
  function ParseForgot(body: Json, isEmail: string -> bool): (r: Option<string>)
    ensures r.Some? <==> body.JObj? && "email" in body.fields && body.fields["email"].JStr? && isEmail(body.fields["email"].s)
    ensures r.Some? ==> body.fields["email"] == JStr(r.value)
  {
    if body.JObj? then EmailField(body.fields, "email", isEmail) else None
  }

  /** `resetPasswordSchema.parse`: an object with a token string and a password of 8 or more characters. */
  function ParseReset(body: Json): (r: Option<ResetInput>)
    ensures r.Some? <==>
      && body.JObj?
      && "token" in body.fields && body.fields["token"].JStr?
      && "password" in body.fields && body.fields["password"].JStr? && |body.fields["password"].s| >= 8
    ensures r.Some? ==>
      body.fields["token"] == JStr(r.value.token) && body.fields["password"] == JStr(r.value.password)
  {
    if !body.JObj? then None
    else
      var token := StringField(body.fields, "token", 0);
      var password := StringField(body.fields, "password", 8);
      if token.Some? && password.Some? then Some(ResetInput(token.value, password.value)) else None
  }

  /** The user fields signup and login return. */
  function SessionUser(id: string, row: UserRow): UserView {
    UserView(id, row.email, row.name, row.role, None, None)
  }

  /** The row signup inserts: the role is the column default, both timestamps `now`. */
  function NewUserRow(input: SignupInput, passwordHash: string, now: int): UserRow {
    UserRow(input.email, input.name, passwordHash, DefaultRole, now, now)
  }

  /**
   * The outcome of issuing the access and then the refresh token, both
   * unconditionally after the user row is in place: each insert is refused
   * on a token string already present, which answers `failure`.
   */
  ghost predicate IssuedPair(users: Users, tokens0: seq<TokenRow>, tokens: seq<TokenRow>, jwt: Jwt,
                             id: string, role: string, now: int, reply: Reply, failure: Reply,
                             success: (string, string) -> Reply)
  {
    var a := AccessRow(jwt, id, role, now);
    var r := RefreshRow(jwt, id, role, now);
    if TokenTaken(tokens0, a.token) then reply == failure && tokens == tokens0
    else if TokenTaken(tokens0 + [a], r.token) then reply == failure && tokens == tokens0 + [a]
    else reply == success(a.token, r.token) && tokens == tokens0 + [a, r]
  }

  method IssuePair(db: Database, jwt: Jwt, id: string, role: string, now: int, failure: Reply,
                   success: (string, string) -> Reply) returns (reply: Reply)
    requires db.Valid() && id in db.users
    modifies db
    ensures db.Valid() && db.users == old(db.users)
    ensures IssuedPair(db.users, old(db.tokens), db.tokens, jwt, id, role, now, reply, failure, success)
  {
    var access := GenerateAccessToken(db, jwt, id, role, now);
    if access.None? {
      return failure;
    }
    var refresh := GenerateRefreshToken(db, jwt, id, role, now);
    if refresh.None? {
      return failure;
    }
    reply := success(access.value, refresh.value);
  }

  /**
   * POST /signup. An email already registered answers 400 and writes nothing;
   * otherwise the user is inserted with the default role and a token pair is
   * issued. There is no transaction: a failed token insert leaves the user row
   * (and an access row) behind and answers 500.
   */
  method Signup(db: Database, jwt: Jwt, isEmail: string -> bool, body: Option<Json>,
                newId: string, passwordHash: string, now: int) returns (reply: Reply)
    requires db.Valid()
    modifies db
    ensures db.Valid()
    ensures body.None? ==> reply == ServerError && db.users == old(db.users) && db.tokens == old(db.tokens)
    ensures body.Some? && ParseSignup(body.value, isEmail).None? ==>
      reply == InvalidInputReply && db.users == old(db.users) && db.tokens == old(db.tokens)
    ensures body.Some? && ParseSignup(body.value, isEmail).Some? ==>
      var input := ParseSignup(body.value, isEmail).value;
      var row := NewUserRow(input, passwordHash, now);
      if EmailTaken(old(db.users), input.email, None) then
        reply == EmailTakenReply && db.users == old(db.users) && db.tokens == old(db.tokens)
      else if newId in old(db.users) || !FitsColumns(row) then
        reply == ServerError && db.users == old(db.users) && db.tokens == old(db.tokens)
      else
        db.users == old(db.users)[newId := row] &&
        IssuedPair(db.users, old(db.tokens), db.tokens, jwt, newId, DefaultRole, now, reply, ServerError,
                   (a, r) => Reply(200, Session(SessionUser(newId, row), a, r)))
  {
    if body.None? {
      return ServerError;
    }
    var input := ParseSignup(body.value, isEmail);
    if input.None? {
      return InvalidInputReply;
    }
    var existing := UserByEmail(db.users, input.value.email);
    if existing.Some? {
      return EmailTakenReply;
    }
    var row := NewUserRow(input.value, passwordHash, now);
    var ok := db.InsertUser(newId, row);
    if !ok {
      return ServerError;
    }
    reply := IssuePair(db, jwt, newId, DefaultRole, now, ServerError,
                       (a, r) => Reply(200, Session(SessionUser(newId, row), a, r)));
  }

  /**
   * POST /login. An unknown email and a wrong password give the same 400 reply
   * and write nothing; otherwise a token pair is issued for the stored role.
   */
  method Login(db: Database, jwt: Jwt, isEmail: string -> bool, passwordMatches: (string, string) -> bool,
               body: Option<Json>, now: int) returns (reply: Reply)
    requires db.Valid()
    modifies db
    ensures db.Valid() && db.users == old(db.users)
    ensures body.None? ==> reply == ServerError && db.tokens == old(db.tokens)
    ensures body.Some? && ParseLogin(body.value, isEmail).None? ==> reply == InvalidInputReply && db.tokens == old(db.tokens)
    ensures body.Some? && ParseLogin(body.value, isEmail).Some? ==>
      var input := ParseLogin(body.value, isEmail).value;
      var found := UserByEmail(old(db.users), input.email);
      if found.None? || !passwordMatches(input.password, old(db.users)[found.value].passwordHash) then
        reply == InvalidCredentialsReply && db.tokens == old(db.tokens)
      else
        var row := old(db.users)[found.value];
        IssuedPair(db.users, old(db.tokens), db.tokens, jwt, found.value, row.role, now, reply, ServerError,
                   (a, r) => Reply(200, Session(SessionUser(found.value, row), a, r)))
  {
    if body.None? {
      return ServerError;
    }
    var input := ParseLogin(body.value, isEmail);
    if input.None? {
      return InvalidInputReply;
    }
    var found := UserByEmail(db.users, input.value.email);
    if found.None? {
      return InvalidCredentialsReply;
    }
    var row := db.users[found.value];
    if !passwordMatches(input.value.password, row.passwordHash) {
      return InvalidCredentialsReply;
    }
    reply := IssuePair(db, jwt, found.value, row.role, now, ServerError,
                       (a, r) => Reply(200, Session(SessionUser(found.value, row), a, r)));
  }

  /** POST /logout: revokes the Bearer token, whether or not any row holds it. */
  method Logout(db: Database, header: Option<string>, now: int) returns (reply: Reply)
    requires db.Valid()
    modifies db
    ensures db.Valid() && db.users == old(db.users)
    ensures BearerToken(header).None? ==> reply == LogoutNoTokenReply && db.tokens == old(db.tokens)
    ensures BearerToken(header).Some? ==>
      reply == Reply(200, Message("Logged out successfully")) &&
      db.tokens == RevokeToken(old(db.tokens), BearerToken(header).value, now)
  {
    var token := BearerToken(header);
    if token.None? {
      return LogoutNoTokenReply;
    }
    RevokeTokenIn(db, token.value, now);
    reply := Reply(200, Message("Logged out successfully"));
  }

  /**
   * `verifyToken` on the `refreshToken` field as given: something other than a
   * string makes the JWT library throw inside `verifyToken`, which answers null.
   */
  function VerifyField(tokens: seq<TokenRow>, jwt: Jwt, field: Json, now: int): (r: Option<string>)
    ensures !field.JStr? ==> r.None?
    ensures field.JStr? ==> r == VerifyToken(tokens, jwt, field.s, now)
  {
    if field.JStr? then VerifyToken(tokens, jwt, field.s, now) else None
  }

  /**
   * POST /refresh. A missing or falsy `refreshToken` answers 400; one that does
   * not verify answers 400; a subject with no user row answers 404. Otherwise
   * (a falsy subject, the empty string, counts as
   * not verified) the presented token is revoked first and then a new pair is issued.
   */
  method Refresh(db: Database, jwt: Jwt, body: Option<Json>, now: int) returns (reply: Reply)
    requires db.Valid()
    modifies db
    ensures db.Valid() && db.users == old(db.users)
    ensures body.None? || body == Some(JNull) ==> reply == BareServerError && db.tokens == old(db.tokens)
    ensures body.Some? && body.value != JNull ==>
      var field := Member(body.value, "refreshToken");
      if field.None? || !Truthy(field.value) then
        reply == RefreshRequiredReply && db.tokens == old(db.tokens)
      else
        var sub := VerifyField(old(db.tokens), jwt, field.value, now);
        if !TruthyId(sub) then reply == InvalidRefreshReply && db.tokens == old(db.tokens)
        else if sub.value !in old(db.users) then reply == UserNotFoundReply && db.tokens == old(db.tokens)
        else
          IssuedPair(db.users, RevokeToken(old(db.tokens), field.value.s, now), db.tokens, jwt,
                     sub.value, old(db.users)[sub.value].role, now, reply, BareServerError,
                     (a, r) => Reply(200, TokenPair(a, r)))
  {
    if body.None? || body == Some(JNull) {
      return BareServerError;
    }
    var field := Member(body.value, "refreshToken");
    if field.None? || !Truthy(field.value) {
      return RefreshRequiredReply;
    }
    var sub := VerifyField(db.tokens, jwt, field.value, now);
    if !TruthyId(sub) {
      return InvalidRefreshReply;
    }
    if sub.value !in db.users {
      return UserNotFoundReply;
    }
    var role := db.users[sub.value].role;
    RevokeTokenIn(db, field.value.s, now);
    reply := IssuePair(db, jwt, sub.value, role, now, BareServerError, (a, r) => Reply(200, TokenPair(a, r)));
  }

  /** The row forgot-password inserts: a `password_reset` token valid for one hour. */
  function ResetRow(userId: string, token: string, now: int): TokenRow {
    TokenRow(userId, token, ResetKind, now + ResetLifetime, false, None, now)
  }

  /**
   * POST /forgot-password. The reply to a well-formed request is the same
   * whether or not the email is registered; only a registered one gets a
   * reset row, under the fresh token `resetToken`.
   */
  method ForgotPassword(db: Database, isEmail: string -> bool, body: Option<Json>, resetToken: string, now: int)
    returns (reply: Reply)
    requires db.Valid()
    modifies db
    ensures db.Valid() && db.users == old(db.users)
    ensures body.None? ==> reply == ServerError && db.tokens == old(db.tokens)
    ensures body.Some? && ParseForgot(body.value, isEmail).None? ==> reply == InvalidInputReply && db.tokens == old(db.tokens)
    ensures body.Some? && ParseForgot(body.value, isEmail).Some? ==>
      var found := UserByEmail(old(db.users), ParseForgot(body.value, isEmail).value);
      if found.None? then reply == ForgotReply && db.tokens == old(db.tokens)
      else if TokenTaken(old(db.tokens), resetToken) then reply == ServerError && db.tokens == old(db.tokens)
      else reply == ForgotReply && db.tokens == old(db.tokens) + [ResetRow(found.value, resetToken, now)]
  {
    if body.None? {
      return ServerError;
    }
    var email := ParseForgot(body.value, isEmail);
    if email.None? {
      return InvalidInputReply;
    }
    var found := UserByEmail(db.users, email.value);
    if found.None? {
      return ForgotReply;
    }
    var ok := db.InsertToken(ResetRow(found.value, resetToken, now));
    if !ok {
      return ServerError;
    }
    reply := ForgotReply;
  }

  /** The rows the reset query selects: the token, type `password_reset`, not revoked. */
  predicate IsResetRowFor(row: TokenRow, token: string) {
    row.token == token && row.kind == ResetKind && !row.revoked
  }

  /** The first row the reset query selects (`limit 1`). */
  function FindResetRow(tokens: seq<TokenRow>, token: string): (r: Option<nat>)
    ensures r.None? <==> forall i | 0 <= i < |tokens| :: !IsResetRowFor(tokens[i], token)
    ensures r.Some? ==> r.value < |tokens| && IsResetRowFor(tokens[r.value], token)
  {
    if |tokens| == 0 then None
    else if IsResetRowFor(tokens[0], token) then Some(0)
    else
      var rest := FindResetRow(tokens[1..], token);
      if rest.Some? then Some(rest.value + 1) else None
  }

  /** Revoking the selected reset row leaves no row the reset query can select for that token. */
  lemma ResetTokenSingleUse(tokens: seq<TokenRow>, token: string, i: nat, now: int)
    requires UniqueTokens(tokens) && FindResetRow(tokens, token) == Some(i)
    ensures FindResetRow(tokens[i := RevokeRow(tokens[i], now)], token).None?
  {
  }

  /**
   * POST /reset-password. Only a selected row that has not expired is
   * accepted; then the owner's password hash and `updatedAt` change and that
   * row is revoked, so the same token is refused from then on.
   */
  method ResetPassword(db: Database, body: Option<Json>, passwordHash: string, now: int) returns (reply: Reply)
    requires db.Valid()
    modifies db
    ensures db.Valid()
    ensures body.None? ==> reply == ServerError && db.users == old(db.users) && db.tokens == old(db.tokens)
    ensures body.Some? && ParseReset(body.value).None? ==>
      reply == InvalidInputReply && db.users == old(db.users) && db.tokens == old(db.tokens)
    ensures body.Some? && ParseReset(body.value).Some? ==>
      var token := ParseReset(body.value).value.token;
      var found := FindResetRow(old(db.tokens), token);
      if found.None? || old(db.tokens)[found.value].expiresAt < now then
        reply == InvalidResetReply && db.users == old(db.users) && db.tokens == old(db.tokens)
      else
        var i := found.value;
        var owner := old(db.tokens)[i].userId;
        && reply == Reply(200, Message("Password reset successfully"))
        && db.users == old(db.users)[owner := old(db.users)[owner].(passwordHash := passwordHash, updatedAt := now)]
        && db.tokens == old(db.tokens)[i := RevokeRow(old(db.tokens)[i], now)]
        && FindResetRow(db.tokens, token).None?
  {
    if body.None? {
      return ServerError;
    }
    var input := ParseReset(body.value);
    if input.None? {
      return InvalidInputReply;
    }
    var found := FindResetRow(db.tokens, input.value.token);
    if found.None? || db.tokens[found.value].expiresAt < now {
      return InvalidResetReply;
    }
    var i := found.value;
    var owner := db.tokens[i].userId;
    var row := db.users[owner].(passwordHash := passwordHash, updatedAt := now);
    var ok := db.UpdateUser(owner, row);
    assert ok;
    ResetTokenSingleUse(db.tokens, input.value.token, i, now);
    db.tokens := db.tokens[i := RevokeRow(db.tokens[i], now)];
    reply := Reply(200, Message("Password reset successfully"));
  }
}

/**
 * The admin users router (apps/server/src/routes/admin/users.ts): the guard
 * chain, the paginated list, and the single-user read, create, update and
 * delete handlers. Query execution of the list is abstract: `count` and
 * `select` are what the database answers for a plan, `None` when it fails.
 * Ids are compared against a `uuid` column, so a path id that is not a UUID
 * (`isUuid`) makes the query fail.
 */
module AdminUsers {
  import opened Wrappers
  import opened Strings
  import opened Records
  import opened Json
  import opened Pagination
  import opened SqlFilters
  import opened Schema
  import opened Responses
  import opened RequestContext
  import AuthMiddleware
  import RoleGuard
  import TokenAuth

  /** The column map handed to `buildFiltersCondition`. */
  const FilterColumns: map<string, Column> := map[
    "id" := UsersId, "email" := UsersEmail, "name" := UsersName,
    "role" := UsersRole, "createdAt" := UsersCreatedAt, "updatedAt" := UsersUpdatedAt]

  /** The column map the ORDER BY terms are looked up in. */
  const SortColumns: map<string, Column> := map[
    "id" := UsersId, "email" := UsersEmail, "name" := UsersName,
    "role" := UsersRole, "createdAt" := UsersCreatedAt, "updatedAt" := UsersUpdatedAt]

  datatype Direction = Asc | Desc
  datatype OrderTerm = OrderTerm(column: Column, direction: Direction)

  /** What the page query is built from; the count query uses only `where`. */
  datatype ListPlan = ListPlan(where: Option<Condition>, orderBy: seq<OrderTerm>, limit: int, offset: int)

  /** One sort item as an order term: an unknown id falls back to `createdAt`. */
  function SortTerm(item: SortingItem): (t: OrderTerm)
    ensures t.direction == (if item.desc then Desc else Asc)
    ensures item.id in SortColumns ==> t.column == SortColumns[item.id]
    ensures item.id !in SortColumns ==> t.column == UsersCreatedAt
  {
    OrderTerm(if item.id in SortColumns then SortColumns[item.id] else UsersCreatedAt,
              if item.desc then Desc else Asc)
  }

  /** `orderByClause`. */
  function OrderBy(sorting: seq<SortingItem>): (r: seq<OrderTerm>)
    ensures |sorting| == 0 ==> r == [OrderTerm(UsersCreatedAt, Desc)]
    ensures |sorting| > 0 ==> |r| == |sorting| && forall i | 0 <= i < |r| :: r[i] == SortTerm(sorting[i])
  {
    if |sorting| == 0 then [OrderTerm(UsersCreatedAt, Desc)]
    else seq(|sorting|, i requires 0 <= i < |sorting| => SortTerm(sorting[i]))
  }

  /** The plan of the list handler for a parsed query. */
  function PlanList(q: ParsedQuery): ListPlan {
    ListPlan(BuildFiltersCondition(q.filters, FilterColumns), OrderBy(q.sorting),
             q.pagination.limit, GetOffset(q.pagination.page, q.pagination.limit))
  }

  /**
   * Every order term of a non-empty sorting names one of the six listed
   * columns, in the sort's order and direction; an id outside the map, such
   * as `passwordHash`, sorts by `createdAt`.
   */
  lemma OrderFollowsSorting(sorting: seq<SortingItem>, i: nat)
    requires i < |sorting|
    ensures OrderBy(sorting)[i].direction == Desc <==> sorting[i].desc
    ensures OrderBy(sorting)[i].column in SortColumns.Values
    ensures sorting[i].id == "passwordHash" ==> OrderBy(sorting)[i].column == UsersCreatedAt
  {
    var t := OrderBy(sorting)[i];
    assert t == SortTerm(sorting[i]);
    assert SortColumns["createdAt"] == UsersCreatedAt;
  }

  /** A filter on `passwordHash` never reaches the WHERE clause. */
  lemma PasswordHashNotFilterable(before: Entries<string>, value: string, after: Entries<string>)
    ensures BuildFiltersCondition(before + [("passwordHash", value)] + after, FilterColumns) ==
            BuildFiltersCondition(before + after, FilterColumns)
  {
    UnknownKeyIgnored(before, "passwordHash", value, after, FilterColumns);
  }

  /** The name and email columns are textual: a filter on them is a case-insensitive substring match. */
  lemma TextColumnDispatch(value: string, column: Column)
    requires value != "" && column in {UsersName, UsersEmail}
    ensures BuildFilterCondition(value, column) == Some(ILike(column, "%" + value + "%"))
  {
    assert OccursAt("varchar(255)", "varchar", 0);
  }

  /** The id, role and timestamp columns are neither textual nor boolean: a filter on them is raw equality. */
  lemma ExactColumnDispatch(value: string, column: Column)
    requires value != "" && column in {UsersId, UsersRole, UsersCreatedAt, UsersUpdatedAt}
    ensures BuildFilterCondition(value, column) == Some(EqText(column, value))
  {
    assert column.sqlType in {"uuid", "user_role", "timestamp"};
    NeitherTextNorBoolean(column.sqlType);
  }

  lemma NeitherTextNorBoolean(sqlType: string)
    requires sqlType in {"uuid", "user_role", "timestamp"}
    ensures !IsTextType(sqlType) && !IsBooleanType(sqlType)
  {
    if sqlType == "uuid" {
      LacksTextAndBoolean("uuid");
    } else if sqlType == "user_role" {
      LacksTextAndBoolean("user_role");
    } else {
      LacksTextAndBoolean("timestamp");
    }
  }

  lemma LacksTextAndBoolean(sqlType: string)
    requires 'v' !in sqlType && 'x' !in sqlType && 'b' !in sqlType
    ensures !IsTextType(sqlType) && !IsBooleanType(sqlType)
  {
    NotContainsWithoutChar(sqlType, "varchar", 0);
    NotContainsWithoutChar(sqlType, "text", 2);
    NotContainsWithoutChar(sqlType, "boolean", 0);
  }

  /**
   * Filtering the users list by name or email is a substring match; by id,
   * role or a timestamp it is equality with the raw string.
   */
  lemma UserColumnDispatch(key: string, value: string)
    requires key in FilterColumns && value != ""
    ensures key == "name" || key == "email" ==>
      BuildFilterCondition(value, FilterColumns[key]) == Some(ILike(FilterColumns[key], "%" + value + "%"))
    ensures key != "name" && key != "email" ==>
      BuildFilterCondition(value, FilterColumns[key]) == Some(EqText(FilterColumns[key], value))
  {
    if key == "name" || key == "email" {
      TextColumnDispatch(value, FilterColumns[key]);
    } else {
      assert FilterColumns[key] in {UsersId, UsersRole, UsersCreatedAt, UsersUpdatedAt};
      ExactColumnDispatch(value, FilterColumns[key]);
    }
  }

  /** The rows the list returns: every column but the password hash. */
  function ListedUser(id: string, row: UserRow): UserView {
    UserView(id, row.email, row.name, row.role, Some(row.createdAt), Some(row.updatedAt))
  }

  /**
   * GET /. The count and the page query share one WHERE clause; the page query
   * takes the parsed limit and its offset. An invalid page or limit throws out
   * of the parser into the catch-all, so it answers 500, not 400.
   */
  method ListUsers(query: Entries<Option<string>>, coerce: Coercion,
                   count: Option<Condition> -> Option<nat>, select: ListPlan -> Option<seq<UserView>>)
    returns (reply: Reply)
    requires DistinctKeys(query)
    ensures var parsed := ParsedQueryOf(query, coerce);
      if parsed.Err? then reply == ServerError
      else
        var plan := PlanList(parsed.value);
        && plan.limit == parsed.value.pagination.limit
        && plan.offset == (parsed.value.pagination.page - 1) * parsed.value.pagination.limit
        && if count(plan.where).None? || select(plan).None? then reply == ServerError
           else reply == Reply(200, UserPage(CreatePaginatedResponse(select(plan).value, count(plan.where).value,
                                                                     parsed.value.pagination)))
  {
    var parsed := ParseQueryParams(query, coerce);
    if parsed.Err? {
      return ServerError;
    }
    var plan := PlanList(parsed.value);
    var total := count(plan.where);
    if total.None? {
      return ServerError;
    }
    var rows := select(plan);
    if rows.None? {
      return ServerError;
    }
    reply := Reply(200, UserPage(CreatePaginatedResponse(rows.value, total.value, parsed.value.pagination)));
  }

  /** A query string without `page` or `limit` lists page 1 of 10, never an error. */
  lemma DefaultsNeverFail(query: Entries<Option<string>>, coerce: Coercion)
    requires Lookup(query, "page").None? && Lookup(query, "limit").None?
    ensures ParsedQueryOf(query, coerce).Ok?
    ensures ParsedQueryOf(query, coerce).value.pagination == PaginationParams(1, 10)
    ensures PlanList(ParsedQueryOf(query, coerce).value).offset == 0
  {
  }

  /** GET /:id: the user without the password hash, or 404. */
  function GetUser(users: Users, isUuid: string -> bool, id: string): (reply: Reply)
    ensures !isUuid(id) ==> reply == ServerError
    ensures isUuid(id) && id !in users ==> reply == UserNotFoundReply
    ensures isUuid(id) && id in users ==>
      reply.status == 200 && reply.body.UserBody? && reply.body.user.id == id &&
      reply.body.user.email == users[id].email && reply.body.user.role == users[id].role &&
      reply.body.user.name == users[id].name &&
      reply.body.user.createdAt == Some(users[id].createdAt) && reply.body.user.updatedAt == Some(users[id].updatedAt)
  {
    if !isUuid(id) then ServerError
    else if id !in users then UserNotFoundReply
    else Reply(200, UserBody(ListedUser(id, users[id])))
  }

  /** The role enum of the create and update schemas (`UserRole`, not the database's). */
  const SchemaRoles := [RoleGuard.AdminRole, RoleGuard.StudentRole]

  datatype CreateInput = CreateInput(email: string, password: string, name: string, role: string)

  /** `createUserSchema.parse`. */
  function ParseCreate(body: Json, isEmail: string -> bool): (r: Option<CreateInput>)
    ensures r.Some? <==>
      && body.JObj?
      && EmailField(body.fields, "email", isEmail).Some?
      && StringField(body.fields, "password", 8).Some?
      && StringField(body.fields, "name", 1).Some?
      && "role" in body.fields && body.fields["role"].JStr? && body.fields["role"].s in SchemaRoles
    ensures r.Some? ==> r.value.role in SchemaRoles && |r.value.password| >= 8 && |r.value.name| >= 1 &&
                        isEmail(r.value.email) && body.fields["role"] == JStr(r.value.role)
  {
    if !body.JObj? then None
    else
      var email := EmailField(body.fields, "email", isEmail);
      var password := StringField(body.fields, "password", 8);
      var name := StringField(body.fields, "name", 1);
      var role := if "role" in body.fields && body.fields["role"].JStr? && body.fields["role"].s in SchemaRoles
                  then Some(body.fields["role"].s) else None;
      if email.Some? && password.Some? && name.Some? && role.Some? then
        Some(CreateInput(email.value, password.value, name.value, role.value))
      else None
  }

  /**
   * POST /. The schema accepts `student`, which the database enum refuses:
   * creating a student always answers 500 and writes nothing.
   */
  method CreateUser(db: Database, isEmail: string -> bool, body: Option<Json>, newId: string,
                    passwordHash: string, now: int) returns (reply: Reply)
    requires db.Valid()
    modifies db
    ensures db.Valid() && db.tokens == old(db.tokens)
    ensures body.None? ==> reply == ServerError && db.users == old(db.users)
    ensures body.Some? && ParseCreate(body.value, isEmail).None? ==> reply == InvalidInputReply && db.users == old(db.users)
    ensures body.Some? && ParseCreate(body.value, isEmail).Some? ==>
      var input := ParseCreate(body.value, isEmail).value;
      if EmailTaken(old(db.users), input.email, None) then reply == EmailTakenReply && db.users == old(db.users)
      else if newId in old(db.users) || input.role !in DbRoles ||
              !FitsColumns(UserRow(input.email, input.name, passwordHash, input.role, now, now)) then
        reply == ServerError && db.users == old(db.users)
      else
        && db.users == old(db.users)[newId := UserRow(input.email, input.name, passwordHash, input.role, now, now)]
        && reply == Reply(201, UserBody(UserView(newId, input.email, input.name, input.role, Some(now), None)))
    ensures body.Some? && ParseCreate(body.value, isEmail).Some? && ParseCreate(body.value, isEmail).value.role == RoleGuard.StudentRole ==>
      reply.status != 201 && db.users == old(db.users)
  {
    if body.None? {
      return ServerError;
    }
    var input := ParseCreate(body.value, isEmail);
    if input.None? {
      return InvalidInputReply;
    }
    var existing := UserByEmail(db.users, input.value.email);
    if existing.Some? {
      return EmailTakenReply;
    }
    var data := input.value;
    var ok := db.InsertUser(newId, UserRow(data.email, data.name, passwordHash, data.role, now, now));
    if !ok {
      return ServerError;
    }
    reply := Reply(201, UserBody(UserView(newId, data.email, data.name, data.role, Some(now), None)));
  }

  /** `updateUserSchema.parse`: every field optional, each checked when present. */
  datatype UpdateInput = UpdateInput(email: Option<string>, name: Option<string>, role: Option<string>,
                                     password: Option<string>)

  function ParseUpdate(body: Json, isEmail: string -> bool): (r: Option<UpdateInput>)
    ensures r.Some? <==>
      && body.JObj?
      && OptionalField(body.fields, "email", EmailField(body.fields, "email", isEmail)).Ok?
      && OptionalField(body.fields, "name", StringField(body.fields, "name", 1)).Ok?
      && ("role" in body.fields ==> body.fields["role"].JStr? && body.fields["role"].s in SchemaRoles)
      && OptionalField(body.fields, "password", StringField(body.fields, "password", 8)).Ok?
    ensures r.Some? ==>
      && (r.value.email.None? <==> "email" !in body.fields)
      && (r.value.email.Some? ==> isEmail(r.value.email.value) && body.fields["email"] == JStr(r.value.email.value))
      && (r.value.name.None? <==> "name" !in body.fields)
      && (r.value.name.Some? ==> |r.value.name.value| >= 1 && body.fields["name"] == JStr(r.value.name.value))
      && (r.value.role.None? <==> "role" !in body.fields)
      && (r.value.role.Some? ==> r.value.role.value in SchemaRoles && body.fields["role"] == JStr(r.value.role.value))
      && (r.value.password.None? <==> "password" !in body.fields)
      && (r.value.password.Some? ==> |r.value.password.value| >= 8 && body.fields["password"] == JStr(r.value.password.value))
    ensures body == JObj(map[]) ==> r == Some(UpdateInput(None, None, None, None))
  {
    if !body.JObj? then None
    else
      var f := body.fields;
      var email := OptionalField(f, "email", EmailField(f, "email", isEmail));
      var name := OptionalField(f, "name", StringField(f, "name", 1));
      var role := OptionalField(f, "role",
                    if "role" in f && f["role"].JStr? && f["role"].s in SchemaRoles then Some(f["role"].s) else None);
      var password := OptionalField(f, "password", StringField(f, "password", 8));
      if email.Ok? && name.Ok? && role.Ok? && password.Ok? then
        Some(UpdateInput(email.value, name.value, role.value, password.value))
      else None
  }

  /** A provided field with a truthy value: only these overwrite. */
  predicate Provided(field: Option<string>) {
    field.Some? && field.value != ""
  }

  function Pick(field: Option<string>, current: string): string {
    if Provided(field) then field.value else current
  }

  /**
   * The row `set(updateData)` writes: `updatedAt` always, each other field
   * only when provided, the password as the hash `passwordHash`.
   */
  function Merge(row: UserRow, patch: UpdateInput, passwordHash: string, now: int): (r: UserRow)
    ensures r.updatedAt == now && r.createdAt == row.createdAt
    ensures r.email == Pick(patch.email, row.email) && r.name == Pick(patch.name, row.name)
    ensures r.role == Pick(patch.role, row.role)
    ensures r.passwordHash == (if Provided(patch.password) then passwordHash else row.passwordHash)
  {
    UserRow(Pick(patch.email, row.email), Pick(patch.name, row.name),
            if Provided(patch.password) then passwordHash else row.passwordHash,
            Pick(patch.role, row.role), row.createdAt, now)
  }

  /** An empty patch only moves `updatedAt`. */
  lemma EmptyPatchTouchesOnlyUpdatedAt(row: UserRow, passwordHash: string, now: int)
    ensures Merge(row, UpdateInput(None, None, None, None), passwordHash, now) == row.(updatedAt := now)
  {
  }

  /** Applying the same patch twice is applying it once, at the later time. */
  lemma MergeIdempotent(row: UserRow, patch: UpdateInput, passwordHash: string, t1: int, t2: int)
    ensures Merge(Merge(row, patch, passwordHash, t1), patch, passwordHash, t2) == Merge(row, patch, passwordHash, t2)
  {
  }

  /** Whether the PATCH runs the email-uniqueness query: a provided email that differs from the current one. */
  predicate ChecksEmail(patch: UpdateInput, current: UserRow) {
    Provided(patch.email) && patch.email.value != current.email
  }

  /**
   * PATCH /:id. After the schema and the 404, a changed email already used by
   * someone answers 400; otherwise the merged row is written. Resubmitting a
   * user's own email is not a conflict. A `student` role is refused by the
   * database enum (500).
   */
  method UpdateUser(db: Database, isEmail: string -> bool, isUuid: string -> bool, id: string, body: Option<Json>,
                    passwordHash: string, now: int) returns (reply: Reply)
    requires db.Valid()
    modifies db
    ensures db.Valid() && db.tokens == old(db.tokens)
    ensures body.None? ==> reply == ServerError && db.users == old(db.users)
    ensures body.Some? && ParseUpdate(body.value, isEmail).None? ==> reply == InvalidInputReply && db.users == old(db.users)
    ensures body.Some? && ParseUpdate(body.value, isEmail).Some? ==>
      var patch := ParseUpdate(body.value, isEmail).value;
      if !isUuid(id) then reply == ServerError && db.users == old(db.users)
      else if id !in old(db.users) then reply == UserNotFoundReply && db.users == old(db.users)
      else if ChecksEmail(patch, old(db.users)[id]) && EmailTaken(old(db.users), patch.email.value, None) then
        reply == EmailTakenReply && db.users == old(db.users)
      else
        var merged := Merge(old(db.users)[id], patch, passwordHash, now);
        if merged.role !in DbRoles || !FitsColumns(merged) then reply == ServerError && db.users == old(db.users)
        else
          && db.users == old(db.users)[id := merged]
          && reply == Reply(200, UserBody(UserView(id, merged.email, merged.name, merged.role, None, Some(now))))
  {
    if body.None? {
      return ServerError;
    }
    var input := ParseUpdate(body.value, isEmail);
    if input.None? {
      return InvalidInputReply;
    }
    var patch := input.value;
    if !isUuid(id) || id !in db.users {
      return if !isUuid(id) then ServerError else UserNotFoundReply;
    }
    var existing := db.users[id];
    if ChecksEmail(patch, existing) {
      var emailOwner := UserByEmail(db.users, patch.email.value);
      if emailOwner.Some? {
        return EmailTakenReply;
      }
    }
    var updateData := existing.(updatedAt := now);
    if Provided(patch.email) {
      updateData := updateData.(email := patch.email.value);
    }
    if Provided(patch.name) {
      updateData := updateData.(name := patch.name.value);
    }
    if Provided(patch.role) {
      updateData := updateData.(role := patch.role.value);
    }
    if Provided(patch.password) {
      updateData := updateData.(passwordHash := passwordHash);
    }
    assert updateData == Merge(existing, patch, passwordHash, now);
    assert !EmailTaken(db.users, updateData.email, Some(id)) by {
      if !ChecksEmail(patch, existing) {
        assert updateData.email == existing.email;
      }
    }
    var ok := db.UpdateUser(id, updateData);
    if !ok {
      return ServerError;
    }
    reply := Reply(200, UserBody(UserView(id, updateData.email, updateData.name, updateData.role, None, Some(now))));
  }

  const OwnAccountReply := Reply(400, Failure("Cannot delete your own account", Some(CannotDeleteOwnAccount)))

  /**
   * DELETE /:id. The caller's own id answers 400 and deletes nothing; an
   * unknown id answers 404; otherwise the user and, by the cascade, all of
   * that user's token rows go.
   */
  method DeleteUser(db: Database, isUuid: string -> bool, id: string, currentUserId: string) returns (reply: Reply)
    requires db.Valid()
    modifies db
    ensures db.Valid()
    ensures id == currentUserId ==> reply == OwnAccountReply && db.users == old(db.users) && db.tokens == old(db.tokens)
    ensures id != currentUserId && !isUuid(id) ==> reply == ServerError && db.users == old(db.users) && db.tokens == old(db.tokens)
    ensures id != currentUserId && isUuid(id) && id !in old(db.users) ==>
      reply == UserNotFoundReply && db.users == old(db.users) && db.tokens == old(db.tokens)
    ensures id != currentUserId && isUuid(id) && id in old(db.users) ==>
      && reply == Reply(200, Message("User deleted successfully"))
      && db.users == old(db.users) - {id}
      && db.tokens == TokensNotOwnedBy(old(db.tokens), id)
  {
    if id == currentUserId {
      return OwnAccountReply;
    }
    if !isUuid(id) {
      return ServerError;
    }
    var found := db.DeleteUser(id);
    if !found {
      return UserNotFoundReply;
    }
    reply := Reply(200, Message("User deleted successfully"));
  }

  /**
   * `users.use("*", authMiddleware, requireAdmin)`: the Bearer guard, then the
   * admin guard on the `userId` it set; the first refusal is the reply.
   */
  function AdminGate(db: Database, jwt: TokenAuth.Jwt, header: Option<string>, now: int): (r: Result<string, Reply>)
    reads db
    ensures r.Ok? <==>
      && AuthMiddleware.Authenticate(db.tokens, jwt, header, now).Ok?
      && var id := AuthMiddleware.Authenticate(db.tokens, jwt, header, now).value.0;
         id in db.users && db.users[id].role == RoleGuard.AdminRole
    ensures r.Ok? ==> r.value == AuthMiddleware.Authenticate(db.tokens, jwt, header, now).value.0
  {
    match AuthMiddleware.Authenticate(db.tokens, jwt, header, now)
    case Err(reply) => Err(reply)
    case Ok((userId, _)) =>
      match RoleGuard.Authorize(Some(userId), db.users, [RoleGuard.AdminRole])
      case Err(reply) => Err(reply)
      case Ok(_) => Ok(userId)
  }

  /** The two guards run on one context; on success both handed the request on. */
  method RunGuards(ctx: Context, db: Database, jwt: TokenAuth.Jwt, header: Option<string>, now: int)
    returns (reply: Option<Reply>)
    modifies ctx
    ensures var gate := AdminGate(db, jwt, header, now);
      if gate.Ok? then
        reply.None? && ctx.userId == Some(gate.value) && ctx.userRole == Some(RoleGuard.AdminRole) &&
        ctx.nextCalls == old(ctx.nextCalls) + 2
      else reply == Some(gate.error)
  {
    reply := AuthMiddleware.Run(ctx, db.tokens, jwt, header, now);
    if reply.Some? {
      return;
    }
    reply := RoleGuard.RequireAdmin(ctx, db.users);
  }
}

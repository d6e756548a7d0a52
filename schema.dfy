/**
 * The two tables of apps/server/src/db/schema.ts and the constraints the
 * database enforces on writes: primary key on `users.id`, unique
 * `users.email`, the `user_role` enum, unique `tokens.token`, and the
 * `tokens.user_id` foreign key with `ON DELETE CASCADE`.
 */
module Schema {
  import opened Wrappers

  /** A column as the query builder sees it: its name and `getSQLType()`. */
  datatype Column = Column(name: string, sqlType: string)

  const UsersId := Column("id", "uuid")
  const UsersName := Column("name", "varchar(255)")
  const UsersEmail := Column("email", "varchar(255)")
  const UsersPasswordHash := Column("password_hash", "text")
  const UsersRole := Column("role", "user_role")
  const UsersCreatedAt := Column("created_at", "timestamp")
  const UsersUpdatedAt := Column("updated_at", "timestamp")

  /** `userRoleEnum`: the only role strings the database stores. */
  const DbRoles: set<string> := {"admin", "user"}
  /** The column default of `users.role`. */
  const DefaultRole := "user"

  /** The declared length of the `varchar` columns `users.name` and `users.email`. */
  const VarcharLength := 255

  /** Timestamps are integer milliseconds. */
  datatype UserRow = UserRow(
    email: string, name: string, passwordHash: string, role: string,
    createdAt: int, updatedAt: int)

  /** A row of `tokens`; `kind` is the `type` column. */
  datatype TokenRow = TokenRow(
    userId: string, token: string, kind: string, expiresAt: int,
    revoked: bool, revokedAt: Option<int>, createdAt: int)

  /** The `users` table keyed by id. */
  type Users = map<string, UserRow>

  /** Some user other than `except` has this email. */
  predicate EmailTaken(users: Users, email: string, except: Option<string>) {
    exists id | id in users :: users[id].email == email && Some(id) != except
  }

  /** A row Postgres accepts into the `varchar(255)` columns `name` and `email`. */
  predicate FitsColumns(row: UserRow) {
    |row.name| <= VarcharLength && |row.email| <= VarcharLength
  }

  predicate UniqueEmails(users: Users) {
    forall a, b | a in users && b in users && a != b :: users[a].email != users[b].email
  }

  predicate UniqueTokens(tokens: seq<TokenRow>) {
    forall i, j | 0 <= i < j < |tokens| :: tokens[i].token != tokens[j].token
  }

  predicate TokenTaken(tokens: seq<TokenRow>, token: string) {
    exists i | 0 <= i < |tokens| :: tokens[i].token == token
  }

  /** The state every committed write leaves the two tables in. */
  predicate Consistent(users: Users, tokens: seq<TokenRow>) {
    && UniqueEmails(users)
    && (forall id | id in users :: users[id].role in DbRoles && FitsColumns(users[id]))
    && UniqueTokens(tokens)
    && (forall i | 0 <= i < |tokens| :: tokens[i].userId in users)
  }

  /** `select from users where email = ? limit 1`, as the matching id; unique emails make it the only one. */
  function UserByEmail(users: Users, email: string): (r: Option<string>)
    requires UniqueEmails(users)
    ensures r.None? <==> !EmailTaken(users, email, None)
    ensures r.Some? ==> r.value in users && users[r.value].email == email
  {
    if EmailTaken(users, email, None) then
      var id :| id in users && users[id].email == email;
      Some(id)
    else None
  }

  /** The cascade of `ON DELETE CASCADE`: the token rows that survive deleting user `id`. */
  function TokensNotOwnedBy(tokens: seq<TokenRow>, id: string): (r: seq<TokenRow>)
    ensures forall i | 0 <= i < |r| :: r[i].userId != id
    ensures forall t | t in r :: t in tokens
    ensures forall t | t in tokens && t.userId != id :: t in r
    ensures UniqueTokens(tokens) ==> UniqueTokens(r)
  {
    if |tokens| == 0 then []
    else
      var tail := TokensNotOwnedBy(tokens[1..], id);
      if tokens[0].userId == id then tail
      else
        [tokens[0]] + tail
  }

  class Database {
    var users: Users
    var tokens: seq<TokenRow>

    ghost predicate Valid()
      reads this
    {
      Consistent(users, tokens)
    }

    constructor ()
      ensures Valid() && users == map[] && tokens == []
    {
      users := map[];
      tokens := [];
    }

    /** `insert into users`; refused (thrown) on a key, email, enum or length violation. */
    method InsertUser(id: string, row: UserRow) returns (ok: bool)
      requires Valid()
      modifies this
      ensures Valid()
      ensures ok <==> id !in old(users) && !EmailTaken(old(users), row.email, None) && row.role in DbRoles &&
                      FitsColumns(row)
      ensures users == (if ok then old(users)[id := row] else old(users))
      ensures tokens == old(tokens)
    {
      ok := id !in users && !EmailTaken(users, row.email, None) && row.role in DbRoles && FitsColumns(row);
      if ok {
        users := users[id := row];
      }
    }

    /** `update users set ... where id = ?`; refused on an email, enum or length violation. */
    method UpdateUser(id: string, row: UserRow) returns (ok: bool)
      requires Valid() && id in users
      modifies this
      ensures Valid()
      ensures ok <==> !EmailTaken(old(users), row.email, Some(id)) && row.role in DbRoles && FitsColumns(row)
      ensures users == (if ok then old(users)[id := row] else old(users))
      ensures tokens == old(tokens)
    {
      ok := !EmailTaken(users, row.email, Some(id)) && row.role in DbRoles && FitsColumns(row);
      if ok {
        users := users[id := row];
      }
    }

    /** `delete from users where id = ?`, with the cascade to `tokens`; `found` is whether a row was deleted. */
    method DeleteUser(id: string) returns (found: bool)
      requires Valid()
      modifies this
      ensures Valid()
      ensures found <==> id in old(users)
      ensures users == old(users) - {id}
      ensures tokens == (if found then TokensNotOwnedBy(old(tokens), id) else old(tokens))
    {
      found := id in users;
      if found {
        users := users - {id};
        tokens := TokensNotOwnedBy(tokens, id);
      }
    }

    /** `insert into tokens`; refused on a duplicate token or an unknown user. */
    method InsertToken(row: TokenRow) returns (ok: bool)
      requires Valid()
      modifies this
      ensures Valid()
      ensures ok <==> !TokenTaken(old(tokens), row.token) && row.userId in old(users)
      ensures tokens == (if ok then old(tokens) + [row] else old(tokens))
      ensures users == old(users)
    {
      ok := !TokenTaken(tokens, row.token) && row.userId in users;
      if ok {
        tokens := tokens + [row];
      }
    }
  }
}

# Admin users: list protocol and token lifecycle, in Dafny

This project models the core of a small full-stack application: a Hono server with a
Drizzle/Postgres store, and a React admin client. Two parts are modelled.

1. **The server-driven users list.**
   - **Client side.** The admin page keeps its table state (page index, page size, sorting,
     column filters) in state cells. It derives the `apiFilters` map from the column filters
     and builds the list request. The users service turns that request into query
     parameters, with `sort` written as a comma-separated list of `[-]id` tokens.
   - **Filter editor.** Edits go to a pending map. "Apply" moves them onto the table's
     column filters and the URL; "clear" resets both.
   - **URL state.** The sorting and filters held in the URL are JSON arrays. Their parsers
     fail closed and compare states position by position.
   - **Server side.** The query string is parsed into page, limit, sort and filters. The
     filters become a column-type-dispatched WHERE condition. The sort becomes ORDER BY
     terms. The response carries the page arithmetic (`totalPages`, `hasNext`, `hasPrev`).
2. **The token and session lifecycle.**
   - **Tables.** Users and tokens, with the constraints the schema declares: a unique
     email, a role enum of `admin`/`user`, a unique token string, and a foreign key that
     cascades on delete.
   - **Tokens.** Access and refresh tokens can be issued, verified and revoked.
   - **Handlers.** The signup, login, logout, refresh, forgot-password and reset-password
     handlers.
   - **Guards.** The Bearer-header guard and the role guard.
   - **Admin handlers.** The CRUD handlers of the admin router.
   - **Client side.** The client's token store, reading the role out of the access token,
     and the error-toast message selection.

The modelling conventions are:
- **JavaScript objects.** A JavaScript object used as a dictionary is an association list
  with distinct keys, kept in insertion order (`Records`).
- **Foreign code.** Every foreign call is a parameter of the member that makes it. This
  covers JWT signing and verification, Bun's password hashing, `z.email()`, `Number(...)`,
  `JSON.parse`/`JSON.stringify`, `atob`, i18next and the database's answers to a read query.
- **Time and randomness.** Time is an integer millisecond clock read once per handler.
  Random outputs (`crypto.randomUUID`, a new user id, a hash) are inputs.
- **SQL.** Conditions and order terms are datatypes (`SqlFilters.Condition`,
  `AdminUsers.OrderTerm`), not SQL text.

Some behaviour of the source is surprising, and the model keeps it:
- **Validation errors answer 500.** An invalid `page` or `limit` throws out of
  `parseQueryParams`. The list handler's catch answers 500, not 400
  (`AdminUsers.ListUsers`).
- **Roles disagree.** The admin create and update schemas accept the role `student`, but
  the database enum stores only `admin` and `user`.
  - Creating or promoting a student therefore always answers 500 and writes nothing
    (`AdminUsers.CreateUser`, `AdminUsers.UpdateUser`).
  - `requireRole("student")` admits no stored user (`RoleGuard.StudentGuardAdmitsNoStoredUser`).
- **Filters can overwrite paging.** The client copies filters after `page`, `limit` and
  `sort`, so a filter named `page`, `limit` or `sort` overwrites that parameter
  (`UsersService.SentValue`).
- **Token kinds are not checked.** `verifyToken` does not look at a row's type, so access,
  refresh and reset rows verify alike (`TokenAuth.VerificationIgnoresKind`).
- **Same-second tokens collide.** Two tokens of one kind issued for one user within the
  same second sign the same payload. The second insert then breaks the unique token
  constraint (`TokenAuth.SameSecondIssueCollides`).
- **No page reset.** Changing sorting or filters does not reset the page
  (`UsersRoute.TableState.SetSorting`, `UsersRoute.TableState.SetFilters`).

The cross-file round trips are proved:
- the client's `sort` serialiser against the server's parser (`ListProtocol.SortRoundTrip`);
- the whole request against `parseQueryParams` (`ListProtocol.RequestParsedBack`);
- the table state against what the server pages, sorts and filters with
  (`ListProtocol.TableStateReachesServer`).

## Model

| member | source | states |
|---|---|---|
| Pagination.ParsePage | apps/server/src/lib/pagination.ts:9 | an absent page is 1; a present one is accepted exactly when it coerces to an integer ≥ 1, and then it is that integer |
| Pagination.ParseLimit | apps/server/src/lib/pagination.ts:10 | an absent limit is 10; a present one is accepted exactly when it coerces to an integer in [1, 100], and then it is that integer |
| Pagination.ParseSortToken | apps/server/src/lib/pagination.ts:68-72 | a token is descending exactly when it starts with `-`; exactly one leading `-` is removed, and any other token is the id unchanged |
| Pagination.ParseSort | apps/server/src/lib/pagination.ts:66-73 | an absent or empty `sort` gives no items; otherwise there is one item per `,`-separated token, in token order |
| Pagination.RestEntries | apps/server/src/lib/pagination.ts:58 | the rest object holds every key except `page`, `limit` and `sort`, with the same value |
| Pagination.NonEmptyEntries | apps/server/src/lib/pagination.ts:75-78 | every kept filter key was in the query, and no entries are added |
| Pagination.NonEmptyEntriesAppend | apps/server/src/lib/pagination.ts:76-77 | one more `forEach` step appends the entry exactly when its value is truthy |
| Pagination.NonEmptyEntriesGet | apps/server/src/lib/pagination.ts:75-78 | a key is kept exactly when its value is defined and non-empty, and its value is unchanged |
| Pagination.FiltersAreNonEmptyNonReserved | apps/server/src/lib/pagination.ts:58-78 | the filters are exactly the keys other than page/limit/sort with a non-empty value, values unchanged |
| Pagination.ParseQueryParams | apps/server/src/lib/pagination.ts:57-88 | succeeds exactly when page and limit both parse; the error names the failing fields; on success the result holds that pagination, the parsed sort and the non-empty non-reserved filters, filled by the loop |
| Pagination.CeilDiv | apps/server/src/lib/pagination.ts:38 | `Math.ceil(total / limit)` is the n with (n-1)·limit < total ≤ n·limit |
| Pagination.CeilDivUnique | apps/server/src/lib/pagination.ts:38 | those bounds determine the ceiling uniquely |
| Pagination.CreatePaginatedResponse | apps/server/src/lib/pagination.ts:33-51 | data, page, limit and total are echoed; totalPages is the ceiling; hasNext ⇔ page < totalPages; hasPrev ⇔ page > 1 |
| Pagination.NoRowsNoPages | apps/server/src/lib/pagination.ts:38-47 | a total of 0 gives 0 pages and no next page |
| Pagination.OffsetProperties | apps/server/src/lib/pagination.ts:53-55 | the offset is ≥ 0 for page ≥ 1, and page p+1 starts exactly `limit` rows after page p |
| Pagination.GetOffset | apps/server/src/lib/pagination.ts:53-55 | the offset is ≥ 0 for a page ≥ 1, and page p ends at row p·limit |
| Pagination.EveryRowOnExactlyOnePage | apps/server/src/lib/pagination.ts:33-55 | row i lies on page ⌊i/limit⌋+1, which is within totalPages, and on no other page |
| Pagination.HasNextMeansMoreRows | apps/server/src/lib/pagination.ts:40-55 | hasNext holds exactly when rows exist past the current page; hasPrev holds exactly when the offset is positive |
| Json.Member | apps/client/src/lib/catch-axios-error.ts:9 | a member access is defined exactly on an object holding the key, and is that value |
| Json.StringField | apps/server/src/routes/auth.ts:23-24 | `z.string().min(n)` accepts exactly a string of at least n characters |
| Json.EmailField | apps/server/src/routes/auth.ts:22 | `z.email()` accepts exactly a string the address predicate accepts |
| Json.OptionalField | apps/server/src/routes/admin/users.ts:30-35 | `.optional()`: an absent key is fine and undefined; a present one must pass its schema |
| SqlFilters.BuildFilterCondition | apps/server/src/lib/data-table-filters.ts:4-21 | no condition exactly for an empty value; text/varchar columns give ILIKE `%v%`, checked before the boolean case; boolean columns give equality with `v == "true"`; other columns give raw equality |
| SqlFilters.MapEntries | apps/server/src/lib/data-table-filters.ts:27-32 | one slot per entry: nothing for an unknown key, otherwise the builder's result for that column |
| SqlFilters.Defined | apps/server/src/lib/data-table-filters.ts:33 | the filter keeps only defined conditions |
| SqlFilters.ApplicableEntries | apps/server/src/lib/data-table-filters.ts:27-33 | the entries with a known column and a non-empty value, in entry order |
| SqlFilters.ConditionsFollowApplicableEntries | apps/server/src/lib/data-table-filters.ts:27-33 | there is one condition per applicable entry, in entry order, built from that entry's value and column |
| SqlFilters.UnknownKeyIgnored | apps/server/src/lib/data-table-filters.ts:29-30 | a key outside the column map is skipped wherever it stands, never an error |
| SqlFilters.ConditionsSkip | apps/server/src/lib/data-table-filters.ts:29-30 | removing an unknown key leaves the condition list unchanged |
| SqlFilters.ConditionsAreAtoms | apps/server/src/lib/data-table-filters.ts:27-33 | every built condition is a single-column one |
| SqlFilters.WhereIsConjunction | apps/server/src/lib/data-table-filters.ts:35-38 | a row passes the combined WHERE exactly when it satisfies every condition: none gives no WHERE, one is unwrapped, several are ANDed |
| SqlFilters.BuildFiltersCondition | apps/server/src/lib/data-table-filters.ts:23-38 | there is no WHERE exactly when no entry has a known column and a non-empty value; a conjunction joins at least two single-column conditions, so a single condition is never wrapped |
| SqlFilters.ApplicableEntriesEmpty | apps/server/src/lib/data-table-filters.ts:27-35 | no applicable entries exactly when every entry is unknown or empty |
| SqlFilters.TextTestComesFirst | apps/server/src/lib/data-table-filters.ts:12-14 | any column type naming both text and boolean takes the ILIKE branch, because the text test comes first |
| SqlFilters.BooleanFilterValue | apps/server/src/lib/data-table-filters.ts:16-18 | on a boolean column only `"true"` selects true; every other string selects false |
| Schema.UserByEmail | apps/server/src/routes/auth.ts:46-50 | the lookup by email finds a user exactly when one has that email, and returns that user |
| Schema.TokensNotOwnedBy | apps/server/src/db/schema.ts:25-27 | the cascade keeps exactly the token rows of other users and keeps tokens unique |
| Schema.Database.constructor | apps/server/src/db/schema.ts:13-34 | the tables start empty and consistent |
| Schema.Database.InsertUser | apps/server/src/db/schema.ts:11-21 | the insert succeeds exactly for a new id, an unused email, an enum role, and a name and email of at most 255 characters; the tables stay consistent |
| Schema.Database.UpdateUser | apps/server/src/db/schema.ts:11-21 | the update succeeds exactly when no other user has the email, the role is in the enum, and the name and email are at most 255 characters |
| Schema.Database.DeleteUser | apps/server/src/db/schema.ts:25-27 | the delete removes the user and, by the cascade, all of that user's tokens |
| Schema.Database.InsertToken | apps/server/src/db/schema.ts:23-34 | the insert is refused on a duplicate token string or an unknown user, and otherwise appends the row |
| TokenAuth.ClaimsFor | apps/server/src/lib/auth.ts:24-29 | the payload carries the user id as `sub` and the role; `exp` is the expiry in whole seconds, rounded down |
| TokenAuth.Issued | apps/server/src/lib/auth.ts:20-38 | the issued row has that user, type and expiry (now + lifetime), is not revoked, and holds the signed payload |
| TokenAuth.GenerateToken | apps/server/src/lib/auth.ts:20-64 | inserts exactly that one row and returns its token, or changes nothing when the insert is refused |
| TokenAuth.GenerateAccessToken | apps/server/src/lib/auth.ts:20-41 | one `access` row expiring 15 minutes after issue |
| TokenAuth.GenerateRefreshToken | apps/server/src/lib/auth.ts:43-64 | one `refresh` row expiring 30 days after issue |
| TokenAuth.SameSecondIssueCollides | apps/server/src/lib/auth.ts:24-38 | two issues within one second give the same token string, so the second collides |
| TokenAuth.FindToken | apps/server/src/lib/auth.ts:70-74 | the lookup finds the first row holding the token, and nothing exactly when no row does |
| TokenAuth.VerifyToken | apps/server/src/lib/auth.ts:66-84 | returns `sub` exactly when the signature verifies and the row is found, not revoked and not expired; otherwise null |
| TokenAuth.RevokeToken | apps/server/src/lib/auth.ts:86-94 | every row with that token is revoked at `now`, and no other row changes |
| TokenAuth.RevokeAllUserTokens | apps/server/src/lib/auth.ts:96-104 | exactly the rows of that user are revoked |
| TokenAuth.RevokeTokenIn | apps/server/src/lib/auth.ts:86-94 | the table update in place, with users untouched |
| TokenAuth.RevokeAllUserTokensIn | apps/server/src/lib/auth.ts:96-104 | the table update in place, with users untouched |
| TokenAuth.RevokedTokenFailsVerification | apps/server/src/lib/auth.ts:76-94 | after `revokeToken(t)`, `verifyToken(t)` is null at any time |
| TokenAuth.RevokedUserTokensFailVerification | apps/server/src/lib/auth.ts:76-104 | with unique token strings, after `revokeAllUserTokens(u)` none of u's tokens verifies |
| TokenAuth.RevokeIdempotent | apps/server/src/lib/auth.ts:86-94 | revoking twice leaves the revoked flags as revoking once; only `revokedAt` moves |
| TokenAuth.VerificationIgnoresKind | apps/server/src/lib/auth.ts:76 | a row's type does not affect verification |
| TokenAuth.FindTokenIgnoresKind | apps/server/src/lib/auth.ts:70-74 | the token lookup does not look at the type |
| TokenAuth.IssuedTokenVerifies | apps/server/src/lib/auth.ts:20-84 | a freshly issued token verifies for its owner until its expiry |
| TokenAuth.FindTokenAppend | apps/server/src/lib/auth.ts:70-74 | a new token string appended to the table is found at its position |
| RequestContext.Context.constructor | apps/server/src/types/hono.ts:3-7 | a request starts with no user, token or role, and `next` not called |
| AuthMiddleware.BearerToken | apps/server/src/middleware/auth.ts:8-12 | a token exists exactly for a header starting with `Bearer `, and is the header minus its first 7 characters |
| AuthMiddleware.Authenticate | apps/server/src/middleware/auth.ts:6-17 | no Bearer header gives 401 "No token provided"; a token that does not verify to a truthy subject gives 401 "Invalid or expired token"; otherwise the result is the subject and the raw token |
| AuthMiddleware.Run | apps/server/src/middleware/auth.ts:5-23 | on success sets `userId` and `token` and calls `next` exactly once; on failure replies and changes nothing |
| AuthMiddleware.RevokedTokenRejected | apps/server/src/middleware/auth.ts:12-17 | a revoked token never passes the guard |
| RoleGuard.Authorize | apps/server/src/middleware/role.ts:10-35 | in this order: no userId gives 401, no user row gives 404, a role not allowed gives 403; otherwise the result is the stored role |
| RoleGuard.RequireRole | apps/server/src/middleware/role.ts:8-40 | on success sets `userRole` and calls `next` once; on refusal replies and leaves `userRole` and `next` untouched |
| RoleGuard.RequireAdmin | apps/server/src/middleware/role.ts:42 | `requireAdmin` is the role guard for `admin` alone |
| RoleGuard.AdminGuardAdmitsExactlyAdmins | apps/server/src/middleware/role.ts:42 | admits exactly a stored user whose role is the string `"admin"` |
| RoleGuard.StudentGuardAdmitsNoStoredUser | apps/server/src/middleware/role.ts:27-35 | since the database stores only admin/user, a student-only guard answers 403 to every stored user |
| AuthRoutes.ParseSignup | apps/server/src/routes/auth.ts:21-25 | accepts exactly an object with an email, a password of ≥ 8 characters and a non-empty name |
| AuthRoutes.ParseLogin | apps/server/src/routes/auth.ts:27-30 | accepts exactly an object with an email and a password string |
| AuthRoutes.ParseForgot | apps/server/src/routes/auth.ts:32-34 | accepts exactly an object with an email |
| AuthRoutes.ParseReset | apps/server/src/routes/auth.ts:36-39 | accepts exactly an object with a token string and a password of ≥ 8 characters |
| AuthRoutes.IssuePair | apps/server/src/routes/auth.ts:73-74 | issues the access row and then the refresh row; a refused insert answers the failure reply |
| AuthRoutes.Signup | apps/server/src/routes/auth.ts:41-103 | a non-JSON body gives 500; a schema failure gives 400 INVALID_INPUT; an existing email gives 400 EMAIL_ALREADY_EXISTS and writes nothing; a name or email over 255 characters gives 500 and writes nothing; otherwise inserts the user with the default role and issues a pair |
| AuthRoutes.Login | apps/server/src/routes/auth.ts:105-161 | an unknown email and a wrong password give the identical 400 INVALID_CREDENTIALS and write nothing; otherwise issues a pair for the stored role |
| AuthRoutes.Logout | apps/server/src/routes/auth.ts:163-177 | no Bearer prefix gives 400; otherwise revokes the header minus 7 characters and replies success |
| AuthRoutes.VerifyField | apps/server/src/routes/auth.ts:198 | a non-string `refreshToken` does not verify; a string is verified as it is |
| AuthRoutes.Refresh | apps/server/src/routes/auth.ts:179-239 | a missing token gives 400 REFRESH_TOKEN_REQUIRED; an invalid one gives 400 INVALID_REFRESH_TOKEN; a missing user gives 404; otherwise the old token is revoked before the new pair is issued |
| AuthRoutes.ForgotPassword | apps/server/src/routes/auth.ts:241-303 | the same reply whether or not the email exists; only an existing user gets one `password_reset` row expiring 1 hour later |
| AuthRoutes.FindResetRow | apps/server/src/routes/auth.ts:310-320 | selects a row with the matching token, type `password_reset` and not revoked, and nothing exactly when none exists |
| AuthRoutes.ResetTokenSingleUse | apps/server/src/routes/auth.ts:339-342 | revoking the selected row leaves nothing the query can select for that token |
| AuthRoutes.ResetPassword | apps/server/src/routes/auth.ts:305-362 | a missing or expired row gives 400 INVALID_RESET_TOKEN; otherwise only the owner's hash and updatedAt change, the row is revoked, and the token cannot be used again |
| AdminUsers.SortTerm | apps/server/src/routes/admin/users.ts:66-69 | the direction follows `desc`; an unknown id falls back to `createdAt` |
| AdminUsers.OrderBy | apps/server/src/routes/admin/users.ts:64-70 | empty sorting gives exactly `[createdAt DESC]`; otherwise one term per item, in order |
| AdminUsers.OrderFollowsSorting | apps/server/src/routes/admin/users.ts:55-70 | every term names a mapped column; `passwordHash` sorts by `createdAt` |
| AdminUsers.PasswordHashNotFilterable | apps/server/src/routes/admin/users.ts:41-48 | a filter on `passwordHash` never reaches the WHERE clause |
| AdminUsers.TextColumnDispatch | apps/server/src/routes/admin/users.ts:41-48 | name and email filters are ILIKE substring matches |
| AdminUsers.ExactColumnDispatch | apps/server/src/routes/admin/users.ts:41-48 | id, role and timestamp filters are raw equality |
| AdminUsers.UserColumnDispatch | apps/server/src/routes/admin/users.ts:41-48 | for every mapped key: a substring match on name/email, equality otherwise |
| AdminUsers.ListUsers | apps/server/src/routes/admin/users.ts:37-99 | an invalid page/limit gives 500; count and page query share one WHERE; limit and offset come from the pagination; the reply is the paginated envelope |
| AdminUsers.DefaultsNeverFail | apps/server/src/routes/admin/users.ts:39 | without page and limit the list is page 1 of 10 at offset 0 |
| AdminUsers.GetUser | apps/server/src/routes/admin/users.ts:101-132 | an unknown id gives 404; otherwise the reply holds the stored id, email, name, role, createdAt and updatedAt, and no password hash |
| AdminUsers.ParseCreate | apps/server/src/routes/admin/users.ts:23-28 | accepts exactly an email, a password of ≥ 8 characters, a non-empty name and a role in {admin, student} |
| AdminUsers.CreateUser | apps/server/src/routes/admin/users.ts:134-191 | an existing email gives 400; a role outside the database enum or a name or email over 255 characters gives 500; otherwise inserts and replies 201; a student is never created |
| AdminUsers.ParseUpdate | apps/server/src/routes/admin/users.ts:30-35 | accepts exactly an object whose present fields each pass their schema; each field may be absent, and `{}` is an empty patch |
| AdminUsers.Merge | apps/server/src/routes/admin/users.ts:230-238 | updatedAt is always set; only truthy fields overwrite; a password is stored as its hash |
| AdminUsers.EmptyPatchTouchesOnlyUpdatedAt | apps/server/src/routes/admin/users.ts:230-232 | an empty patch only moves updatedAt |
| AdminUsers.MergeIdempotent | apps/server/src/routes/admin/users.ts:230-238 | applying the same patch twice equals applying it once at the later time |
| AdminUsers.UpdateUser | apps/server/src/routes/admin/users.ts:193-270 | 404 for an unknown id; the email check runs only for a changed email, and a taken one gives 400; a merged row the database refuses (student role, over-long name or email) gives 500; otherwise the merged row is written |
| AdminUsers.DeleteUser | apps/server/src/routes/admin/users.ts:272-307 | the caller's own id gives 400 and deletes nothing; an unknown id gives 404; otherwise the user and its tokens are deleted |
| AdminUsers.AdminGate | apps/server/src/routes/admin/users.ts:21 | the router admits exactly a verified Bearer token whose user is stored with role admin |
| AdminUsers.RunGuards | apps/server/src/routes/admin/users.ts:21 | both guards run on one context; on success `next` has been called twice and userId/userRole are set |
| UsersService.SortTokens | apps/client/src/services/users/service.ts:72 | one `[-]id` token per item, in order |
| UsersService.SerializeSort | apps/client/src/services/users/service.ts:71-73 | for a non-empty sorting whose ids contain no `,`, splitting the `sort` text on `,` gives back exactly the items' tokens, in order |
| UsersService.BaseParams | apps/client/src/services/users/service.ts:66-73 | the parameters before the filters have distinct keys |
| UsersService.BaseGet | apps/client/src/services/users/service.ts:68-73 | page and limit are sent exactly when truthy; sort exactly for a non-empty sorting |
| UsersService.AssignAll | apps/client/src/services/users/service.ts:75-77 | `Object.assign` keeps keys distinct |
| UsersService.AssignAllGet | apps/client/src/services/users/service.ts:75-77 | after the assign, a filter key holds its filter value and every other key keeps its value |
| UsersService.QueryParamsOf | apps/client/src/services/users/service.ts:65-77 | the query object has distinct keys |
| UsersService.GetUsersQuery | apps/client/src/services/users/service.ts:65-77 | the step-by-step construction yields the specified query object |
| UsersService.SentValue | apps/client/src/services/users/service.ts:66-77 | per key: a filter wins (it overwrites page/limit/sort); otherwise page/limit when truthy, sort when non-empty |
| UsersService.KeyHierarchy | apps/client/src/services/users/service.ts:48-62 | `lists()` is a prefix of every `list(p)` and `details()` of every `detail(id)`; every key starts with `["users"]`; list and detail keys differ at the second element |
| UsersRoute.ApiFiltersOf | apps/client/src/routes/admin/users.tsx:72-78 | the derived map has distinct keys |
| UsersRoute.ApiFilters | apps/client/src/routes/admin/users.tsx:72-78 | the `forEach` yields the specified map |
| UsersRoute.ApiFiltersLast | apps/client/src/routes/admin/users.tsx:74-76 | a column maps to the text of its last filter: an array joined with `,`, a string as it is |
| UsersRoute.ApiFiltersAbsent | apps/client/src/routes/admin/users.tsx:74-76 | an id with no column filter is absent |
| UsersRoute.ApiFiltersEmpty | apps/client/src/routes/admin/users.tsx:84 | the map is empty exactly when there are no column filters |
| UsersRoute.PageCount | apps/client/src/routes/admin/users.tsx:94 | 0 before any data |
| UsersRoute.PageCountFollowsServer | apps/client/src/routes/admin/users.tsx:94 | after a response, the page count is the server's `ceil(total/limit)` |
| UsersRoute.TableState.constructor | apps/client/src/routes/admin/users.tsx:63-68 | page index 0, page size 10, no sorting, no filters |
| UsersRoute.TableState.SetPagination | apps/client/src/routes/admin/users.tsx:98 | sets page index and size; sorting and filters are unchanged |
| UsersRoute.TableState.SetSorting | apps/client/src/routes/admin/users.tsx:99 | sets sorting; the page is not reset |
| UsersRoute.TableState.SetFilters | apps/client/src/routes/admin/users.tsx:100 | sets filters; the page is not reset |
| UsersRoute.TableState.Request | apps/client/src/routes/admin/users.tsx:80-85 | page = pageIndex+1, limit = pageSize, the sorting pairs in order; filters are undefined exactly when there are no column filters, else the derived map |
| FilterPanel.ColumnValue | apps/client/src/components/data-table/filters.tsx:66 | a column has a filter value exactly when some entry has its id |
| FilterPanel.RemoveColumn | apps/client/src/components/data-table/filters.tsx:76 | clearing a column removes its value and leaves the other columns unchanged |
| FilterPanel.ReplaceColumn | apps/client/src/components/data-table/filters.tsx:79 | replacing sets that column and leaves the others unchanged |
| FilterPanel.ColumnValueAppend | apps/client/src/components/data-table/filters.tsx:79 | an appended entry is seen only when no earlier entry has its id |
| FilterPanel.SetColumnFilterGet | apps/client/src/components/data-table/filters.tsx:76-79 | after `setFilterValue`, that column reads the new value (none for undefined/"") and other columns are unchanged |
| FilterPanel.UrlUpdates | apps/client/src/components/data-table/filters.tsx:72-82 | `newUrlParams` has distinct keys |
| FilterPanel.MergeUrl | apps/client/src/components/data-table/filters.tsx:84 | given keys are set, or deleted when null; the other keys stay |
| FilterPanel.ApplyColumnsGet | apps/client/src/components/data-table/filters.tsx:74-82 | each pending key's column is cleared for `""`/`" "`/undefined and set to the value otherwise; a column the table lacks and keys that were not pending are unchanged |
| FilterPanel.UrlUpdatesGet | apps/client/src/components/data-table/filters.tsx:74-82 | each pending key's URL param is null when cleared and the value otherwise |
| FilterPanel.ClearParams | apps/client/src/components/data-table/filters.tsx:92-95 | null for exactly the declared filter ids |
| FilterPanel.TodosClears | apps/client/src/components/data-table/filters.tsx:131-142 | choosing "Todos" (`" "`) or emptying the select clears the column and its URL param on apply |
| FilterPanel.Panel.constructor | apps/client/src/components/data-table/filters.tsx:57-59 | the editor starts with nothing pending |
| FilterPanel.Panel.GetFilterValue | apps/client/src/components/data-table/filters.tsx:63-69 | the pending value if defined, else the column's filter, else `""` |
| FilterPanel.Panel.ChangeText | apps/client/src/components/data-table/filters.tsx:113-118 | the input sets that key's pending value; Apply becomes enabled |
| FilterPanel.Panel.ChangeSelect | apps/client/src/components/data-table/filters.tsx:131-136 | the select sets that key's pending value, with an empty value stored as undefined |
| FilterPanel.Panel.ApplyFilters | apps/client/src/components/data-table/filters.tsx:71-86 | the loop updates the column filters and the URL as specified, and pending becomes empty |
| FilterPanel.Panel.ClearFilters | apps/client/src/components/data-table/filters.tsx:88-97 | column filters reset, pending empty, badge 0, a null URL param for every declared filter |
| FilterPanel.Panel.ApplyDisabled | apps/client/src/components/data-table/filters.tsx:183 | Apply is disabled exactly when no key is pending |
| FilterPanel.Panel.BadgeCount | apps/client/src/components/data-table/filters.tsx:45 | the badge count is 0 exactly when no column has a filter value |
| FilterPanel.ApplyOutcome | apps/client/src/components/data-table/filters.tsx:71-86 | after apply: a cleared key has no URL param and no column filter; another value is both; keys that were not pending are unchanged |
| FilterPanel.ClearOutcome | apps/client/src/components/data-table/filters.tsx:88-97 | clearing removes exactly the declared filters' URL params |
| UrlParsers.SortItemOf | apps/client/src/lib/parsers.ts:11-14 | accepts exactly an object with a string id and a boolean desc |
| UrlParsers.SortItemsOf | apps/client/src/lib/parsers.ts:29 | the array schema passes exactly when every element does, keeping the order |
| UrlParsers.ParseSortingState | apps/client/src/lib/parsers.ts:26-41 | null unless the text decodes to an array whose items all pass the schema with allowed ids; then the items in order |
| UrlParsers.SortingJson | apps/client/src/lib/parsers.ts:42 | the serialised value is one `{id, desc}` object per item |
| UrlParsers.SortingEq | apps/client/src/lib/parsers.ts:43-48 | `eq` holds exactly for equal states |
| UrlParsers.SortingRoundTrip | apps/client/src/lib/parsers.ts:26-42 | parse(serialize(v)) = v when every id is allowed, and null otherwise |
| UrlParsers.FilterValueOf | apps/client/src/lib/parsers.ts:54 | a string, or an array of strings, and nothing else |
| UrlParsers.FilterItemOf | apps/client/src/lib/parsers.ts:52-58 | accepts exactly the five fields with their types and the two enumerations |
| UrlParsers.FilterItemsOf | apps/client/src/lib/parsers.ts:75 | every element must pass, keeping the order |
| UrlParsers.ParseFiltersState | apps/client/src/lib/parsers.ts:72-87 | the sorting parser's fail-closed rules, applied to the filter schema |
| UrlParsers.FilterValueJson | apps/client/src/lib/parsers.ts:88 | a serialised value parses back to itself |
| UrlParsers.FiltersJson | apps/client/src/lib/parsers.ts:88 | one JSON object per filter, in order |
| UrlParsers.ValueMatch | apps/client/src/lib/parsers.ts:97-100 | values match exactly when they are equal: arrays element-wise, and a string never matches an array |
| UrlParsers.FiltersEq | apps/client/src/lib/parsers.ts:89-107 | `eq` is position-wise equality with `filterId` disregarded |
| UrlParsers.FiltersRoundTrip | apps/client/src/lib/parsers.ts:72-88 | parse(serialize(v)) = v for valid variants and operators when every id is allowed, and null otherwise |
| UrlParsers.UnknownVariantRejected | apps/client/src/lib/parsers.ts:55-58 | one filter with a variant outside the set rejects the whole state |
| ClientAuth.SaveThenGet | apps/client/src/lib/auth.ts:13-24 | after saving, the getters return the two tokens; other keys are unchanged |
| ClientAuth.ClearThenGet | apps/client/src/lib/auth.ts:18-29 | after clearing, both getters return null; other keys are unchanged |
| ClientAuth.TokenStore.constructor | apps/client/src/lib/auth.ts:13-29 | the store holds the given items |
| ClientAuth.TokenStore.SaveTokens | apps/client/src/lib/auth.ts:13-16 | sets the access key, then the refresh key |
| ClientAuth.TokenStore.ClearTokens | apps/client/src/lib/auth.ts:26-29 | removes both keys |
| ClientAuth.TokenStore.GetAccessToken | apps/client/src/lib/auth.ts:18-20 | `null` exactly when no access token is stored, else the stored one |
| ClientAuth.TokenStore.GetRefreshToken | apps/client/src/lib/auth.ts:22-24 | `null` exactly when no refresh token is stored, else the stored one |
| ClientAuth.DecodeJWT | apps/client/src/lib/auth.ts:31-41 | null unless the token has exactly three `.`-separated parts; then whatever the middle part decodes to |
| ClientAuth.DecodeWellFormed | apps/client/src/lib/auth.ts:31-41 | `h.p.s` with dot-free parts decodes to the decoding of p |
| ClientAuth.GetUserRole | apps/client/src/lib/auth.ts:43-51 | null without a non-empty token; with one, the `role` of the decoded payload when it decodes to a truthy value, and null otherwise |
| ClientAuth.IsAdmin | apps/client/src/lib/auth.ts:53-55 | holds exactly when a non-empty access token is stored whose payload decodes to an object with role `"admin"` |
| ClientAuth.AdminAfterSave | apps/client/src/lib/auth.ts:43-55 | after saving a well-formed token, isAdmin holds exactly when its payload's role is `"admin"` |
| ClientAuth.NoRoleAfterClear | apps/client/src/lib/auth.ts:26-51 | after clearing there is no role and the user is not an admin |
| AxiosErrors.DataField | apps/client/src/lib/catch-axios-error.ts:9 | `error.response?.data?.<key>` is defined exactly on object data holding the key |
| AxiosErrors.CatchAxiosError | apps/client/src/lib/catch-axios-error.ts:5-23 | a non-Axios error shows the default message; every toast is the default, the translation of the reply's code, or the reply's truthy `message` or `error` |
| AxiosErrors.MessagePriority | apps/client/src/lib/catch-axios-error.ts:5-23 | exactly one toast: the default for non-Axios errors; otherwise the code's translation if it exists, else a truthy message, else a truthy error, else the default |
| AxiosErrors.ErrorBodyJson | apps/server/src/routes/auth.ts:53-59 | an error reply's JSON carries its `error` text |
| AxiosErrors.ServerReplyToast | apps/client/src/lib/catch-axios-error.ts:9-16 | a server error shows its code's translation when one exists, else its `error`; the role guard's 403 shows its `message` |
| AxiosErrors.ForbiddenToast | apps/server/src/middleware/role.ts:27-35 | the 403 toast reads "You don't have permission to access this resource" |
| ListProtocol.TokenRoundTrip | apps/client/src/services/users/service.ts:72 | the server parses one well-formed token back to its item |
| ListProtocol.SortRoundTrip | apps/client/src/services/users/service.ts:71-73 | the server's sort parser recovers the client's items when ids are non-empty, `,`-free and do not start with `-` |
| ListProtocol.LeadingDashFlipsDirection | apps/server/src/lib/pagination.ts:69-70 | an ascending id `-x` comes back as descending `x` |
| ListProtocol.Rendered | apps/client/src/services/users/service.ts:79-81 | each parameter goes out as text under its key, in order |
| ListProtocol.RenderedGet | apps/client/src/services/users/service.ts:79-81 | the server reads each key's value as its rendered text |
| ListProtocol.ReservedParsedBack | apps/client/src/services/users/service.ts:66-73 | the server reads back the effective page and limit (a 0 falls to the default), and the same sorting |
| ListProtocol.FiltersParsedBack | apps/client/src/services/users/service.ts:75-77 | the server's filters are exactly the client's non-empty filters |
| ListProtocol.RequestParsedBack | apps/server/src/lib/pagination.ts:57-88 | the request parses exactly when the effective page ≥ 1 and the limit is in [1, 100], with that pagination, the same sorting and exactly the non-empty filters |
| ListProtocol.TableStateReachesServer | apps/client/src/routes/admin/users.tsx:72-85 | from a valid table state the server pages with pageIndex+1 and pageSize, sorts as the table does, and filters on each column whose text is non-empty |

## Left out

- The 401 refresh interceptor of the client's HTTP wrapper is not modelled. It coordinates concurrent in-flight requests and redirects the browser.
- Query execution is not modelled. The database's answers to the count and page queries are function parameters, and ILIKE case folding is not evaluated. The two queries are not linked by a transaction.
- Password hashing, JWT signing and verification, `crypto.randomUUID` and `atob` are parameters; their behaviour is not modelled.
- `JSON.parse`/`JSON.stringify` are a decoder and an encoder given as parameters. zod's syntax for emails and numbers is a predicate and a coercion. How nuqs treats keys outside its configuration is not modelled.
- The column-filter behaviour of `@tanstack/react-table` is assumed. Setting `undefined` or `""` removes a column's entry; another value replaces in place or appends; `getFilterValue` reads the first entry. `resetColumnFilters` is taken to give the empty initial state.
- Dates are integer milliseconds. The local-time and daylight-saving effects of `setMinutes`/`setDate` are not modelled, so 30 days are always 30 × 24 hours.
- JavaScript number syntax and floats are not modelled. A page or limit that is a fraction or NaN is `NotInteger`.
- JavaScript's key order for integer-like keys and the keys inherited from `Object.prototype` are not modelled. Strings are sequences of characters, not UTF-16 code units.
- The module that defines the `ERROR_CODES` values is not part of this model, so codes are tags. The file that defines the filter variants and operators is not part of this model, so they are set parameters. The file with the filter and sort types is not part of this model either.
- Pagination.CreatePaginatedResponse: requires a limit ≥ 1. The limit always comes from a successful `parseQueryParams`, so a zero limit (`Infinity`/`NaN` pages) cannot reach it.
- The `details: error.issues` field of the 400 INVALID_INPUT replies is not modelled. The zod issue list belongs to the zod library, and the reply keeps only its `error` and `code`.
- Sending the reset email and all logging are left out. Neither changes a reply or a table.
- React's rendering, effects and the sequencing of state updates are not modelled. Each setter takes effect immediately.
- UsersRoute.ApiFiltersLast: column filter values are modelled as strings or string arrays. `String(value)` of other values (numbers, objects) is not modelled; the filter editor only ever stores strings.
- FilterPanel.Panel.GetFilterValue: the `as string` cast is not checked at run time; the model returns the column's value as stored.
- UsersService.GetUsersQuery: `Object.assign` is a library call, so the method applies it as one step instead of looping over the filters.
- Token rows are not given their own `id` column. The reset handler revokes the selected row by its position, which is the same row because token strings are unique.
- A JWT subject that is not a UUID is not modelled as a query failure in the role guard and the refresh handler. A subject with no user row answers 404 there.
- The UI-only components, form pages, React Query wrappers and server start-up code are not modelled.

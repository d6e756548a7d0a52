/**
 * The users service of the client (apps/client/src/services/users/service.ts):
 * the query parameters `getUsers` sends with the list request, and the
 * React Query keys of the users cache.
 */
module UsersService {
  import opened Wrappers
  import opened Strings
  import opened Records
  import opened Pagination

  /** `UsersListParams`; every member optional. */
  datatype UsersListParams = UsersListParams(
    page: Option<int>, limit: Option<int>,
    sorting: Option<seq<SortingItem>>, filters: Option<Entries<string>>)

  /** A value of `queryParams`: `string | number`. */
  datatype QueryValue = Num(n: int) | Str(s: string)

  /** One sort item on the wire: `-` for descending, then the id. */
  function SortToken(item: SortingItem): string {
    (if item.desc then "-" else "") + item.id
  }

  function SortTokens(items: seq<SortingItem>): (ts: seq<string>)
    ensures |ts| == |items| && forall i | 0 <= i < |ts| :: ts[i] == SortToken(items[i])
  {
    seq(|items|, i requires 0 <= i < |items| => SortToken(items[i]))
  }

  /** The `sort` parameter: the tokens joined by `,`. */
  function SerializeSort(items: seq<SortingItem>): (s: string)
    ensures |items| > 0 && (forall i | 0 <= i < |items| :: ',' !in items[i].id) ==> Split(s, ',') == SortTokens(items)
  {
    var tokens := SortTokens(items);
    if |items| > 0 && (forall i | 0 <= i < |items| :: ',' !in items[i].id) then
      assert forall k | 0 <= k < |tokens| :: ',' !in tokens[k] by {
        forall k | 0 <= k < |tokens| ensures ',' !in tokens[k] {
          assert tokens[k] == (if items[k].desc then "-" else "") + items[k].id;
        }
      }
      SplitJoin(tokens, ',');
      Join(tokens, ',')
    else Join(tokens, ',')
  }

  /** `if (params?.page) queryParams.page = params.page` */
  function PageStep(q: Entries<QueryValue>, params: UsersListParams): Entries<QueryValue> {
    if params.page.Some? && params.page.value != 0 then Put(q, "page", Num(params.page.value)) else q
  }

  /** `if (params?.limit) queryParams.limit = params.limit` */
  function LimitStep(q: Entries<QueryValue>, params: UsersListParams): Entries<QueryValue> {
    if params.limit.Some? && params.limit.value != 0 then Put(q, "limit", Num(params.limit.value)) else q
  }

  /** The `sort` assignment, for a present and non-empty sorting. */
  function SortStep(q: Entries<QueryValue>, params: UsersListParams): Entries<QueryValue> {
    if params.sorting.Some? && |params.sorting.value| > 0 then Put(q, "sort", Str(SerializeSort(params.sorting.value)))
    else q
  }

  /** `queryParams` before `Object.assign`. */
  function BaseParams(params: UsersListParams): (q: Entries<QueryValue>)
    ensures DistinctKeys(q)
  {
    SortStep(LimitStep(PageStep([], params), params), params)
  }

  /** Page and limit are present exactly when truthy (not 0), sort exactly for a non-empty sorting. */
  lemma BaseGet(params: UsersListParams, k: string)
    ensures Get(BaseParams(params), k) ==
      if k == "page" then
        (if params.page.Some? && params.page.value != 0 then Some(Num(params.page.value)) else None)
      else if k == "limit" then
        (if params.limit.Some? && params.limit.value != 0 then Some(Num(params.limit.value)) else None)
      else if k == "sort" then
        (if params.sorting.Some? && |params.sorting.value| > 0 then Some(Str(SerializeSort(params.sorting.value)))
         else None)
      else None
  {
    var q1 := PageStep([], params);
    var q2 := LimitStep(q1, params);
    assert Get(q1, k) == (if k == "page" && params.page.Some? && params.page.value != 0 then Some(Num(params.page.value)) else None);
    assert Get(q2, k) == (if k == "limit" && params.limit.Some? && params.limit.value != 0 then Some(Num(params.limit.value)) else Get(q1, k));
  }

  /** `Object.assign(q, filters)`: each filter entry assigned in order. */
  function AssignAll(q: Entries<QueryValue>, filters: Entries<string>): (r: Entries<QueryValue>)
    ensures DistinctKeys(q) ==> DistinctKeys(r)
  {
    if |filters| == 0 then q
    else
      var last := filters[|filters| - 1];
      Put(AssignAll(q, filters[..|filters| - 1]), last.0, Str(last.1))
  }

  /** The query parameters `getUsers(params)` sends with the list request. */
  function QueryParamsOf(params: Option<UsersListParams>): (q: Entries<QueryValue>)
    ensures DistinctKeys(q)
  {
    if params.None? then []
    else
      var base := BaseParams(params.value);
      if params.value.filters.Some? then AssignAll(base, params.value.filters.value) else base
  }

  /** `getUsers`: `queryParams` filled step by step, then `Object.assign` of the filters. */
  method GetUsersQuery(params: Option<UsersListParams>) returns (q: Entries<QueryValue>)
    ensures q == QueryParamsOf(params)
  {
    q := [];
    if params.None? {
      return;
    }
    var p := params.value;
    if p.page.Some? && p.page.value != 0 {
      q := Put(q, "page", Num(p.page.value));
    }
    assert q == PageStep([], p);
    if p.limit.Some? && p.limit.value != 0 {
      q := Put(q, "limit", Num(p.limit.value));
    }
    assert q == LimitStep(PageStep([], p), p);
    if p.sorting.Some? && |p.sorting.value| > 0 {
      q := Put(q, "sort", Str(SerializeSort(p.sorting.value)));
    }
    if p.filters.Some? {
      q := AssignAll(q, p.filters.value);
    }
  }

  /** After `Object.assign`, a filter key holds its filter value and every other key keeps its value. */
  lemma {:induction false} AssignAllGet(q: Entries<QueryValue>, filters: Entries<string>, k: string)
    requires DistinctKeys(filters)
    ensures Get(AssignAll(q, filters), k) ==
            (if Get(filters, k).Some? then Some(Str(Get(filters, k).value)) else Get(q, k))
  {
    if |filters| > 0 {
      var init := filters[..|filters| - 1];
      var last := filters[|filters| - 1];
      AssignAllGet(q, init, k);
      GetPrefix(filters, k);
    }
  }

  /**
   * What the request carries for one key: a filter named `page`, `limit` or
   * `sort` overwrites that parameter; page and limit are sent only when
   * truthy (not 0), sort only for a non-empty sorting.
   */
  lemma SentValue(params: UsersListParams, k: string)
    requires params.filters.Some? ==> DistinctKeys(params.filters.value)
    ensures var q := QueryParamsOf(Some(params));
            var f := if params.filters.Some? then Get(params.filters.value, k) else None;
            Get(q, k) ==
              if f.Some? then Some(Str(f.value))
              else if k == "page" then
                (if params.page.Some? && params.page.value != 0 then Some(Num(params.page.value)) else None)
              else if k == "limit" then
                (if params.limit.Some? && params.limit.value != 0 then Some(Num(params.limit.value)) else None)
              else if k == "sort" then
                (if params.sorting.Some? && |params.sorting.value| > 0 then Some(Str(SerializeSort(params.sorting.value)))
                 else None)
              else None
  {
    BaseGet(params, k);
    if params.filters.Some? {
      AssignAllGet(BaseParams(params), params.filters.value, k);
    }
  }

  /** A query-key element: a name or the params object of a list key. */
  datatype KeyPart = Name(name: string) | ListOf(params: UsersListParams)

  /** The params object of `usersKeys.list(params)`; `list()` has every member undefined. */
  const NoParams := UsersListParams(None, None, None, None)

  function AllKey(): seq<KeyPart> { [Name("users")] }
  function ListsKey(): seq<KeyPart> { AllKey() + [Name("list")] }
  function ListKey(params: UsersListParams): seq<KeyPart> { ListsKey() + [ListOf(params)] }
  function DetailsKey(): seq<KeyPart> { AllKey() + [Name("detail")] }
  function DetailKey(id: string): seq<KeyPart> { DetailsKey() + [Name(id)] }

  /** React Query's partial matching: `a` matches every key it is a prefix of. */
  predicate IsPrefix(a: seq<KeyPart>, b: seq<KeyPart>) {
    |a| <= |b| && b[..|a|] == a
  }

  /**
   * Invalidating `lists()` reaches every list query and no detail query;
   * `details()` reaches every detail query and no list query; `all()`
   * reaches both.
   */
  lemma KeyHierarchy(params: UsersListParams, id: string)
    ensures IsPrefix(ListsKey(), ListKey(params)) && IsPrefix(DetailsKey(), DetailKey(id))
    ensures IsPrefix(AllKey(), ListKey(params)) && IsPrefix(AllKey(), DetailKey(id))
    ensures !IsPrefix(ListsKey(), DetailKey(id)) && !IsPrefix(DetailsKey(), ListKey(params))
    ensures ListKey(params)[1] != DetailKey(id)[1]
  {
    assert DetailKey(id)[..2][1] == Name("detail");
    assert ListKey(params)[..2][1] == Name("list");
  }
}

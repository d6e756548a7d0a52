/**
 * The list request end to end: the client builds query parameters
 * (apps/client/src/services/users/service.ts) that the server parses back
 * (apps/server/src/lib/pagination.ts). Between the two, the query string
 * carries text: a number travels as `render(n)`, and the server's
 * `Number(...)` coercion is assumed to read back exactly what was rendered.
 */
module ListProtocol {
  import opened Wrappers
  import opened Strings
  import opened Records
  import opened Pagination
  import opened UsersService
  import opened UsersRoute

  /** Sort items the wire format can carry: a non-empty id with no `,` that does not start with `-`. */
  predicate SortSerializable(items: seq<SortingItem>) {
    forall i | 0 <= i < |items| :: |items[i].id| > 0 && ',' !in items[i].id && items[i].id[0] != '-'
  }

  /** One well-formed item survives its token. */
  lemma TokenRoundTrip(item: SortingItem)
    requires |item.id| > 0 && item.id[0] != '-'
    ensures ParseSortToken(SortToken(item)) == item
  {
    if item.desc {
      assert SortToken(item) == ['-'] + item.id;
      assert SortToken(item)[1..] == item.id;
    } else {
      assert SortToken(item) == item.id;
    }
  }

  /** The client's `sort` serialiser and the server's `sort` parser are inverse on such items. */
  lemma SortRoundTrip(items: seq<SortingItem>)
    requires |items| > 0 && SortSerializable(items)
    ensures ParseSort(Some(SerializeSort(items))) == items
  {
    var tokens := SortTokens(items);
    forall k | 0 <= k < |tokens| ensures ',' !in tokens[k] {
      assert tokens[k] == (if items[k].desc then "-" else "") + items[k].id;
    }
    SplitJoin(tokens, ',');
    var s := SerializeSort(items);
    assert |tokens[0]| > 0;
    assert s != "" by {
      if |tokens| > 1 {
        assert s == tokens[0] + [','] + Join(tokens[1..], ',');
      }
    }
    assert Split(s, ',') == tokens;
    var parsed := ParseSort(Some(s));
    forall i | 0 <= i < |items| ensures parsed[i] == items[i] {
      TokenRoundTrip(items[i]);
    }
  }

  /** An ascending item whose id starts with `-` comes back descending, without the `-`. */
  lemma LeadingDashFlipsDirection()
    ensures ParseSort(Some(SerializeSort([SortingItem("-x", false)]))) == [SortingItem("x", true)]
  {
    var items := [SortingItem("-x", false)];
    assert SortToken(items[0]) == "-x";
    assert SortTokens(items) == ["-x"];
    assert SerializeSort(items) == "-x";
    SplitWithoutSeparator("-x", ',');
    assert "-x"[1..] == "x";
  }

  /** A query value as text in the query string; numbers are rendered by `render`. */
  function ValueText(v: QueryValue, render: int -> string): string {
    match v
    case Num(n) => render(n)
    case Str(s) => s
  }

  /** The query parameters as the server receives them: every key in order, its value as text. */
  function Rendered(q: Entries<QueryValue>, render: int -> string): (r: Entries<Option<string>>)
    ensures |r| == |q| && forall i | 0 <= i < |q| :: r[i] == (q[i].0, Some(ValueText(q[i].1, render)))
  {
    if |q| == 0 then [] else [(q[0].0, Some(ValueText(q[0].1, render)))] + Rendered(q[1..], render)
  }

  lemma {:induction false} RenderedGet(q: Entries<QueryValue>, render: int -> string, k: string)
    ensures Lookup(Rendered(q, render), k) == if Get(q, k).Some? then Some(ValueText(Get(q, k).value, render)) else None
  {
    if |q| > 0 {
      RenderedGet(q[1..], render, k);
      assert Rendered(q, render)[1..] == Rendered(q[1..], render);
    }
  }

  /** No filter of the request is named `page`, `limit` or `sort`. */
  predicate NoReservedFilter(params: UsersListParams) {
    params.filters.Some? ==>
      Get(params.filters.value, "page").None? && Get(params.filters.value, "limit").None? &&
      Get(params.filters.value, "sort").None?
  }

  /** The page the server uses for a requested page: a falsy (`0`) or absent page is not sent, so the default applies. */
  function EffectivePage(page: Option<int>): int {
    if page.Some? && page.value != 0 then page.value else DefaultPage
  }

  function EffectiveLimit(limit: Option<int>): int {
    if limit.Some? && limit.value != 0 then limit.value else DefaultLimit
  }

  /** How the server reads `page`, `limit` and `sort` of what the client sent. */
  lemma {:induction false} ReservedParsedBack(params: UsersListParams, render: int -> string, coerce: Coercion)
    requires forall n :: coerce(render(n)) == Integer(n)
    requires params.filters.Some? ==> DistinctKeys(params.filters.value)
    requires NoReservedFilter(params)
    requires params.sorting.Some? ==> SortSerializable(params.sorting.value)
    ensures var rq := Rendered(QueryParamsOf(Some(params)), render);
            var page, limit := EffectivePage(params.page), EffectiveLimit(params.limit);
            && ParsePage(Lookup(rq, "page"), coerce) == (if page >= 1 then Some(page) else None)
            && ParseLimit(Lookup(rq, "limit"), coerce) == (if 1 <= limit <= MaxLimit then Some(limit) else None)
            && ParseSort(Lookup(rq, "sort")) == if params.sorting.Some? then params.sorting.value else []
  {
    var q := QueryParamsOf(Some(params));
    SentValue(params, "page");
    SentValue(params, "limit");
    SentValue(params, "sort");
    RenderedGet(q, render, "page");
    RenderedGet(q, render, "limit");
    RenderedGet(q, render, "sort");
    if params.sorting.Some? && |params.sorting.value| > 0 {
      SortRoundTrip(params.sorting.value);
    }
  }

  /** The server's filters are exactly the client's non-empty filters. */
  lemma {:induction false} FiltersParsedBack(params: UsersListParams, render: int -> string, k: string)
    requires params.filters.Some? ==> DistinctKeys(params.filters.value)
    requires NoReservedFilter(params)
    ensures var rq := Rendered(QueryParamsOf(Some(params)), render);
            Get(NonEmptyEntries(RestEntries(rq)), k) ==
              if params.filters.Some? && Get(params.filters.value, k).Some? && Get(params.filters.value, k).value != ""
              then Get(params.filters.value, k) else None
  {
    var q := QueryParamsOf(Some(params));
    var rq := Rendered(q, render);
    assert DistinctKeys(rq);
    FiltersAreNonEmptyNonReserved(rq, k);
    if !Reserved(k) {
      SentValue(params, k);
      RenderedGet(q, render, k);
    }
  }

  /**
   * What `parseQueryParams` makes of the request `getUsers(params)` sends:
   * it succeeds exactly when the effective page is at least 1 and the
   * effective limit lies in [1, 100]; then it has that page and limit, the
   * same sorting, and exactly the non-empty filters.
   */
  lemma {:induction false} RequestParsedBack(params: UsersListParams, render: int -> string, coerce: Coercion)
    requires forall n :: coerce(render(n)) == Integer(n)
    requires params.filters.Some? ==> DistinctKeys(params.filters.value)
    requires NoReservedFilter(params)
    requires params.sorting.Some? ==> SortSerializable(params.sorting.value)
    ensures var r := ParsedQueryOf(Rendered(QueryParamsOf(Some(params)), render), coerce);
            var page, limit := EffectivePage(params.page), EffectiveLimit(params.limit);
            && (r.Ok? <==> page >= 1 && 1 <= limit <= MaxLimit)
            && (r.Ok? ==> r.value.pagination == PaginationParams(page, limit))
            && (r.Ok? ==> r.value.sorting == if params.sorting.Some? then params.sorting.value else [])
            && (r.Ok? ==> forall k ::
                  Get(r.value.filters, k) ==
                    if params.filters.Some? && Get(params.filters.value, k).Some? && Get(params.filters.value, k).value != ""
                    then Get(params.filters.value, k) else None)
  {
    ReservedParsedBack(params, render, coerce);
    forall k ensures Get(NonEmptyEntries(RestEntries(Rendered(QueryParamsOf(Some(params)), render))), k) ==
                       if params.filters.Some? && Get(params.filters.value, k).Some? && Get(params.filters.value, k).value != ""
                       then Get(params.filters.value, k) else None
    {
      FiltersParsedBack(params, render, k);
    }
  }

  /**
   * From the table to the server: with a non-negative page index, a page
   * size in [1, 100] and column ids that are plain names, the server pages
   * with `pageIndex + 1` and `pageSize`, sorts as the table does, and filters
   * on each column whose derived text is non-empty.
   */
  lemma {:induction false} TableStateReachesServer(pageIndex: int, pageSize: int, sorting: seq<SortingItem>, filters: seq<ColumnFilter>,
                                render: int -> string, coerce: Coercion)
    requires forall n :: coerce(render(n)) == Integer(n)
    requires pageIndex >= 0 && 1 <= pageSize <= MaxLimit
    requires SortSerializable(sorting)
    requires forall i | 0 <= i < |filters| :: !Reserved(filters[i].id)
    ensures var api := ApiFiltersOf(filters);
            var r := ParsedQueryOf(Rendered(QueryParamsOf(Some(RequestOf(pageIndex, pageSize, sorting, api))), render), coerce);
            && r.Ok?
            && r.value.pagination == PaginationParams(pageIndex + 1, pageSize)
            && r.value.sorting == sorting
            && forall k :: Get(r.value.filters, k) == if Get(api, k).Some? && Get(api, k).value != "" then Get(api, k) else None
  {
    var api := ApiFiltersOf(filters);
    var params := RequestOf(pageIndex, pageSize, sorting, api);
    ApiFiltersAbsent(filters, "page");
    ApiFiltersAbsent(filters, "limit");
    ApiFiltersAbsent(filters, "sort");
    RequestParsedBack(params, render, coerce);
  }
}

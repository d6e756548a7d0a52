/**
 * Server side of the list protocol (apps/server/src/lib/pagination.ts):
 * parsing `page`/`limit`/`sort`/filters out of the query string, the page
 * offset, and the paginated envelope.
 */
module Pagination {
  import opened Wrappers
  import opened Strings
  import opened Records

  datatype SortingItem = SortingItem(id: string, desc: bool)
  datatype PaginationParams = PaginationParams(page: int, limit: int)
  datatype PaginationInfo = PaginationInfo(
    page: int, limit: int, total: int, totalPages: int, hasNext: bool, hasPrev: bool)
  datatype PaginatedResult<T> = PaginatedResult(data: seq<T>, pagination: PaginationInfo)

  /**
   * What `Number(s)` yields for a query string, as far as zod's `.int()` can
   * tell: a (safe) integer, or anything else (NaN, a fraction, an infinity).
   * JavaScript's number syntax is not modelled; a coercion is a parameter.
   */
  datatype Coerced = Integer(n: int) | NotInteger
  type Coercion = string -> Coerced

  /** A thrown `ZodError`, with the paths of the schema fields that failed. */
  datatype ZodError = ZodError(paths: set<string>)

  /** The normalised request: what `parseQueryParams` returns. */
  datatype ParsedQuery = ParsedQuery(
    pagination: PaginationParams, sorting: seq<SortingItem>, filters: Entries<string>)

  const DefaultPage := 1
  const DefaultLimit := 10
  const MaxLimit := 100

  /** The query parameters that are not filters. */
  predicate Reserved(key: string) {
    key == "page" || key == "limit" || key == "sort"
  }

  /** `query[key]`, where a present key holding `undefined` reads as absent. */
  function Lookup(query: Entries<Option<string>>, key: string): Option<string> {
    var found := Get(query, key);
    if found.Some? then found.value else None
  }

  /** `page: z.coerce.number().int().min(1).default(1)` */
  function ParsePage(raw: Option<string>, coerce: Coercion): (r: Option<int>)
    ensures raw.None? ==> r == Some(DefaultPage)
    ensures raw.Some? ==> (r.Some? <==> coerce(raw.value).Integer? && coerce(raw.value).n >= 1)
    ensures raw.Some? && r.Some? ==> r.value == coerce(raw.value).n
    ensures r.Some? ==> r.value >= 1
  {
    match raw
    case None => Some(DefaultPage)
    case Some(s) =>
      match coerce(s)
      case Integer(n) => if n >= 1 then Some(n) else None
      case NotInteger => None
  }

  /** `limit: z.coerce.number().int().min(1).max(100).default(10)` */
  function ParseLimit(raw: Option<string>, coerce: Coercion): (r: Option<int>)
    ensures raw.None? ==> r == Some(DefaultLimit)
    ensures raw.Some? ==> (r.Some? <==> coerce(raw.value).Integer? && 1 <= coerce(raw.value).n <= MaxLimit)
    ensures raw.Some? && r.Some? ==> r.value == coerce(raw.value).n
    ensures r.Some? ==> 1 <= r.value <= MaxLimit
  {
    match raw
    case None => Some(DefaultLimit)
    case Some(s) =>
      match coerce(s)
      case Integer(n) => if 1 <= n <= MaxLimit then Some(n) else None
      case NotInteger => None
  }

  /** One `sort` token: a leading `-` means descending and is removed, once. */
  function ParseSortToken(field: string): (item: SortingItem)
    ensures item.desc <==> |field| > 0 && field[0] == '-'
    ensures item.desc ==> field == ['-'] + item.id
    ensures !item.desc ==> item.id == field
  {
    var desc := StartsWith(field, "-");
    SortingItem(if desc then field[1..] else field, desc)
  }

  /** `params.sort.split(',').map(...)`, or `[]` when `sort` is absent or empty. */
  function ParseSort(sort: Option<string>): (items: seq<SortingItem>)
    ensures sort.None? || sort == Some("") ==> items == []
    ensures sort.Some? && sort.value != "" ==>
      |items| == |Split(sort.value, ',')| &&
      forall i :: 0 <= i < |items| ==> items[i] == ParseSortToken(Split(sort.value, ',')[i])
  {
    match sort
    case None => []
    case Some(s) =>
      if s == "" then [] else
      var tokens := Split(s, ',');
      seq(|tokens|, i requires 0 <= i < |tokens| => ParseSortToken(tokens[i]))
  }

  /** `const { page, limit, sort, ...filters } = query`: the entries left for filters. */
  function RestEntries(query: Entries<Option<string>>): (rest: Entries<Option<string>>)
    ensures forall k :: Get(rest, k) == (if Reserved(k) then None else Get(query, k))
    ensures DistinctKeys(query) ==> DistinctKeys(rest)
  {
    if |query| == 0 then []
    else if Reserved(query[0].0) then RestEntries(query[1..])
    else
      var tail := RestEntries(query[1..]);
      assert DistinctKeys(query) ==> Get(query[1..], query[0].0).None?;
      [query[0]] + tail
  }

  /** True for a value that passes `if (value)`: defined and not the empty string. */
  predicate Truthy(v: Option<string>) {
    v.Some? && v.value != ""
  }

  /** The entries `parseQueryParams` keeps as filters, in entry order. */
  function NonEmptyEntries(e: Entries<Option<string>>): (r: Entries<string>)
    ensures forall k :: Get(r, k).Some? ==> Get(e, k).Some?
    ensures |r| <= |e|
  {
    if |e| == 0 then []
    else
      var tail := NonEmptyEntries(e[1..]);
      if Truthy(e[0].1) then [(e[0].0, e[0].1.value)] + tail else tail
  }

  lemma {:induction false} NonEmptyEntriesAppend(e: Entries<Option<string>>, x: (string, Option<string>))
    ensures NonEmptyEntries(e + [x]) ==
      NonEmptyEntries(e) + (if Truthy(x.1) then [(x.0, x.1.value)] else [])
  {
    if |e| == 0 {
      assert e + [x] == [x];
    } else {
      assert (e + [x])[1..] == e[1..] + [x];
      NonEmptyEntriesAppend(e[1..], x);
    }
  }

  /** The value `parseQueryParams` returns or throws, as a specification. */
  function ParsedQueryOf(query: Entries<Option<string>>, coerce: Coercion): Result<ParsedQuery, ZodError> {
    var page := ParsePage(Lookup(query, "page"), coerce);
    var limit := ParseLimit(Lookup(query, "limit"), coerce);
    if page.None? || limit.None? then
      Err(ZodError((if page.None? then {"page"} else {}) + (if limit.None? then {"limit"} else {})))
    else
      Ok(ParsedQuery(PaginationParams(page.value, limit.value), ParseSort(Lookup(query, "sort")),
                     NonEmptyEntries(RestEntries(query))))
  }

  /**
   * `parseQueryParams`: the zod schema for page and limit, then the `sort`
   * tokens, then the `forEach` that copies every non-empty non-reserved entry.
   */
  method ParseQueryParams(query: Entries<Option<string>>, coerce: Coercion)
    returns (r: Result<ParsedQuery, ZodError>)
    requires DistinctKeys(query)
    ensures var page := ParsePage(Lookup(query, "page"), coerce);
            var limit := ParseLimit(Lookup(query, "limit"), coerce);
            && (r.Ok? <==> page.Some? && limit.Some?)
            && (r.Ok? ==> r.value == ParsedQuery(PaginationParams(page.value, limit.value),
                                                 ParseSort(Lookup(query, "sort")),
                                                 NonEmptyEntries(RestEntries(query))))
            && (r.Err? ==>
                  r.error.paths == (if page.None? then {"page"} else {}) + (if limit.None? then {"limit"} else {}))
            && r == ParsedQueryOf(query, coerce)
  {
    var rest := RestEntries(query);
    var page := ParsePage(Lookup(query, "page"), coerce);
    var limit := ParseLimit(Lookup(query, "limit"), coerce);
    if page.None? || limit.None? {
      r := Err(ZodError((if page.None? then {"page"} else {}) + (if limit.None? then {"limit"} else {})));
      return;
    }
    var sorting := ParseSort(Lookup(query, "sort"));

    var parsedFilters: Entries<string> := [];
    var i := 0;
    while i < |rest|
      invariant 0 <= i <= |rest|
      invariant parsedFilters == NonEmptyEntries(rest[..i])
    {
      var (key, value) := rest[i];
      assert rest[..i + 1] == rest[..i] + [rest[i]];
      NonEmptyEntriesAppend(rest[..i], rest[i]);
      if Truthy(value) {
        NextKeyIsNew(rest, i);
        parsedFilters := Put(parsedFilters, key, value.value);
      }
      i := i + 1;
    }
    assert rest[..i] == rest;
    r := Ok(ParsedQuery(PaginationParams(page.value, limit.value), sorting, parsedFilters));
  }

  /** With distinct keys, the key of entry `i` is not yet among the filters kept from the entries before it. */
  lemma NextKeyIsNew(rest: Entries<Option<string>>, i: nat)
    requires DistinctKeys(rest) && i < |rest|
    ensures Get(NonEmptyEntries(rest[..i]), rest[i].0).None?
  {
    var init := rest[..i];
    forall j | 0 <= j < |init| ensures init[j].0 != rest[i].0 {
      assert init[j] == rest[j];
    }
  }

  /**
   * The filters are exactly the non-reserved query keys whose value is
   * non-empty, each with its value unchanged.
   */
  lemma {:induction false} FiltersAreNonEmptyNonReserved(query: Entries<Option<string>>, k: string)
    requires DistinctKeys(query)
    ensures Get(NonEmptyEntries(RestEntries(query)), k) ==
      (if !Reserved(k) && Truthy(Lookup(query, k)) then Lookup(query, k) else None)
  {
    NonEmptyEntriesGet(RestEntries(query), k);
  }

  lemma {:induction false} NonEmptyEntriesGet(e: Entries<Option<string>>, k: string)
    requires DistinctKeys(e)
    ensures Get(NonEmptyEntries(e), k) ==
      (match Get(e, k) case Some(v) => if Truthy(v) then Some(v.value) else None case None => None)
  {
    if |e| > 0 {
      assert DistinctKeys(e[1..]);
      NonEmptyEntriesGet(e[1..], k);
      if e[0].0 == k {
        assert Get(e[1..], k).None?;
      }
    }
  }

  /** `Math.ceil(total / limit)` for a non-negative count and a positive limit. */
  function CeilDiv(total: nat, limit: int): (r: nat)
    requires limit >= 1
    ensures (r - 1) * limit < total <= r * limit
  {
    if total == 0 then 0 else (total - 1) / limit + 1
  }

  /** Multiplying by a non-negative factor keeps an order. */
  lemma MulMonotone(a: int, b: int, l: int)
    requires a <= b && l >= 0
    ensures a * l <= b * l
  {
    assert b * l - a * l == (b - a) * l;
  }

  /** `ceil` is determined by its two bounds. */
  lemma CeilDivUnique(total: nat, limit: int, n: int)
    requires limit >= 1
    requires (n - 1) * limit < total <= n * limit
    ensures n == CeilDiv(total, limit)
  {
    var c := CeilDiv(total, limit);
    if n < c {
      MulMonotone(n, c - 1, limit);
    } else if n > c {
      MulMonotone(c, n - 1, limit);
    }
  }

  /** `createPaginatedResponse`. */
  function CreatePaginatedResponse<T>(data: seq<T>, total: nat, params: PaginationParams): (r: PaginatedResult<T>)
    requires params.limit >= 1
    ensures r.data == data
    ensures r.pagination.page == params.page && r.pagination.limit == params.limit
    ensures r.pagination.total == total
    ensures r.pagination.totalPages >= 0
    ensures (r.pagination.totalPages - 1) * params.limit < total <= r.pagination.totalPages * params.limit
    ensures r.pagination.hasNext <==> params.page < r.pagination.totalPages
    ensures r.pagination.hasPrev <==> params.page > 1
  {
    var totalPages := CeilDiv(total, params.limit);
    PaginatedResult(data, PaginationInfo(params.page, params.limit, total, totalPages,
                                         params.page < totalPages, params.page > 1))
  }

  /** No rows means no pages, and so no next page. */
  lemma NoRowsNoPages<T>(data: seq<T>, params: PaginationParams)
    requires params.limit >= 1 && params.page >= 1
    ensures CreatePaginatedResponse(data, 0, params).pagination.totalPages == 0
    ensures !CreatePaginatedResponse(data, 0, params).pagination.hasNext
  {
  }

  /** `getOffset` */
  function GetOffset(page: int, limit: int): (offset: int)
    ensures page >= 1 && limit >= 0 ==> offset >= 0
    ensures offset + limit == page * limit
  {
    (page - 1) * limit
  }

  /** The offset is never negative for a valid page, and consecutive pages are `limit` rows apart. */
  lemma OffsetProperties(page: int, limit: int)
    requires page >= 1 && limit >= 1
    ensures GetOffset(page, limit) >= 0
    ensures GetOffset(page + 1, limit) == GetOffset(page, limit) + limit
  {
  }

  /**
   * Pages partition the rows: row `i` of `total` lies on page `i / limit + 1`,
   * which is one of the `totalPages` pages, and on no other page.
   */
  lemma {:induction false} EveryRowOnExactlyOnePage(total: nat, limit: int, i: nat, q: int)
    requires limit >= 1 && i < total
    ensures var p := i / limit + 1;
      && 1 <= p <= CeilDiv(total, limit)
      && GetOffset(p, limit) <= i < GetOffset(p, limit) + limit
      && (GetOffset(q, limit) <= i < GetOffset(q, limit) + limit ==> q == p)
  {
    DivBounds(i, limit);
    PageWithinTotal(total, limit, i);
    if GetOffset(q, limit) <= i < GetOffset(q, limit) + limit {
      PageOfRow(i, limit, q);
    }
  }

  /** Euclidean division of a row index by the page size. */
  lemma DivBounds(i: nat, limit: int)
    requires limit >= 1
    ensures 0 <= i / limit
    ensures (i / limit) * limit <= i < (i / limit) * limit + limit
  {
  }

  /** The page of an existing row is one of the `totalPages` pages. */
  lemma PageWithinTotal(total: nat, limit: int, i: nat)
    requires limit >= 1 && i < total
    ensures i / limit + 1 <= CeilDiv(total, limit)
  {
    var d := i / limit;
    var c := CeilDiv(total, limit);
    DivBounds(i, limit);
    if d + 1 > c {
      MulMonotone(c, d, limit);
    }
  }

  /** A row lies on page `q` only when `q` is `i / limit + 1`. */
  lemma PageOfRow(i: nat, limit: int, q: int)
    requires limit >= 1
    requires (q - 1) * limit <= i < (q - 1) * limit + limit
    ensures q == i / limit + 1
  {
    var d := i / limit;
    assert d * limit <= i < d * limit + limit;
    if q - 1 < d {
      MulMonotone(q, d, limit);
    } else if q - 1 > d {
      MulMonotone(d + 1, q - 1, limit);
    }
  }

  /** `hasNext` holds exactly when some row lies after the current page; `hasPrev` when the page does not start at row 0. */
  lemma {:induction false} HasNextMeansMoreRows<T>(data: seq<T>, total: nat, params: PaginationParams)
    requires params.limit >= 1 && params.page >= 1
    ensures var info := CreatePaginatedResponse(data, total, params).pagination;
      && (info.hasNext <==> GetOffset(params.page, params.limit) + params.limit < total)
      && (info.hasPrev <==> GetOffset(params.page, params.limit) > 0)
  {
    var c := CeilDiv(total, params.limit);
    var p, l := params.page, params.limit;
    assert GetOffset(p, l) + l == p * l;
    if p < c {
      MulMonotone(p, c - 1, l);
    } else {
      MulMonotone(c, p, l);
    }
    if p > 1 {
      MulMonotone(1, p - 1, l);
    }
  }
}

/**
 * The admin users page (apps/client/src/routes/admin/users.tsx): the table
 * state held in React state cells, the `apiFilters` map derived from the
 * column filters, and the list request built from both.
 */
module UsersRoute {
  import opened Wrappers
  import opened Strings
  import opened Records
  import opened Pagination
  import opened UsersService

  /** A column filter value: the filter panel stores strings; a multi-value filter is an array. */
  datatype FilterValue = Text(s: string) | List(items: seq<string>)

  /** One entry of `ColumnFiltersState`. */
  datatype ColumnFilter = ColumnFilter(id: string, value: FilterValue)

  /** `Array.isArray(v) ? v.join(',') : String(v)` */
  function FilterText(v: FilterValue): string {
    match v
    case Text(s) => s
    case List(items) => Join(items, ',')
  }

  /** The `apiFilters` object after the first `|filters|` iterations of the `forEach`. */
  function ApiFiltersOf(filters: seq<ColumnFilter>): (r: Entries<string>)
    ensures DistinctKeys(r)
  {
    if |filters| == 0 then []
    else
      var last := filters[|filters| - 1];
      Put(ApiFiltersOf(filters[..|filters| - 1]), last.id, FilterText(last.value))
  }

  /** The `apiFilters` memo: one assignment per column filter, in order. */
  method ApiFilters(filters: seq<ColumnFilter>) returns (result: Entries<string>)
    ensures result == ApiFiltersOf(filters)
  {
    result := [];
    var i := 0;
    while i < |filters|
      invariant 0 <= i <= |filters|
      invariant result == ApiFiltersOf(filters[..i])
    {
      assert filters[..i + 1][..i] == filters[..i];
      result := Put(result, filters[i].id, FilterText(filters[i].value));
      i := i + 1;
    }
    assert filters[..i] == filters;
  }

  /** A column id maps to the text of its last filter (the only one when ids are distinct). */
  lemma {:induction false} ApiFiltersLast(filters: seq<ColumnFilter>, i: nat)
    requires i < |filters|
    requires forall j | i < j < |filters| :: filters[j].id != filters[i].id
    ensures Get(ApiFiltersOf(filters), filters[i].id) == Some(FilterText(filters[i].value))
  {
    var n := |filters| - 1;
    if i < n {
      var init := filters[..n];
      LastInPrefix(filters, i);
      ApiFiltersLast(init, i);
      assert filters[n].id != filters[i].id;
    }
  }

  /** The last filter of a column before the final one is still the last in the prefix without it. */
  lemma LastInPrefix(filters: seq<ColumnFilter>, i: nat)
    requires i < |filters| - 1
    requires forall j | i < j < |filters| :: filters[j].id != filters[i].id
    ensures var init := filters[..|filters| - 1];
            init[i] == filters[i] && forall j | i < j < |init| :: init[j].id != init[i].id
  {
    var init := filters[..|filters| - 1];
    forall j | i < j < |init| ensures init[j].id != init[i].id {
      assert init[j] == filters[j];
    }
  }

  /** An id with no column filter is absent from the derived map. */
  lemma {:induction false} ApiFiltersAbsent(filters: seq<ColumnFilter>, k: string)
    requires forall i | 0 <= i < |filters| :: filters[i].id != k
    ensures Get(ApiFiltersOf(filters), k).None?
  {
    if |filters| > 0 {
      var n := |filters| - 1;
      var init := filters[..n];
      forall i | 0 <= i < |init| ensures init[i].id != k {
        assert init[i] == filters[i];
      }
      ApiFiltersAbsent(init, k);
      assert filters[n].id != k;
    }
  }

  /** The derived map is empty exactly when there are no column filters. */
  lemma ApiFiltersEmpty(filters: seq<ColumnFilter>)
    ensures |ApiFiltersOf(filters)| == 0 <==> |filters| == 0
  {
    if |filters| > 0 {
      var last := filters[|filters| - 1];
      assert Get(ApiFiltersOf(filters), last.id).Some?;
    }
  }

  /** The params `RouteComponent` passes to `useUsersList`. */
  function RequestOf(pageIndex: int, pageSize: int, sorting: seq<SortingItem>, apiFilters: Entries<string>)
    : UsersListParams
  {
    UsersListParams(Some(pageIndex + 1), Some(pageSize), Some(sorting),
                    if |apiFilters| > 0 then Some(apiFilters) else None)
  }

  /** `data?.pagination.totalPages ?? 0` */
  function PageCount(data: Option<PaginationInfo>): (n: int)
    ensures data.None? ==> n == 0
  {
    if data.Some? then data.value.totalPages else 0
  }

  /** Before the first response the table shows no pages; afterwards it shows the server's page count. */
  lemma PageCountFollowsServer<T>(rows: seq<T>, total: nat, params: PaginationParams)
    requires params.limit >= 1
    ensures PageCount(Some(CreatePaginatedResponse(rows, total, params).pagination)) == CeilDiv(total, params.limit)
    ensures PageCount(None) == 0
  {
  }

  /** The three `useState` cells of `RouteComponent`. */
  class TableState {
    var pageIndex: int
    var pageSize: int
    var sorting: seq<SortingItem>
    var filters: seq<ColumnFilter>

    /** Page index 0, page size 10, no sorting, no filters. */
    constructor ()
      ensures pageIndex == 0 && pageSize == 10 && sorting == [] && filters == []
    {
      pageIndex := 0;
      pageSize := 10;
      sorting := [];
      filters := [];
    }

    /** `onPaginationChange={setPagination}` */
    method SetPagination(index: int, size: int)
      modifies this
      ensures pageIndex == index && pageSize == size
      ensures sorting == old(sorting) && filters == old(filters)
    {
      pageIndex, pageSize := index, size;
    }

    /** `onSortingChange={setSorting}`: the page is not reset. */
    method SetSorting(s: seq<SortingItem>)
      modifies this
      ensures sorting == s
      ensures pageIndex == old(pageIndex) && pageSize == old(pageSize) && filters == old(filters)
    {
      sorting := s;
    }

    /** `onFiltersChange={setFilters}`: the page is not reset. */
    method SetFilters(f: seq<ColumnFilter>)
      modifies this
      ensures filters == f
      ensures pageIndex == old(pageIndex) && pageSize == old(pageSize) && sorting == old(sorting)
    {
      filters := f;
    }

    /**
     * The request for the current state: page `pageIndex + 1`, limit
     * `pageSize`, the sorting pairs in order, and the derived filters, left
     * undefined when there are no column filters.
     */
    method Request() returns (params: UsersListParams)
      ensures params == RequestOf(pageIndex, pageSize, sorting, ApiFiltersOf(filters))
      ensures params.page == Some(pageIndex + 1) && params.limit == Some(pageSize)
      ensures params.sorting == Some(sorting)
      ensures params.filters.None? <==> |filters| == 0
      ensures params.filters.Some? ==> params.filters.value == ApiFiltersOf(filters)
    {
      var apiFilters := ApiFilters(filters);
      var s := sorting;
      ApiFiltersEmpty(filters);
      var pairs := seq(|s|, i requires 0 <= i < |s| => SortingItem(s[i].id, s[i].desc));
      assert pairs == s;
      params := UsersListParams(Some(pageIndex + 1), Some(pageSize), Some(pairs),
                                if |apiFilters| > 0 then Some(apiFilters) else None);
    }
  }
}

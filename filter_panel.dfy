/**
 * The filter editor of the data table
 * (apps/client/src/components/data-table/filters.tsx): edits go to a pending
 * map; applying moves them onto the table's column filters and the URL;
 * clearing resets both.
 *
 * The table's column-filter operations behave as `@tanstack/react-table`
 * documents them: `setFilterValue(undefined)` or an empty string removes the
 * column's entry, another value replaces the existing entry in place or is
 * appended, and `getFilterValue` reads the first entry with that id.
 * `setUrlParams` with a partial object sets the given keys, deletes those
 * given `null`, and leaves the others.
 */
module FilterPanel {
  import opened Wrappers
  import opened Records
  import opened UsersRoute

  /** `column.getFilterValue()`: the first entry with that id. */
  function ColumnValue(fs: seq<ColumnFilter>, id: string): (r: Option<FilterValue>)
    ensures r.None? <==> forall i | 0 <= i < |fs| :: fs[i].id != id
  {
    if |fs| == 0 then None
    else if fs[0].id == id then Some(fs[0].value)
    else ColumnValue(fs[1..], id)
  }

  /** `old.filter((d) => d.id !== id)` */
  function RemoveColumn(fs: seq<ColumnFilter>, id: string): (r: seq<ColumnFilter>)
    ensures ColumnValue(r, id).None?
    ensures forall k | k != id :: ColumnValue(r, k) == ColumnValue(fs, k)
  {
    if |fs| == 0 then []
    else if fs[0].id == id then RemoveColumn(fs[1..], id)
    else [fs[0]] + RemoveColumn(fs[1..], id)
  }

  /** `old.map((d) => d.id === id ? { id, value } : d)` */
  function ReplaceColumn(fs: seq<ColumnFilter>, id: string, value: FilterValue): (r: seq<ColumnFilter>)
    ensures ColumnValue(fs, id).Some? ==> ColumnValue(r, id) == Some(value)
    ensures forall k | k != id :: ColumnValue(r, k) == ColumnValue(fs, k)
  {
    if |fs| == 0 then []
    else [if fs[0].id == id then ColumnFilter(id, value) else fs[0]] + ReplaceColumn(fs[1..], id, value)
  }

  /** `column.setFilterValue(value)`: remove on `undefined` or `""`, else replace or append. */
  function SetColumnFilter(fs: seq<ColumnFilter>, id: string, value: Option<string>): (r: seq<ColumnFilter>)
  {
    if value.None? || value.value == "" then RemoveColumn(fs, id)
    else if ColumnValue(fs, id).Some? then ReplaceColumn(fs, id, Text(value.value))
    else fs + [ColumnFilter(id, Text(value.value))]
  }

  lemma {:induction false} ColumnValueAppend(fs: seq<ColumnFilter>, f: ColumnFilter, k: string)
    ensures ColumnValue(fs + [f], k) == if ColumnValue(fs, k).Some? then ColumnValue(fs, k)
                                       else if f.id == k then Some(f.value) else None
  {
    if |fs| > 0 {
      assert (fs + [f])[1..] == fs[1..] + [f];
      ColumnValueAppend(fs[1..], f, k);
    } else {
      assert fs + [f] == [f];
    }
  }

  /** After `setFilterValue`, that column reads the new value (or nothing) and every other column is unchanged. */
  lemma SetColumnFilterGet(fs: seq<ColumnFilter>, id: string, value: Option<string>, k: string)
    ensures ColumnValue(SetColumnFilter(fs, id, value), k) ==
      if k != id then ColumnValue(fs, k)
      else if value.None? || value.value == "" then None
      else Some(Text(value.value))
  {
    ColumnValueAppend(fs, ColumnFilter(id, Text(if value.Some? then value.value else "")), k);
  }

  /** The values `applyFilters` treats as "no filter": `""`, `undefined` and the `" "` sentinel. */
  predicate Cleared(value: Option<string>) {
    value.None? || value.value == "" || value.value == " "
  }

  /** One iteration of `applyFilters` on the column filters; an unknown column is skipped. */
  function ApplyColumnStep(fs: seq<ColumnFilter>, entry: (string, Option<string>), columns: set<string>)
    : seq<ColumnFilter>
  {
    if entry.0 !in columns then fs
    else SetColumnFilter(fs, entry.0, if Cleared(entry.1) then None else entry.1)
  }

  /** The column filters after `applyFilters` has visited the given pending entries. */
  function ApplyColumns(fs: seq<ColumnFilter>, pending: Entries<Option<string>>, columns: set<string>)
    : seq<ColumnFilter>
  {
    if |pending| == 0 then fs
    else ApplyColumnStep(ApplyColumns(fs, pending[..|pending| - 1], columns), pending[|pending| - 1], columns)
  }

  /** Visiting one more pending entry is one more step on the column filters and one more URL update. */
  lemma ApplyStep(fs: seq<ColumnFilter>, pending: Entries<Option<string>>, i: nat, columns: set<string>)
    requires i < |pending|
    ensures ApplyColumns(fs, pending[..i + 1], columns) ==
            ApplyColumnStep(ApplyColumns(fs, pending[..i], columns), pending[i], columns)
    ensures UrlUpdates(pending[..i + 1]) ==
            Put(UrlUpdates(pending[..i]), pending[i].0, if Cleared(pending[i].1) then None else pending[i].1)
  {
    assert pending[..i + 1][..i] == pending[..i];
  }

  /** `newUrlParams` after visiting the given pending entries: `null` (`None`) for a cleared value. */
  function UrlUpdates(pending: Entries<Option<string>>): (r: Entries<Option<string>>)
    ensures DistinctKeys(r)
  {
    if |pending| == 0 then []
    else
      var last := pending[|pending| - 1];
      Put(UrlUpdates(pending[..|pending| - 1]), last.0, if Cleared(last.1) then None else last.1)
  }

  function KeySet<V>(e: Entries<V>): set<string> {
    set i | 0 <= i < |e| :: e[i].0
  }

  /** `setUrlParams(updates)`: given keys are set, or deleted when `null`; the rest stay. */
  function MergeUrl(url: map<string, string>, updates: Entries<Option<string>>): (r: map<string, string>)
    ensures forall k | Get(updates, k).None? :: (k in r <==> k in url) && (k in url ==> r[k] == url[k])
    ensures forall k | Get(updates, k).Some? :: (k in r <==> Get(updates, k).value.Some?) &&
                                               (k in r ==> r[k] == Get(updates, k).value.value)
  {
    map k | k in url.Keys + KeySet(updates) && (if Get(updates, k).Some? then Get(updates, k).value.Some? else k in url)
      :: if Get(updates, k).Some? then Get(updates, k).value.value else url[k]
  }

  /** A pending pair already visited keeps its last meaning in the column filters. */
  lemma {:induction false} ApplyColumnsGet(fs: seq<ColumnFilter>, pending: Entries<Option<string>>, columns: set<string>, k: string)
    requires DistinctKeys(pending)
    ensures ColumnValue(ApplyColumns(fs, pending, columns), k) ==
      match Get(pending, k)
      case None => ColumnValue(fs, k)
      case Some(v) =>
        if k !in columns then ColumnValue(fs, k)
        else if Cleared(v) then None
        else Some(Text(v.value))
  {
    if |pending| > 0 {
      var n := |pending| - 1;
      var init := pending[..n];
      assert DistinctKeys(init);
      ApplyColumnsGet(fs, init, columns, k);
      GetPrefix(pending, k);
      var before := ApplyColumns(fs, init, columns);
      if pending[n].0 in columns {
        SetColumnFilterGet(before, pending[n].0, if Cleared(pending[n].1) then None else pending[n].1, k);
      }
    }
  }

  /** `newUrlParams` holds, for each pending key, `null` when cleared and the value otherwise. */
  lemma {:induction false} UrlUpdatesGet(pending: Entries<Option<string>>, k: string)
    requires DistinctKeys(pending)
    ensures Get(UrlUpdates(pending), k) ==
      match Get(pending, k)
      case None => None
      case Some(v) => Some(if Cleared(v) then None else v)
  {
    if |pending| > 0 {
      var n := |pending| - 1;
      var init := pending[..n];
      assert DistinctKeys(init);
      UrlUpdatesGet(init, k);
      GetPrefix(pending, k);
    }
  }

  /** `clearParams`: `null` for every declared filter id. */
  function ClearParams(ids: seq<string>): (r: Entries<Option<string>>)
    ensures forall k :: Get(r, k) == if k in ids then Some(None) else None
  {
    if |ids| == 0 then []
    else Put(ClearParams(ids[..|ids| - 1]), ids[|ids| - 1], None)
  }

  /** `select` `onValueChange`: `value || undefined`. */
  function SelectValue(value: string): Option<string> {
    if value == "" then None else Some(value)
  }

  /** The "Todos" option (`" "`) and an emptied select both clear the filter on apply. */
  lemma TodosClears(pending: Entries<Option<string>>, fs: seq<ColumnFilter>, columns: set<string>, id: string, choice: string)
    requires DistinctKeys(pending)
    requires choice == " " || choice == ""
    ensures var p := Put(pending, id, SelectValue(choice));
            && (id in columns ==> ColumnValue(ApplyColumns(fs, p, columns), id).None?)
            && Get(UrlUpdates(p), id) == Some(None)
  {
    var p := Put(pending, id, SelectValue(choice));
    ApplyColumnsGet(fs, p, columns, id);
    UrlUpdatesGet(p, id);
  }

  /** The editor's state: its own pending map and URL state, and the table's column filters. */
  class Panel {
    /** The declared filters' ids, in declaration order (the `filters` prop). */
    var filterIds: seq<string>
    /** The ids of the table's columns: `table.getColumn(id)` is defined exactly for these. */
    var columns: set<string>
    /** `pendingFilters`; a key may hold `undefined`. */
    var pending: Entries<Option<string>>
    /** `table.getState().columnFilters` */
    var columnFilters: seq<ColumnFilter>
    /** The URL query state of the declared filters. */
    var url: map<string, string>

    ghost predicate Valid()
      reads this
    {
      DistinctKeys(pending)
    }

    /** The editor opens with nothing pending. */
    constructor (filterIds: seq<string>, columns: set<string>, columnFilters: seq<ColumnFilter>, url: map<string, string>)
      ensures Valid()
      ensures this.filterIds == filterIds && this.columns == columns
      ensures this.columnFilters == columnFilters && this.url == url && pending == []
    {
      this.filterIds := filterIds;
      this.columns := columns;
      this.columnFilters := columnFilters;
      this.url := url;
      pending := [];
    }

    /**
     * `getFilterValue`: the pending value if defined, else the column's
     * current filter, else the empty string.
     */
    function GetFilterValue(columnId: string): (r: FilterValue)
      reads this
      ensures var p := Get(pending, columnId);
              p.Some? && p.value.Some? ==> r == Text(p.value.value)
      ensures var p := Get(pending, columnId);
              !(p.Some? && p.value.Some?) && columnId in columns && ColumnValue(columnFilters, columnId).Some? ==>
                r == ColumnValue(columnFilters, columnId).value
      ensures var p := Get(pending, columnId);
              !(p.Some? && p.value.Some?) && (columnId !in columns || ColumnValue(columnFilters, columnId).None?) ==>
                r == Text("")
    {
      var p := Get(pending, columnId);
      if p.Some? && p.value.Some? then Text(p.value.value)
      else if columnId in columns && ColumnValue(columnFilters, columnId).Some? then ColumnValue(columnFilters, columnId).value
        else Text("")
    }

    /** The text input's `onChange`: `{ ...pendingFilters, [id]: value }`. */
    method ChangeText(id: string, value: string)
      requires Valid()
      modifies this
      ensures Valid()
      ensures pending == Put(old(pending), id, Some(value)) && !ApplyDisabled()
      ensures columnFilters == old(columnFilters) && url == old(url)
      ensures columns == old(columns) && filterIds == old(filterIds)
    {
      pending := Put(pending, id, Some(value));
    }

    /** The select's `onValueChange`: `{ ...pendingFilters, [id]: value || undefined }`. */
    method ChangeSelect(id: string, value: string)
      requires Valid()
      modifies this
      ensures Valid()
      ensures pending == Put(old(pending), id, SelectValue(value)) && !ApplyDisabled()
      ensures columnFilters == old(columnFilters) && url == old(url)
      ensures columns == old(columns) && filterIds == old(filterIds)
    {
      pending := Put(pending, id, SelectValue(value));
    }

    /**
     * `applyFilters`: each pending entry, in order, updates its column (if the
     * table has it) and its URL param; then the URL is set and pending emptied.
     */
    method ApplyFilters()
      requires Valid()
      modifies this
      ensures Valid()
      ensures columnFilters == ApplyColumns(old(columnFilters), old(pending), columns)
      ensures url == MergeUrl(old(url), UrlUpdates(old(pending)))
      ensures pending == [] && ApplyDisabled()
      ensures columns == old(columns) && filterIds == old(filterIds)
    {
      var entries := pending;
      var newUrlParams: Entries<Option<string>> := [];
      var i := 0;
      while i < |entries|
        invariant 0 <= i <= |entries|
        invariant columnFilters == ApplyColumns(old(columnFilters), entries[..i], columns)
        invariant newUrlParams == UrlUpdates(entries[..i])
        invariant columns == old(columns) && filterIds == old(filterIds) && url == old(url)
      {
        var (columnId, value) := entries[i];
        ApplyStep(old(columnFilters), entries, i, columns);
        if Cleared(value) {
          if columnId in columns {
            columnFilters := SetColumnFilter(columnFilters, columnId, None);
          }
          newUrlParams := Put(newUrlParams, columnId, None);
        } else {
          if columnId in columns {
            columnFilters := SetColumnFilter(columnFilters, columnId, value);
          }
          newUrlParams := Put(newUrlParams, columnId, value);
        }
        i := i + 1;
      }
      assert entries[..i] == entries;
      url := MergeUrl(url, newUrlParams);
      pending := [];
    }

    /**
     * `clearFilters`: the column filters are reset to the table's initial
     * empty state, pending is emptied, and every declared filter's URL param
     * is set to `null`.
     */
    method ClearFilters()
      requires Valid()
      modifies this
      ensures Valid()
      ensures columnFilters == [] && pending == [] && BadgeCount() == 0 && ApplyDisabled()
      ensures url == MergeUrl(old(url), ClearParams(filterIds))
      ensures columns == old(columns) && filterIds == old(filterIds)
    {
      columnFilters := [];
      pending := [];
      var clearParams: Entries<Option<string>> := [];
      var i := 0;
      while i < |filterIds|
        invariant 0 <= i <= |filterIds|
        invariant clearParams == ClearParams(filterIds[..i])
      {
        assert filterIds[..i + 1][..i] == filterIds[..i];
        clearParams := Put(clearParams, filterIds[i], None);
        i := i + 1;
      }
      assert filterIds[..i] == filterIds;
      url := MergeUrl(url, clearParams);
    }

    /** The apply button is disabled exactly when nothing is pending (an `undefined` entry still counts). */
    predicate ApplyDisabled()
      reads this
      ensures ApplyDisabled() <==> forall k :: Get(pending, k).None?
    {
      assert |pending| > 0 ==> Get(pending, pending[0].0).Some?;
      |pending| == 0
    }

    /** The badge on the trigger: the number of column filters. */
    function BadgeCount(): (n: nat)
      reads this
      ensures n == 0 <==> forall k :: ColumnValue(columnFilters, k).None?
    {
      assert |columnFilters| > 0 ==> ColumnValue(columnFilters, columnFilters[0].id).Some?;
      |columnFilters|
    }
  }

  /**
   * After apply, a pending key with a cleared value has no column filter and
   * no URL param; any other pending value is the column's filter (when the
   * table has that column) and its URL param; keys that were not pending keep
   * their column filter and URL param.
   */
  lemma ApplyOutcome(fs: seq<ColumnFilter>, pending: Entries<Option<string>>, columns: set<string>,
                     url: map<string, string>, k: string)
    requires DistinctKeys(pending)
    ensures var fs' := ApplyColumns(fs, pending, columns);
            var url' := MergeUrl(url, UrlUpdates(pending));
            && (Get(pending, k).None? ==>
                  ColumnValue(fs', k) == ColumnValue(fs, k) && (k in url' <==> k in url) && (k in url ==> url'[k] == url[k]))
            && (Get(pending, k).Some? && Cleared(Get(pending, k).value) ==>
                  k !in url' && (k in columns ==> ColumnValue(fs', k).None?))
            && (Get(pending, k).Some? && !Cleared(Get(pending, k).value) ==>
                  k in url' && url'[k] == Get(pending, k).value.value &&
                  (k in columns ==> ColumnValue(fs', k) == Some(Text(Get(pending, k).value.value))))
  {
    ApplyColumnsGet(fs, pending, columns, k);
    UrlUpdatesGet(pending, k);
  }

  /** Clearing removes exactly the declared filters' URL params. */
  lemma ClearOutcome(url: map<string, string>, ids: seq<string>, k: string)
    ensures var url' := MergeUrl(url, ClearParams(ids));
            (k in url' <==> k in url && k !in ids) && (k in url' ==> url'[k] == url[k])
  {
  }
}

/**
 * The URL-state parsers of the data table (apps/client/src/lib/parsers.ts):
 * sorting and filters are JSON arrays in the query string, validated with a
 * zod schema and an optional allow-list of column ids, failing closed to
 * `null` (`None`). `JSON.parse` and `JSON.stringify` are parameters: a
 * decoder that fails (`None`) where `JSON.parse` throws, and an encoder.
 */
module UrlParsers {
  import opened Wrappers
  import opened Json
  import opened Pagination
  import opened UsersRoute

  type Decoder = string -> Option<Json>
  type Encoder = Json -> string

  /** `columnIds ? new Set(columnIds) : null`: an absent list disables the check; an empty one rejects every id. */
  predicate Allowed(validKeys: Option<set<string>>, id: string) {
    validKeys.None? || id in validKeys.value
  }

  // ---------------------------------------------------------------- sorting

  /** `sortingItemSchema`: an object with a string `id` and a boolean `desc`; other keys are stripped. */
  function SortItemOf(j: Json): (r: Option<SortingItem>)
    ensures r.Some? <==> j.JObj? && "id" in j.fields && j.fields["id"].JStr? && "desc" in j.fields && j.fields["desc"].JBool?
    ensures r.Some? ==> r.value == SortingItem(j.fields["id"].s, j.fields["desc"].b)
  {
    match j
    case JObj(f) =>
      if "id" in f && f["id"].JStr? && "desc" in f && f["desc"].JBool? then Some(SortingItem(f["id"].s, f["desc"].b))
      else None
    case _ => None
  }

  /** `z.array(sortingItemSchema)`: every element must pass. */
  function SortItemsOf(items: seq<Json>): (r: Option<seq<SortingItem>>)
    ensures r.Some? <==> forall i | 0 <= i < |items| :: SortItemOf(items[i]).Some?
    ensures r.Some? ==> |r.value| == |items| && forall i | 0 <= i < |items| :: SortItemOf(items[i]) == Some(r.value[i])
  {
    if |items| == 0 then Some([])
    else
      var head := SortItemOf(items[0]);
      var tail := SortItemsOf(items[1..]);
      if head.None? || tail.None? then
        assert head.None? ==> SortItemOf(items[0]).None?;
        assert tail.None? ==> exists i | 1 <= i < |items| :: SortItemOf(items[i]).None? by {
          if tail.None? {
            var i :| 0 <= i < |items[1..]| && SortItemOf(items[1..][i]).None?;
            assert items[1..][i] == items[i + 1];
          }
        }
        None
      else
        assert forall i | 1 <= i < |items| :: items[i] == items[1..][i - 1];
        Some([head.value] + tail.value)
  }

  /**
   * The sorting parser's `parse`: `null` when the text is not JSON, not an
   * array, an element fails the schema, or an id is outside the allow-list;
   * otherwise the items in input order.
   */
  function ParseSortingState(value: string, decode: Decoder, validKeys: Option<set<string>>)
    : (r: Option<seq<SortingItem>>)
    ensures r.Some? ==>
      && decode(value).Some? && decode(value).value.JArr?
      && SortItemsOf(decode(value).value.items) == r
      && forall i | 0 <= i < |r.value| :: Allowed(validKeys, r.value[i].id)
    ensures (&& decode(value).Some? && decode(value).value.JArr? && SortItemsOf(decode(value).value.items).Some?
             && forall i | 0 <= i < |SortItemsOf(decode(value).value.items).value| ::
                  Allowed(validKeys, SortItemsOf(decode(value).value.items).value[i].id))
            ==> r.Some?
  {
    match decode(value)
    case Some(JArr(items)) =>
      var parsed := SortItemsOf(items);
      if parsed.None? then None
      else if validKeys.Some? && exists i | 0 <= i < |parsed.value| :: parsed.value[i].id !in validKeys.value then None
      else parsed
    case _ => None
  }

  /** The JSON `serialize` gives to `JSON.stringify` for a sorting state. */
  function SortingJson(items: seq<SortingItem>): (j: Json)
    ensures j.JArr? && |j.items| == |items|
    ensures forall i | 0 <= i < |items| :: j.items[i] == JObj(map["id" := JStr(items[i].id), "desc" := JBool(items[i].desc)])
  {
    JArr(seq(|items|, i requires 0 <= i < |items| => JObj(map["id" := JStr(items[i].id), "desc" := JBool(items[i].desc)])))
  }

  /** The sorting parser's `eq`: same length and, position by position, the same id and direction. */
  predicate SortingEq(a: seq<SortingItem>, b: seq<SortingItem>)
    ensures SortingEq(a, b) <==> a == b
  {
    var same := |a| == |b| && forall i | 0 <= i < |a| :: a[i].id == b[i].id && a[i].desc == b[i].desc;
    assert same ==> forall i | 0 <= i < |a| :: a[i] == b[i];
    same
  }

  /**
   * With `JSON.parse` inverse to `JSON.stringify`, parsing a serialised
   * sorting gives it back, and fails exactly when an id is not allowed.
   */
  lemma SortingRoundTrip(items: seq<SortingItem>, encode: Encoder, decode: Decoder, validKeys: Option<set<string>>)
    requires forall j :: decode(encode(j)) == Some(j)
    ensures ParseSortingState(encode(SortingJson(items)), decode, validKeys) ==
            if forall i | 0 <= i < |items| :: Allowed(validKeys, items[i].id) then Some(items) else None
  {
    var j := SortingJson(items);
    assert decode(encode(j)) == Some(j);
    var parsed := SortItemsOf(j.items);
    assert parsed.Some?;
    assert parsed.value == items by {
      assert forall i | 0 <= i < |items| :: SortItemOf(j.items[i]) == Some(items[i]);
    }
  }

  // ---------------------------------------------------------------- filters

  /** A filter of the URL state; the value is a string or an array of strings. */
  datatype FilterItem = FilterItem(id: string, value: FilterValue, variant: string, operator: string, filterId: string)

  /** `z.union([z.string(), z.array(z.string())])` */
  function FilterValueOf(j: Json): (r: Option<FilterValue>)
    ensures j.JStr? ==> r == Some(Text(j.s))
    ensures j.JArr? ==> (r.Some? <==> forall i | 0 <= i < |j.items| :: j.items[i].JStr?)
    ensures j.JArr? && r.Some? ==>
      r.value.List? && |r.value.items| == |j.items| && forall i | 0 <= i < |j.items| :: j.items[i] == JStr(r.value.items[i])
    ensures !j.JStr? && !j.JArr? ==> r.None?
  {
    match j
    case JStr(s) => Some(Text(s))
    case JArr(items) =>
      if forall i | 0 <= i < |items| :: items[i].JStr? then
        Some(List(seq(|items|, i requires 0 <= i < |items| => items[i].s)))
      else None
    case _ => None
  }

  /**
   * `filterItemSchema`: string `id` and `filterId`, a string or string-array
   * `value`, and `variant` and `operator` from their enumerations.
   */
  function FilterItemOf(j: Json, variants: set<string>, operators: set<string>): (r: Option<FilterItem>)
    ensures r.Some? <==>
      && j.JObj?
      && "id" in j.fields && j.fields["id"].JStr?
      && "value" in j.fields && FilterValueOf(j.fields["value"]).Some?
      && "variant" in j.fields && j.fields["variant"].JStr? && j.fields["variant"].s in variants
      && "operator" in j.fields && j.fields["operator"].JStr? && j.fields["operator"].s in operators
      && "filterId" in j.fields && j.fields["filterId"].JStr?
    ensures r.Some? ==> r.value == FilterItem(j.fields["id"].s, FilterValueOf(j.fields["value"]).value,
                                              j.fields["variant"].s, j.fields["operator"].s, j.fields["filterId"].s)
  {
    match j
    case JObj(f) =>
      if && "id" in f && f["id"].JStr?
         && "value" in f && FilterValueOf(f["value"]).Some?
         && "variant" in f && f["variant"].JStr? && f["variant"].s in variants
         && "operator" in f && f["operator"].JStr? && f["operator"].s in operators
         && "filterId" in f && f["filterId"].JStr?
      then Some(FilterItem(f["id"].s, FilterValueOf(f["value"]).value, f["variant"].s, f["operator"].s, f["filterId"].s))
      else None
    case _ => None
  }

  /** `z.array(filterItemSchema)` */
  function FilterItemsOf(items: seq<Json>, variants: set<string>, operators: set<string>): (r: Option<seq<FilterItem>>)
    ensures r.Some? <==> forall i | 0 <= i < |items| :: FilterItemOf(items[i], variants, operators).Some?
    ensures r.Some? ==> |r.value| == |items| &&
                        forall i | 0 <= i < |items| :: FilterItemOf(items[i], variants, operators) == Some(r.value[i])
  {
    if |items| == 0 then Some([])
    else
      var head := FilterItemOf(items[0], variants, operators);
      var tail := FilterItemsOf(items[1..], variants, operators);
      if head.None? || tail.None? then
        assert tail.None? ==> exists i | 1 <= i < |items| :: FilterItemOf(items[i], variants, operators).None? by {
          if tail.None? {
            var i :| 0 <= i < |items[1..]| && FilterItemOf(items[1..][i], variants, operators).None?;
            assert items[1..][i] == items[i + 1];
          }
        }
        None
      else
        assert forall i | 1 <= i < |items| :: items[i] == items[1..][i - 1];
        Some([head.value] + tail.value)
  }

  /** The filters parser's `parse`: the same fail-closed rules as for sorting, over `filterItemSchema`. */
  function ParseFiltersState(value: string, decode: Decoder, validKeys: Option<set<string>>,
                             variants: set<string>, operators: set<string>): (r: Option<seq<FilterItem>>)
    ensures r.Some? ==>
      && decode(value).Some? && decode(value).value.JArr?
      && FilterItemsOf(decode(value).value.items, variants, operators) == r
      && forall i | 0 <= i < |r.value| :: Allowed(validKeys, r.value[i].id)
    ensures (&& decode(value).Some? && decode(value).value.JArr?
             && FilterItemsOf(decode(value).value.items, variants, operators).Some?
             && forall i | 0 <= i < |FilterItemsOf(decode(value).value.items, variants, operators).value| ::
                  Allowed(validKeys, FilterItemsOf(decode(value).value.items, variants, operators).value[i].id))
            ==> r.Some?
  {
    match decode(value)
    case Some(JArr(items)) =>
      var parsed := FilterItemsOf(items, variants, operators);
      if parsed.None? then None
      else if validKeys.Some? && exists i | 0 <= i < |parsed.value| :: parsed.value[i].id !in validKeys.value then None
      else parsed
    case _ => None
  }

  function FilterValueJson(v: FilterValue): (j: Json)
    ensures FilterValueOf(j) == Some(v)
  {
    match v
    case Text(s) => JStr(s)
    case List(items) =>
      var j := JArr(seq(|items|, i requires 0 <= i < |items| => JStr(items[i])));
      assert FilterValueOf(j).value.items == items;
      j
  }

  function FilterJson(f: FilterItem): Json {
    JObj(map["id" := JStr(f.id), "value" := FilterValueJson(f.value), "variant" := JStr(f.variant),
             "operator" := JStr(f.operator), "filterId" := JStr(f.filterId)])
  }

  /** The JSON `serialize` gives to `JSON.stringify` for a filters state. */
  function FiltersJson(items: seq<FilterItem>): (j: Json)
    ensures j.JArr? && |j.items| == |items| && forall i | 0 <= i < |items| :: j.items[i] == FilterJson(items[i])
  {
    JArr(seq(|items|, i requires 0 <= i < |items| => FilterJson(items[i])))
  }

  /** `valueMatch`: arrays element-wise; otherwise strict equality, so a string never equals an array. */
  predicate ValueMatch(a: FilterValue, b: FilterValue)
    ensures ValueMatch(a, b) <==> a == b
  {
    if a.List? && b.List? then |a.items| == |b.items| && forall i | 0 <= i < |a.items| :: a.items[i] == b.items[i]
    else a.Text? && b.Text? && a.s == b.s
  }

  /** The filters parser's `eq`: same length and, position by position, same id, value, variant and operator. */
  predicate FiltersEq(a: seq<FilterItem>, b: seq<FilterItem>)
    ensures FiltersEq(a, b) <==> |a| == |b| && forall i | 0 <= i < |a| :: SameIgnoringFilterId(a[i], b[i])
  {
    |a| == |b| &&
    forall i | 0 <= i < |a| ::
      a[i].id == b[i].id && ValueMatch(a[i].value, b[i].value) &&
      a[i].variant == b[i].variant && a[i].operator == b[i].operator
  }

  /** Two filter items are equal up to their `filterId`. */
  predicate SameIgnoringFilterId(a: FilterItem, b: FilterItem) {
    a.(filterId := b.filterId) == b
  }

  /**
   * With `JSON.parse` inverse to `JSON.stringify`, parsing serialised filters
   * gives them back when every variant and operator is in its enumeration,
   * and fails exactly when an id is not allowed.
   */
  lemma FiltersRoundTrip(items: seq<FilterItem>, encode: Encoder, decode: Decoder, validKeys: Option<set<string>>,
                         variants: set<string>, operators: set<string>)
    requires forall j :: decode(encode(j)) == Some(j)
    requires forall i | 0 <= i < |items| :: items[i].variant in variants && items[i].operator in operators
    ensures ParseFiltersState(encode(FiltersJson(items)), decode, validKeys, variants, operators) ==
            if forall i | 0 <= i < |items| :: Allowed(validKeys, items[i].id) then Some(items) else None
  {
    var j := FiltersJson(items);
    assert decode(encode(j)) == Some(j);
    forall i | 0 <= i < |items| ensures FilterItemOf(j.items[i], variants, operators) == Some(items[i]) {
      assert j.items[i] == FilterJson(items[i]);
    }
    var parsed := FilterItemsOf(j.items, variants, operators);
    assert parsed.Some?;
    assert parsed.value == items;
  }

  /** A variant outside the enumeration does not survive a round trip: the whole state is rejected. */
  lemma UnknownVariantRejected(items: seq<FilterItem>, encode: Encoder, decode: Decoder, validKeys: Option<set<string>>,
                               variants: set<string>, operators: set<string>, k: nat)
    requires forall j :: decode(encode(j)) == Some(j)
    requires k < |items| && items[k].variant !in variants
    ensures ParseFiltersState(encode(FiltersJson(items)), decode, validKeys, variants, operators).None?
  {
    var j := FiltersJson(items);
    assert decode(encode(j)) == Some(j);
    assert j.items[k] == FilterJson(items[k]);
    assert FilterItemOf(j.items[k], variants, operators).None?;
  }
}

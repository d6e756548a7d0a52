/**
 * Turning list filters into a WHERE condition
 * (apps/server/src/lib/data-table-filters.ts). Conditions are data: what
 * the query builder would be asked to emit, not its SQL text.
 */
module SqlFilters {
  import opened Wrappers
  import opened Strings
  import opened Records
  import opened Schema

  datatype Condition =
    | ILike(column: Column, pattern: string)      // `ilike(column, pattern)`
    | EqBool(column: Column, flag: bool)          // `eq(column, true|false)`
    | EqText(column: Column, text: string)        // `eq(column, value)`
    | And(conditions: seq<Condition>)             // `and(...conditions)`

  /** The first test of the dispatch: a textual SQL type. */
  predicate IsTextType(sqlType: string) {
    Contains(sqlType, "varchar") || Contains(sqlType, "text")
  }

  predicate IsBooleanType(sqlType: string) {
    Contains(sqlType, "boolean")
  }

  /** `buildFilterCondition`: one column-type-dispatched predicate, none for an empty value. */
  function BuildFilterCondition(value: string, column: Column): (r: Option<Condition>)
    ensures r.None? <==> value == ""
    ensures r.Some? ==> !r.value.And? && r.value.column == column
    ensures r.Some? && IsTextType(column.sqlType) ==> r.value == ILike(column, "%" + value + "%")
    ensures r.Some? && !IsTextType(column.sqlType) && IsBooleanType(column.sqlType) ==>
      r.value == EqBool(column, value == "true")
    ensures r.Some? && !IsTextType(column.sqlType) && !IsBooleanType(column.sqlType) ==>
      r.value == EqText(column, value)
  {
    if value == "" then None
    else if IsTextType(column.sqlType) then Some(ILike(column, "%" + value + "%"))
    else if IsBooleanType(column.sqlType) then Some(EqBool(column, value == "true"))
    else Some(EqText(column, value))
  }

  /** `Object.entries(filters).map(...)`: a column lookup, then the builder. */
  function MapEntries(filters: Entries<string>, columnMap: map<string, Column>): (r: seq<Option<Condition>>)
    ensures |r| == |filters|
    ensures forall i | 0 <= i < |r| ::
      r[i] == (if filters[i].0 in columnMap then BuildFilterCondition(filters[i].1, columnMap[filters[i].0]) else None)
  {
    if |filters| == 0 then []
    else
      var (key, value) := filters[0];
      [if key in columnMap then BuildFilterCondition(value, columnMap[key]) else None]
        + MapEntries(filters[1..], columnMap)
  }

  /** `.filter((c) => c !== undefined)` */
  function Defined(cs: seq<Option<Condition>>): (r: seq<Condition>)
    ensures forall i | 0 <= i < |r| :: Some(r[i]) in cs
  {
    if |cs| == 0 then []
    else if cs[0].Some? then [cs[0].value] + Defined(cs[1..])
    else Defined(cs[1..])
  }

  /** The conditions `buildFiltersCondition` combines. */
  function Conditions(filters: Entries<string>, columnMap: map<string, Column>): seq<Condition> {
    Defined(MapEntries(filters, columnMap))
  }

  /** `buildFiltersCondition`: nothing, the single condition, or their conjunction. */
  function BuildFiltersCondition(filters: Entries<string>, columnMap: map<string, Column>): (r: Option<Condition>)
    ensures r.None? <==> forall i | 0 <= i < |filters| :: !Applicable(filters[i], columnMap)
    ensures r.Some? && r.value.And? ==>
      |r.value.conditions| >= 2 && forall i | 0 <= i < |r.value.conditions| :: !r.value.conditions[i].And?
  {
    ConditionsFollowApplicableEntries(filters, columnMap);
    ApplicableEntriesEmpty(filters, columnMap);
    ConditionsAreAtoms(filters, columnMap);
    Combine(Conditions(filters, columnMap))
  }

  /** No condition, the only one, or `and(...)` of all of them. */
  function Combine(cs: seq<Condition>): Option<Condition> {
    if |cs| == 0 then None
    else if |cs| == 1 then Some(cs[0])
    else Some(And(cs))
  }

  /** An entry that yields a condition: a known column and a non-empty value. */
  predicate Applicable(entry: (string, string), columnMap: map<string, Column>) {
    entry.0 in columnMap && entry.1 != ""
  }

  /** The entries that yield a condition, in entry order. */
  function ApplicableEntries(filters: Entries<string>, columnMap: map<string, Column>): (r: Entries<string>)
    ensures forall i | 0 <= i < |r| :: Applicable(r[i], columnMap)
  {
    if |filters| == 0 then []
    else if Applicable(filters[0], columnMap) then [filters[0]] + ApplicableEntries(filters[1..], columnMap)
    else ApplicableEntries(filters[1..], columnMap)
  }

  /** The condition an applicable entry yields. */
  function ConditionFor(entry: (string, string), columnMap: map<string, Column>): Condition
    requires Applicable(entry, columnMap)
  {
    BuildFilterCondition(entry.1, columnMap[entry.0]).value
  }

  /**
   * One condition per applicable entry, in entry order, built from that
   * entry's value and its column; entries with an unknown key or an empty
   * value contribute nothing.
   */
  lemma {:induction false} ConditionsFollowApplicableEntries(filters: Entries<string>, columnMap: map<string, Column>)
    ensures var cs := Conditions(filters, columnMap);
            var ap := ApplicableEntries(filters, columnMap);
            && |cs| == |ap|
            && forall i | 0 <= i < |cs| :: cs[i] == ConditionFor(ap[i], columnMap)
  {
    if |filters| > 0 {
      var rest := filters[1..];
      ConditionsFollowApplicableEntries(rest, columnMap);
      var m := MapEntries(filters, columnMap);
      assert m[1..] == MapEntries(rest, columnMap);
      var cs, ap := Conditions(filters, columnMap), ApplicableEntries(filters, columnMap);
      var cs', ap' := Conditions(rest, columnMap), ApplicableEntries(rest, columnMap);
      if Applicable(filters[0], columnMap) {
        assert m[0] == Some(ConditionFor(filters[0], columnMap));
        assert cs == [ConditionFor(filters[0], columnMap)] + cs';
        assert ap == [filters[0]] + ap';
        forall i | 0 <= i < |cs| ensures cs[i] == ConditionFor(ap[i], columnMap) {
          if i > 0 {
            assert cs[i] == cs'[i - 1] && ap[i] == ap'[i - 1];
          }
        }
      } else {
        assert m[0].None?;
        assert cs == cs';
        assert ap == ap';
      }
    }
  }

  /** A filter whose key is not a column of the map is skipped, wherever it stands. */
  lemma {:induction false} UnknownKeyIgnored(before: Entries<string>, key: string, value: string, after: Entries<string>,
                                            columnMap: map<string, Column>)
    requires key !in columnMap
    ensures BuildFiltersCondition(before + [(key, value)] + after, columnMap) ==
            BuildFiltersCondition(before + after, columnMap)
  {
    ConditionsSkip(before, key, value, after, columnMap);
  }

  lemma {:induction false} ConditionsSkip(before: Entries<string>, key: string, value: string, after: Entries<string>,
                                         columnMap: map<string, Column>)
    requires key !in columnMap
    ensures Conditions(before + [(key, value)] + after, columnMap) == Conditions(before + after, columnMap)
  {
    if |before| == 0 {
      assert before + [(key, value)] + after == [(key, value)] + after;
      assert before + after == after;
      assert MapEntries([(key, value)] + after, columnMap)[1..] == MapEntries(after, columnMap);
    } else {
      ConditionsSkip(before[1..], key, value, after, columnMap);
      assert (before + [(key, value)] + after)[1..] == before[1..] + [(key, value)] + after;
      assert (before + after)[1..] == before[1..] + after;
      assert MapEntries(before + [(key, value)] + after, columnMap)[1..]
          == MapEntries(before[1..] + [(key, value)] + after, columnMap);
      assert MapEntries(before + after, columnMap)[1..] == MapEntries(before[1..] + after, columnMap);
    }
  }

  /** Whether a row satisfies a condition, given how the database decides each single-column condition. */
  predicate Holds(c: Condition, atom: Condition -> bool)
    decreases c
  {
    match c
    case And(cs) => forall i | 0 <= i < |cs| :: Holds(cs[i], atom)
    case _ => atom(c)
  }

  /** A missing WHERE clause matches every row. */
  predicate WhereMatches(where: Option<Condition>, atom: Condition -> bool) {
    where.None? || Holds(where.value, atom)
  }

  /**
   * The combination is a conjunction: a row passes the WHERE clause exactly
   * when it satisfies every built condition (so no filters match all rows and
   * a single condition needs no `and`).
   */
  lemma {:induction false} WhereIsConjunction(filters: Entries<string>, columnMap: map<string, Column>, atom: Condition -> bool)
    ensures WhereMatches(BuildFiltersCondition(filters, columnMap), atom) <==>
            forall i | 0 <= i < |Conditions(filters, columnMap)| :: atom(Conditions(filters, columnMap)[i])
  {
    ConditionsAreAtoms(filters, columnMap);
    CombineIsConjunction(Conditions(filters, columnMap), atom);
  }

  /** Combining single-column conditions matches a row exactly when each of them does. */
  lemma CombineIsConjunction(cs: seq<Condition>, atom: Condition -> bool)
    requires forall i | 0 <= i < |cs| :: !cs[i].And?
    ensures WhereMatches(Combine(cs), atom) <==> forall i | 0 <= i < |cs| :: atom(cs[i])
  {
    assert forall i | 0 <= i < |cs| :: Holds(cs[i], atom) == atom(cs[i]);
  }

  /** Every built condition is a single-column one. */
  lemma ConditionsAreAtoms(filters: Entries<string>, columnMap: map<string, Column>)
    ensures forall i | 0 <= i < |Conditions(filters, columnMap)| :: !Conditions(filters, columnMap)[i].And?
  {
  }

  lemma {:induction false} ApplicableEntriesEmpty(filters: Entries<string>, columnMap: map<string, Column>)
    ensures |ApplicableEntries(filters, columnMap)| == 0 <==>
            forall i | 0 <= i < |filters| :: !Applicable(filters[i], columnMap)
  {
    if |filters| > 0 {
      ApplicableEntriesEmpty(filters[1..], columnMap);
      assert forall i | 1 <= i < |filters| :: filters[i] == filters[1..][i - 1];
    }
  }

  /** A type name that mentions both `text` and `boolean` takes the text branch: that test comes first. */
  lemma TextTestComesFirst(value: string, column: Column)
    requires value != "" && Contains(column.sqlType, "text") && IsBooleanType(column.sqlType)
    ensures BuildFilterCondition(value, column) == Some(ILike(column, "%" + value + "%"))
  {
  }

  /** On a boolean column, only the literal `"true"` selects true rows; any other string selects false. */
  lemma BooleanFilterValue(value: string, name: string)
    requires value != ""
    ensures BuildFilterCondition(value, Column(name, "boolean")) == Some(EqBool(Column(name, "boolean"), value == "true"))
  {
    NotContainsWithoutChar("boolean", "varchar", 0);
    NotContainsWithoutChar("boolean", "text", 0);
    assert OccursAt("boolean", "boolean", 0);
  }
}

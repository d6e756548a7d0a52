/**
 * Parsed JSON values, as request bodies and URL state arrive after
 * `JSON.parse`. Numbers are integers: no value here is `NaN` or fractional.
 */
module Json {
  import opened Wrappers

  datatype Json =
    | JNull
    | JBool(b: bool)
    | JNum(n: int)
    | JStr(s: string)
    | JArr(items: seq<Json>)
    | JObj(fields: map<string, Json>)

  /** JavaScript truthiness of a value. */
  predicate Truthy(j: Json) {
    match j
    case JNull => false
    case JBool(b) => b
    case JNum(n) => n != 0
    case JStr(s) => s != ""
    case _ => true
  }

  /** `value.key` on a non-null value: `None` is `undefined`; only an object has the field. */
  function Member(j: Json, key: string): (r: Option<Json>)
    ensures r.Some? <==> j.JObj? && key in j.fields
    ensures r.Some? ==> r.value == j.fields[key]
  {
    if j.JObj? && key in j.fields then Some(j.fields[key]) else None
  }

  /** `z.string().min(min)` applied to `obj[key]`. */
  function StringField(obj: map<string, Json>, key: string, min: nat): (r: Option<string>)
    ensures r.Some? <==> key in obj && obj[key].JStr? && |obj[key].s| >= min
    ensures r.Some? ==> obj[key] == JStr(r.value)
  {
    if key in obj && obj[key].JStr? && |obj[key].s| >= min then Some(obj[key].s) else None
  }

  /** `z.email()` applied to `obj[key]`; the address syntax is the predicate `isEmail`. */
  function EmailField(obj: map<string, Json>, key: string, isEmail: string -> bool): (r: Option<string>)
    ensures r.Some? <==> key in obj && obj[key].JStr? && isEmail(obj[key].s)
    ensures r.Some? ==> obj[key] == JStr(r.value)
  {
    if key in obj && obj[key].JStr? && isEmail(obj[key].s) then Some(obj[key].s) else None
  }

  /**
   * `.optional()` around a field schema: an absent key is accepted as
   * `undefined` (`Ok(None)`); a present one must pass `field`.
   */
  function OptionalField(obj: map<string, Json>, key: string, field: Option<string>): (r: Result<Option<string>, ()>)
    ensures key !in obj ==> r == Ok(None)
    ensures key in obj ==> (r.Ok? <==> field.Some?) && (r.Ok? ==> r.value == field)
  {
    if key !in obj then Ok(None)
    else if field.Some? then Ok(field)
    else Err(())
  }
}

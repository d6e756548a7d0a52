/**
 * The client's token handling (apps/client/src/lib/auth.ts): the two tokens
 * in `localStorage`, and reading the role out of the access token's payload
 * without verifying it. `atob` followed by `JSON.parse` is a parameter
 * `decodePart` that fails (`None`) where either throws.
 */
module ClientAuth {
  import opened Wrappers
  import opened Strings
  import opened Json

  /** `AUTH_TOKENS` */
  const AccessKey := "accessToken"
  const RefreshKey := "refreshToken"

  /** `localStorage.getItem(key)`: `null` (`None`) for a missing key. */
  function GetItem(items: map<string, string>, key: string): Option<string> {
    if key in items then Some(items[key]) else None
  }

  /** The storage after `saveTokens(access, refresh)`. */
  function Saved(items: map<string, string>, access: string, refresh: string): map<string, string> {
    items[AccessKey := access][RefreshKey := refresh]
  }

  /** The storage after `clearTokens()`. */
  function ClearedStore(items: map<string, string>): map<string, string> {
    items - {AccessKey, RefreshKey}
  }

  /** Saving makes both getters return the saved tokens and touches no other key. */
  lemma SaveThenGet(items: map<string, string>, access: string, refresh: string, other: string)
    requires other != AccessKey && other != RefreshKey
    ensures GetItem(Saved(items, access, refresh), AccessKey) == Some(access)
    ensures GetItem(Saved(items, access, refresh), RefreshKey) == Some(refresh)
    ensures GetItem(Saved(items, access, refresh), other) == GetItem(items, other)
  {
  }

  /** Clearing makes both getters return `null` and touches no other key. */
  lemma ClearThenGet(items: map<string, string>, other: string)
    requires other != AccessKey && other != RefreshKey
    ensures GetItem(ClearedStore(items), AccessKey).None? && GetItem(ClearedStore(items), RefreshKey).None?
    ensures GetItem(ClearedStore(items), other) == GetItem(items, other)
  {
  }

  /** `localStorage`, as far as the token functions use it. */
  class TokenStore {
    var items: map<string, string>

    constructor (items: map<string, string>)
      ensures this.items == items
    {
      this.items := items;
    }

    /** `saveTokens`: the access token, then the refresh token. */
    method SaveTokens(accessToken: string, refreshToken: string)
      modifies this
      ensures items == Saved(old(items), accessToken, refreshToken)
    {
      items := items[AccessKey := accessToken];
      items := items[RefreshKey := refreshToken];
    }

    /** `getAccessToken`: `null` exactly when none is stored. */
    function GetAccessToken(): (r: Option<string>)
      reads this
      ensures r.None? <==> AccessKey !in items
      ensures r.Some? ==> r.value == items[AccessKey]
    {
      GetItem(items, AccessKey)
    }

    /** `getRefreshToken`: `null` exactly when none is stored. */
    function GetRefreshToken(): (r: Option<string>)
      reads this
      ensures r.None? <==> RefreshKey !in items
      ensures r.Some? ==> r.value == items[RefreshKey]
    {
      GetItem(items, RefreshKey)
    }

    /** `clearTokens`: both keys removed. */
    method ClearTokens()
      modifies this
      ensures items == ClearedStore(old(items))
    {
      items := items - {AccessKey};
      items := items - {RefreshKey};
    }
  }

  /**
   * `decodeJWT`: `null` unless the token splits on `.` into exactly three
   * parts; otherwise whatever decoding the middle part yields.
   */
  function DecodeJWT(token: string, decodePart: string -> Option<Json>): (r: Option<Json>)
    ensures CountOf(token, '.') != 2 ==> r.None?
    ensures CountOf(token, '.') == 2 ==> |Split(token, '.')| == 3 && r == decodePart(Split(token, '.')[1])
  {
    var parts := Split(token, '.');
    SplitLength(token, '.');
    if |parts| != 3 then None else decodePart(parts[1])
  }

  /** A token of the form `header.payload.signature` decodes to whatever its payload decodes to. */
  lemma DecodeWellFormed(header: string, payload: string, signature: string, decodePart: string -> Option<Json>)
    requires '.' !in header && '.' !in payload && '.' !in signature
    ensures DecodeJWT(header + "." + payload + "." + signature, decodePart) == decodePart(payload)
  {
    var token := header + "." + payload + "." + signature;
    assert token == header + ['.'] + (payload + ['.'] + signature);
    SplitAtFirst(header, '.', payload + ['.'] + signature);
    SplitAtFirst(payload, '.', signature);
    SplitWithoutSeparator(signature, '.');
  }

  /**
   * `getUserRole`: `null` (`None`) without a (non-empty) access token or with
   * a falsy payload; otherwise the payload's `role`, `None` when it has none.
   */
  function GetUserRole(items: map<string, string>, decodePart: string -> Option<Json>): (r: Option<Json>)
    ensures GetItem(items, AccessKey).None? || GetItem(items, AccessKey) == Some("") ==> r.None?
    ensures r.Some? ==> var payload := DecodeJWT(items[AccessKey], decodePart);
                        payload.Some? && Truthy(payload.value) && Member(payload.value, "role") == r
    ensures AccessKey in items && items[AccessKey] != "" ==>
      var payload := DecodeJWT(items[AccessKey], decodePart);
      r == if payload.Some? && Truthy(payload.value) then Member(payload.value, "role") else None
  {
    var token := GetItem(items, AccessKey);
    if token.None? || token.value == "" then None
    else
      var payload := DecodeJWT(token.value, decodePart);
      if payload.None? || !Truthy(payload.value) then None
      else Member(payload.value, "role")
  }

  /** `isAdmin`: the role is exactly the string `"admin"`. */
  predicate IsAdmin(items: map<string, string>, decodePart: string -> Option<Json>)
    ensures IsAdmin(items, decodePart) <==>
      && AccessKey in items && items[AccessKey] != ""
      && DecodeJWT(items[AccessKey], decodePart).Some?
      && DecodeJWT(items[AccessKey], decodePart).value.JObj?
      && Member(DecodeJWT(items[AccessKey], decodePart).value, "role") == Some(JStr("admin"))
  {
    GetUserRole(items, decodePart) == Some(JStr("admin"))
  }

  /**
   * After a login stores a well-formed access token, `isAdmin` holds exactly
   * when its payload decodes to an object whose `role` is `"admin"`.
   */
  lemma AdminAfterSave(items: map<string, string>, header: string, payload: string, signature: string, refresh: string,
                       decodePart: string -> Option<Json>)
    requires '.' !in header && '.' !in payload && '.' !in signature
    ensures IsAdmin(Saved(items, header + "." + payload + "." + signature, refresh), decodePart) <==>
            decodePart(payload).Some? && decodePart(payload).value.JObj? &&
            Member(decodePart(payload).value, "role") == Some(JStr("admin"))
  {
    DecodeWellFormed(header, payload, signature, decodePart);
  }

  /** After `clearTokens` there is no role and the user is not an admin. */
  lemma NoRoleAfterClear(items: map<string, string>, decodePart: string -> Option<Json>)
    ensures GetUserRole(ClearedStore(items), decodePart).None?
    ensures !IsAdmin(ClearedStore(items), decodePart)
  {
  }
}

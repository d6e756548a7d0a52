/**
 * The client's error reporting (apps/client/src/lib/catch-axios-error.ts):
 * which text the single error toast shows. i18next's `exists` and `t` are
 * parameters; so is the decimal rendering of a number inside a template
 * string.
 */
module AxiosErrors {
  import opened Wrappers
  import opened Strings
  import opened Json
  import opened Responses
  import RoleGuard

  /** What was caught: an `AxiosError` carrying `error.response?.data` (`None` when undefined), or anything else. */
  datatype ErrorInput = AxiosError(data: Option<Json>) | OtherError

  /** The single `toast.error(message)` call of one `catchAxiosError`; the message may be any value. */
  datatype Toast = Toast(content: Json)

  /** The i18next functions the handler uses: `has` is `i18n.exists`. */
  datatype I18n = I18n(has: string -> bool, t: string -> string)

  const DefaultKey := "common.unexpected_error"

  /** `${value}` of a template literal (`String(value)`); an array joins its elements with `,`. */
  function TemplateText(j: Json, numText: int -> string): string
    decreases j, 1
  {
    match j
    case JNull => "null"
    case JBool(b) => if b then "true" else "false"
    case JNum(n) => numText(n)
    case JStr(s) => s
    case JArr(items) => Join(seq(|items|, i requires 0 <= i < |items| => ElementText(items[i], numText)), ',')
    case JObj(_) => "[object Object]"
  }

  /** `Array.prototype.join` renders a `null` element as the empty string. */
  function ElementText(j: Json, numText: int -> string): string
    decreases j, 2
  {
    if j.JNull? then "" else TemplateText(j, numText)
  }

  /** `error.response?.data?.<key>`: undefined without data or on a non-object. */
  function DataField(data: Option<Json>, key: string): (r: Option<Json>)
    ensures r.Some? ==> data.Some? && data.value.JObj? && key in data.value.fields && r.value == data.value.fields[key]
    ensures data.Some? && data.value.JObj? && key in data.value.fields ==> r.Some?
  {
    if data.Some? then Member(data.value, key) else None
  }

  /** True for a defined, truthy value: what `||` and `&&` pass over or stop at. */
  predicate Present(v: Option<Json>) {
    v.Some? && Truthy(v.value)
  }

  /** The translation key of a code: `errors.${errorCode}`. */
  function CodeKey(code: Json, numText: int -> string): string {
    "errors." + TemplateText(code, numText)
  }

  /** True when a truthy `code` has a translation, so that translation is shown. */
  predicate Translated(data: Option<Json>, i18n: I18n, numText: int -> string) {
    var code := DataField(data, "code");
    Present(code) && i18n.has(CodeKey(code.value, numText))
  }

  /** `catchAxiosError`: the content of its one toast. */
  function CatchAxiosError(e: ErrorInput, i18n: I18n, numText: int -> string): (toast: Toast)
    ensures e.OtherError? ==> toast.content == JStr(i18n.t(DefaultKey))
    ensures || toast.content == JStr(i18n.t(DefaultKey))
            || (e.AxiosError? && Translated(e.data, i18n, numText) &&
                toast.content == JStr(i18n.t(CodeKey(DataField(e.data, "code").value, numText))))
            || (e.AxiosError? && Present(DataField(e.data, "message")) && toast.content == DataField(e.data, "message").value)
            || (e.AxiosError? && Present(DataField(e.data, "error")) && toast.content == DataField(e.data, "error").value)
  {
    var defaultMessage := JStr(i18n.t(DefaultKey));
    match e
    case OtherError => Toast(defaultMessage)
    case AxiosError(data) =>
      if Translated(data, i18n, numText) then Toast(JStr(i18n.t(CodeKey(DataField(data, "code").value, numText))))
      else if Present(DataField(data, "message")) then Toast(DataField(data, "message").value)
      else if Present(DataField(data, "error")) then Toast(DataField(data, "error").value)
      else Toast(defaultMessage)
  }

  /**
   * The selection order: anything but an Axios error shows the default; an
   * Axios error shows the translation of its code if there is one, then a
   * truthy `message`, then a truthy `error`, then the default.
   */
  lemma MessagePriority(e: ErrorInput, i18n: I18n, numText: int -> string)
    ensures var content := CatchAxiosError(e, i18n, numText).content;
            var default := JStr(i18n.t(DefaultKey));
            && (e.OtherError? ==> content == default)
            && (e.AxiosError? && Translated(e.data, i18n, numText) ==>
                  content == JStr(i18n.t(CodeKey(DataField(e.data, "code").value, numText))))
            && (e.AxiosError? && !Translated(e.data, i18n, numText) && Present(DataField(e.data, "message")) ==>
                  content == DataField(e.data, "message").value)
            && (e.AxiosError? && !Translated(e.data, i18n, numText) && !Present(DataField(e.data, "message")) &&
                Present(DataField(e.data, "error")) ==>
                  content == DataField(e.data, "error").value)
            && (e.AxiosError? && !Translated(e.data, i18n, numText) && !Present(DataField(e.data, "message")) &&
                !Present(DataField(e.data, "error")) ==>
                  content == default)
  {
  }

  /** The JSON an error reply of the server carries; `codeName` spells each `ERROR_CODES` member. */
  function ErrorBodyJson(b: Body, codeName: ErrorCode -> string): (j: Json)
    requires b.Failure? || b.Denied?
    ensures j.JObj? && "error" in j.fields && j.fields["error"] == JStr(b.error)
  {
    match b
    case Failure(error, code) =>
      if code.Some? then JObj(map["error" := JStr(error), "code" := JStr(codeName(code.value))])
      else JObj(map["error" := JStr(error)])
    case Denied(error, message) => JObj(map["error" := JStr(error), "message" := JStr(message)])
  }

  /**
   * For the server's error replies: a reply with a code shows the code's
   * translation when one exists and its `error` text otherwise; the role
   * guard's 403 shows its `message`, not `"Forbidden"`.
   */
  lemma ServerReplyToast(reply: Reply, codeName: ErrorCode -> string, i18n: I18n, numText: int -> string)
    requires reply.body.Failure? || reply.body.Denied?
    requires reply.body.error != ""
    requires reply.body.Denied? ==> reply.body.message != ""
    ensures var content := CatchAxiosError(AxiosError(Some(ErrorBodyJson(reply.body, codeName))), i18n, numText).content;
            && (reply.body.Failure? && reply.body.code.Some? && codeName(reply.body.code.value) != "" &&
                i18n.has("errors." + codeName(reply.body.code.value)) ==>
                  content == JStr(i18n.t("errors." + codeName(reply.body.code.value))))
            && (reply.body.Failure? && (reply.body.code.None? || codeName(reply.body.code.value) == "" ||
                !i18n.has("errors." + codeName(reply.body.code.value))) ==>
                  content == JStr(reply.body.error))
            && (reply.body.Denied? ==> content == JStr(reply.body.message))
  {
  }

  /** The role guard's 403 toast reads "You don't have permission to access this resource". */
  lemma ForbiddenToast(codeName: ErrorCode -> string, i18n: I18n, numText: int -> string)
    ensures CatchAxiosError(AxiosError(Some(ErrorBodyJson(RoleGuard.ForbiddenReply.body, codeName))), i18n, numText).content ==
            JStr("You don't have permission to access this resource")
  {
    ServerReplyToast(RoleGuard.ForbiddenReply, codeName, i18n, numText);
  }
}

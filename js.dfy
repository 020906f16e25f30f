/** The JavaScript values and conventions the frontend code relies on. */
module Js {
  import opened Wrappers

  /** A JavaScript value as it appears in request payloads and responses. */
  datatype JsValue =
    | Undefined
    | Null
    | JsBool(b: bool)
    | JsNumber(n: int)
    | JsString(s: string)
    | JsArray(elems: seq<JsValue>)
    | JsObject(props: map<string, JsValue>)

  /** `obj.key`: the property's value, `undefined` when it is absent. */
  function Prop(obj: map<string, JsValue>, key: string): (r: JsValue)
    ensures key !in obj ==> r == Undefined
    ensures key in obj ==> r == obj[key]
  {
    if key in obj then obj[key] else Undefined
  }

  /** The truthiness of a string that may be `undefined`: present and
      non-empty. */
  predicate Truthy(s: Option<string>)
  {
    s.Some? && s.value != ""
  }

  /** `${s}` in a template literal: an absent value prints as "undefined". */
  function TemplateText(s: Option<string>): string
  {
    if s.Some? then s.value else "undefined"
  }

  /** A thrown error; `message` is `None` when the error has none. */
  datatype JsError = JsError(message: Option<string>)

  /** `err.message || fallback`. */
  function MessageOr(err: JsError, fallback: string): (r: string)
    ensures Truthy(err.message) ==> r == err.message.value
    ensures !Truthy(err.message) ==> r == fallback
    ensures fallback != "" ==> r != ""
  {
    if Truthy(err.message) then err.message.value else fallback
  }

  /** How an awaited call into code outside the model ends. */
  datatype Outcome = Succeeded | Threw(err: JsError)
}

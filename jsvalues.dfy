/**
 * JavaScript values as the content script sees them: a field read through
 * optional chaining is either absent (`null`/`undefined`) or present, and the
 * `||` fallbacks of the script treat the empty string like an absent value.
 */
module JsValues {

  datatype Option<+T> = None | Some(value: T)

  /** A string value that JavaScript's `||` keeps: present and non-empty. */
  predicate Truthy(s: Option<string>) {
    s.Some? && s.value != ""
  }

  /** `s || fallback` for a string-valued field. */
  function OrElse(s: Option<string>, fallback: string): (r: string)
    ensures Truthy(s) ==> r == s.value
    ensures !Truthy(s) ==> r == fallback
  {
    if Truthy(s) then s.value else fallback
  }

  /** `s || null` for a string-valued field: the empty string becomes absent. */
  function OrNull(s: Option<string>): (r: Option<string>)
    ensures r.Some? <==> Truthy(s)
    ensures r.Some? ==> r == s
  {
    if Truthy(s) then s else None
  }

  /** `(s || '')`: an absent string reads as the empty one. */
  function OrEmpty(s: Option<string>): (r: string)
    ensures s.Some? ==> r == s.value
    ensures s.None? ==> r == ""
  {
    OrElse(s, "")
  }

  /**
   * A boolean-valued field after optional chaining: `undefined` when the
   * object holding it is missing, `null` when the field itself is null.
   */
  datatype JsBool = Undefined | Null | Bool(b: bool)
}

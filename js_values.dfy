/** JavaScript truthiness of an optional request or form field, as the
    handlers test it with `!field`. */
module JsValues {
  import opened Wrappers

  /** A text field is falsy when it is absent or empty. */
  predicate FalsyText(x: Option<string>)
  {
    x.None? || x.value == ""
  }

  /** A number field is falsy when it is absent or zero. */
  predicate FalsyNumber(x: Option<int>)
  {
    x.None? || x.value == 0
  }
}

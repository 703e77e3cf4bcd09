/** Small shared vocabulary: optional values and the outcome of one call into
    the hosted backend. Every backend call of the application either hands back
    data or an error object; the model receives that outcome as a parameter. */
module Common {

  datatype Option<+T> = None | Some(value: T)

  /** The reply of one backend request. `Fail(Some(m))` is an error that is an
      `Error` instance carrying message `m`; `Fail(None)` is any other thrown
      value, for which the pages fall back to a fixed text. */
  datatype Reply<+T> = Ok(value: T) | Fail(message: Option<string>)

  /** The text a page stores for a caught error: the error's own message when
      it has one, otherwise the page's fallback wording. */
  function ErrorText(message: Option<string>, fallback: string): (s: string)
    ensures message.None? ==> s == fallback
    ensures message.Some? ==> s == message.value
  {
    match message
    case Some(m) => m
    case None => fallback
  }
}

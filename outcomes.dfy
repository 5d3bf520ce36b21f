/** Optional values and the outcome of a step that may throw, shared by the other modules. */
module Outcomes {

  /** JavaScript's `T | null` (or `T | undefined`). */
  datatype Option<+T> = None | Some(value: T)

  /**
   * A step that either returns a value or throws. A thrown `Error` carries its
   * `message` property, which may be missing (`None`) or empty.
   */
  datatype Outcome<+T> = Ok(value: T) | Err(message: Option<string>)

  const UnknownErrorMessage := "An unknown error occurred."

  /**
   * The text `e.message || "An unknown error occurred."` that the run handler
   * stores on failure: an empty or missing message is falsy and falls back.
   */
  function ErrorText(message: Option<string>): (text: string)
    ensures text != ""
    ensures message.Some? && message.value != "" ==> text == message.value
    ensures (message.None? || message.value == "") ==> text == UnknownErrorMessage
  {
    if message.Some? && message.value != "" then message.value else UnknownErrorMessage
  }
}

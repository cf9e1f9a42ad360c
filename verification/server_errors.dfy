/**
 * The error shape the auth forms read from a rejected request:
 * `err.data.errorMessages` (an array of `{path, message}`) and
 * `err.data.message`.
 */
module ServerErrors {
  import opened Js

  /** An entry's `path`: absent, a string, or an array of strings. */
  datatype ErrPath = NoPath | PathText(text: string) | PathList(items: seq<string>)

  datatype ErrorEntry = ErrorEntry(path: ErrPath, message: Option<string>)

  /** `err.data`: `errorMessages` is `None` when it is missing or not an array. */
  datatype ErrorData = ErrorData(errorMessages: Option<seq<ErrorEntry>>, message: Option<string>)

  /** The rejection value: `err.data` may be absent. */
  datatype ServerError = ServerError(data: Option<ErrorData>)

  /** The entry list, when the rejection carries one. */
  predicate HasEntries(e: ServerError)
  {
    e.data.Some? && e.data.value.errorMessages.Some?
  }

  /** `err.data.message`, when truthy. */
  predicate HasMessage(e: ServerError)
  {
    e.data.Some? && Truthy(e.data.value.message)
  }

  /** `message + " "`: an absent message prints as `undefined`. */
  function MessageText(m: Option<string>): string
  {
    if m.Some? then m.value else "undefined"
  }
}

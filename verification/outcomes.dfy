/** How an asynchronous call of the application ends: it resolves with a
    value or rejects with a thrown value. JavaScript can throw anything; the
    application only distinguishes `Error` objects (whose `message` it reads)
    from everything else. */
module Outcomes {

  datatype Thrown = ErrorObject(message: string) | OtherValue

  datatype Outcome<+T> = Returned(value: T) | Threw(thrown: Thrown)

  /** `err instanceof Error ? err.message : fallback`. */
  function MessageOr(t: Thrown, fallback: string): (r: string)
    ensures t.ErrorObject? ==> r == t.message
    ensures t.OtherValue? ==> r == fallback
  {
    match t
    case ErrorObject(m) => m
    case OtherValue => fallback
  }
}

/** Small value types shared by the three calculator pages. */
module Results {

  /** A value that may be absent: a field missing from a record read back from
      storage (`undefined` in JavaScript), or `null`. */
  datatype Option<+T> = None | Some(value: T) {

    /** The value, or `default` when absent (JavaScript's `x ?? default`). */
    function GetOr(default: T): T {
      match this
      case Some(v) => v
      case None => default
    }
  }

  /** What a user action reports back. `Done`: the page state was updated.
      `Ignored`: the handler returned early without a message and changed nothing.
      `Alert(message)`: the handler showed `message` and changed nothing. */
  datatype Outcome = Done | Ignored | Alert(message: string)
}

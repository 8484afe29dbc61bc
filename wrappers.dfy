/** Option: a value that may be absent (JavaScript's `null` / `undefined`). */
module Wrappers {

  datatype Option<+T> = None | Some(value: T) {

    /** The wrapped value, or `default` when absent (JavaScript's `x ?? default`). */
    function GetOr(default: T): T {
      match this
      case Some(v) => v
      case None => default
    }
  }
}

/** How an awaited request of a screen ended. */
module Fetch {

  /**
   * `Threw`: `fetch` or `res.json()` raised (network failure, unparsable body).
   * `Responded`: a response arrived; `ok` is `res.ok` and `body` its parsed JSON.
   */
  datatype Outcome<+T> = Threw | Responded(ok: bool, body: T) {

    /** A response arrived and `res.ok` holds. */
    predicate Ok() {
      Responded? && ok
    }
  }
}

/** Optional values (a JavaScript property that may be `undefined`) and the
    outcome of a network call. */
module Wrappers {

  datatype Option<+T> = None | Some(value: T) {

    /** The value, or `default` when absent. */
    function GetOr(default: T): T {
      match this
      case Some(v) => v
      case None => default
    }
  }

  /** Outcome of an awaited browser `fetch` followed by `response.json()`:
      the parsed body, or a thrown error. */
  datatype Transport<+T> = Delivered(response: T) | NetworkError
}

/** Option and Result types shared by every module, and the Python exceptions
    that the modelled code can raise, as values. */
module Wrappers {

  datatype Option<+T> = None | Some(value: T) {
    /** `dict.get(key, default)`-style access. */
    function GetOr(default: T): T {
      match this
      case Some(v) => v
      case None => default
    }
  }

  /** The Python exception classes the modelled code raises or lets through. */
  datatype Error =
    | AttributeError   // attribute or method missing on the value (e.g. `None.transform`)
    | IndexError       // `lst[-1]` on an empty list, `s.split("/")[2]` with too few fields
    | KeyError         // `d['id']` on a dict without that key
    | TypeError        // `None > 0.5`
    | PlainException   // a bare `Exception`, as `raise Exception(TypeError)` raises: its class is `Exception`
    | ValueError       // `int("x")`, `range(0, n, 0)`, `np.concatenate([])`, unpacking a short row
    | ExternalError    // any exception raised by a collaborator outside the model (LLM, network)

  datatype Result<+T> = Success(value: T) | Failure(error: Error)
}

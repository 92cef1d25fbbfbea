/** Optional values and failure-compatible results shared by every module of
    the model. `Result` carries the two error classes of the framework: errors
    found while building a plan or a route (configuration errors) and errors
    raised while a plan runs (missing state, malformed input, validation). */
module Outcomes {

  datatype Option<+T> = None | Some(value: T) {
    function GetOr(default: T): T {
      match this
      case Some(v) => v
      case None => default
    }
  }

  /** Why a handler cannot be wired up. */
  datatype ConfigReason =
    | NoComponent(parameter: string, func: string)
    | AsyncNotAllowed(func: string)

  datatype Error =
    | ConfigurationError(reason: ConfigReason)
      /** a dictionary lookup `state[key]` that found nothing */
    | MissingStateKey(key: string)
      /** a `k=v` piece of a query string that does not unpack into two parts */
    | MalformedQuery(piece: string)
      /** the query string handed to a resolver is not a string */
    | NotAQueryString
      /** `ast.literal_eval` refused the text */
    | NotALiteral(text: string)
      /** a validator refused the value */
    | ValidationError(message: string)
      /** a handler or component resolver raised */
    | CallFailed(func: string)
      /** a path parameter whose annotation has no scalar validator */
    | NoPathSchema(parameter: string)
      /** a plan without steps leaves `output_name` unbound */
    | UnboundOutputName

  datatype Result<+T> = Ok(value: T) | Err(error: Error) {
    predicate IsFailure() {
      Err?
    }

    function PropagateFailure<U>(): Result<U>
      requires Err?
    {
      Err(error)
    }

    function Extract(): T
      requires Ok?
    {
      value
    }
  }
}

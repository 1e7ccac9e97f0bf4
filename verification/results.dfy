/**
  Option and Result types shared by the model, and the errors the modelled
  Python code can raise. Each `Error` constructor names the Python exception it
  stands for.
 */
module Results {

  datatype Option<+T> = None | Some(value: T)

  /** The failures of the serialisers and of the knowledge-graph cache. */
  datatype Error =
    | KeyError(key: string)            // `data[key]` on a dict without `key`
    | NotAMapping                      // `data[...]` / `data.get(...)` on a non-dict (TypeError / AttributeError)
    | NotIterable                      // iterating a value that yields no node dicts (TypeError)
    | InvalidEnumValue                 // `ViolationType(v)` for a v that is no member value (ValueError)
    | NoAttribute(name: string)        // attribute access on None (AttributeError)
    | UnexpectedKeyword(name: string)  // a dataclass constructor given an unknown keyword (TypeError)
    | IllTyped(field: string)          // a JSON value whose shape does not fit the field's annotation
    | NoExplanation                    // `get_explanation` without a `hasExplanation` link (ValueError)
    | NotJson                          // `json.loads` on text that is not JSON

  datatype Result<+T> = Success(value: T) | Failure(error: Error) {

    predicate IsFailure() {
      Failure?
    }

    function PropagateFailure<U>(): Result<U>
      requires Failure?
    {
      Failure(error)
    }

    function Extract(): T
      requires Success?
    {
      value
    }
  }
}

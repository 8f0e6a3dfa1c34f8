/** The exceptions the modelled Python code raises, and a failure-compatible
    result type that carries either a value or one of them. */
module Errors {

  /** One constructor per Python exception class the core raises or lets
      escape. Messages are kept as the f-strings build them. */
  datatype Error =
    | ValueError(message: string)
    | KeyError(key: string)
    | NotImplementedError(message: string)
    | FileNotFoundError(message: string)
    | IndexError(message: string)
    | TypeError(message: string)

  datatype Option<+T> = None | Some(value: T)

  datatype Result<+T> = Success(value: T) | Failure(error: Error) {

    predicate IsFailure() {
      Failure?
    }

    function PropagateFailure<U>(): Result<U>
      requires Failure?
    {
      Failure(error)
    }

    function Extract(): T
      requires Success?
    {
      value
    }
  }

  /** Python's `d[k]`: the value, or `KeyError(k)` when the key is absent. */
  function Lookup(m: map<string, string>, k: string): (r: Result<string>)
    ensures r.Success? <==> k in m
    ensures r.Success? ==> r.value == m[k]
    ensures r.Failure? ==> r.error == KeyError(k)
  {
    if k in m then Success(m[k]) else Failure(KeyError(k))
  }
}

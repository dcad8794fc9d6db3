/** Failure-carrying datatypes shared by the whole model.

    `Option` stands for Python's `dict.get(key)` returning `None` when the key
    is absent, and `Result` for a computation that either yields a value or
    ends in one of the uncaught Python exceptions listed in `Fault` (or, for
    `Stall`, never ends). */
module Wrappers {

  datatype Option<+T> = None | Some(value: T) {

    /** The value, or `default` when absent: Python's `d.get(key, default)`. */
    function GetOr(default: T): T {
      match this
      case Some(v) => v
      case None => default
    }
  }

  /** The Python exceptions the modelled code can raise without catching them. */
  datatype Fault =
    | IndexError      // a subscript past the end of a list or string
    | AttributeError  // a method called on None
    | TypeError       // None where a str is needed (str.join, string concatenation)
    | KeyError        // d[key] for an absent key
    | ValueError      // random.randint(a, b) with a > b, max() or min() of nothing
    | Stall           // a loop that never ends, so the handler never returns

  datatype Result<+T> = Ok(value: T) | Crash(fault: Fault) {

    predicate IsFailure() {
      Crash?
    }

    function PropagateFailure<U>(): Result<U>
      requires Crash?
    {
      Crash(fault)
    }

    function Extract(): T
      requires Ok?
    {
      value
    }
  }

  /** Python's `str(x)` of an optional string as it appears inside an f-string:
      an absent value renders as "None". */
  function ShowOr(o: Option<string>): string {
    match o
    case Some(s) => s
    case None => "None"
  }
}

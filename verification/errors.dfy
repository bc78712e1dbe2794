/** The exceptions the component raises or lets escape, named after their Python classes. */
module Errors {

  datatype Exc =
    | InvalidPlate            // RDWEntity.InvalidPlate: the plate is not six alphanumerics
    | NotRegistered           // RDWEntity.NotRegistered: the register returned no vehicle
    | KeyError(key: string)   // a field the code indexes directly is missing
    | TypeError               // an operation applied to None or to an unhashable value
    | AttributeError          // a method looked up on None
    | ValueError              // strptime rejected a date string

  /** How an `async_update` call ends: it returns a boolean or raises. */
  datatype Outcome = Returned(ok: bool) | Raised(error: Exc)
}

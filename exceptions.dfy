/**
 * The error kinds the modelled code raises or lets escape
 * (the project's exception classes and the Python built-ins it relies on),
 * and the Option / Result wrappers the model uses in place of exceptions.
 */
module Exceptions {

  /** One constructor per exception class that the modelled code can raise. */
  datatype Error =
    | DeviceNotFoundError
    | ValidationError(message: string)        // the project's own ValidationError
    | InvalidPartNumberError(partNumber: string)
    | DatabaseError(message: string)          // e.g. a duplicate primary key
    | FileLoadError(missing: seq<string>)     // names the missing metadata fields
    | TestCriteriaError(message: string)
    | ValueError(message: string)             // built-in ValueError, pydantic's wrapper included
    | IndexError
    | TypeError                               // e.g. comparing a float with None

  datatype Option<T> = None | Some(value: T)

  /** A computation that either yields a value or raises an error. */
  datatype Result<T> = Ok(value: T) | Err(error: Error)
  {
    predicate IsFailure() { Err? }

    function PropagateFailure<U>(): Result<U>
      requires Err?
    {
      Err(error)
    }

    function Extract(): T
      requires Ok?
    {
      value
    }
  }

  /** Opaque identifiers (UUIDs in the source); only equality is used. */
  type Id = nat
}

/** Results of operations that may raise an exception in the interpreter. */
module Outcomes {

  datatype Option<+T> = None | Some(value: T)

  /** The exceptions the interpreter's core can raise, named after their cause. */
  datatype Fault =
    | SubstringOutOfRange   // String.Substring with a negative length
    | ListIndexOutOfRange   // List indexer at position -1 (no argument opened yet)
    | ArrayIndexOutOfRange  // an argument array read past its end
    | LookupFailed          // block missing, of the wrong kind, or without the property
    | TooFewColumns         // the explicit throw in the two-column layout

  datatype Result<+T> = Ok(value: T) | Err(fault: Fault)

  /** A C# `try { attempt } catch { handler }`: the handler runs only if the attempt threw. */
  function Catch<T>(attempt: Result<T>, handler: Result<T>): (r: Result<T>)
    ensures attempt.Ok? ==> r == attempt
    ensures attempt.Err? ==> r == handler
  {
    if attempt.Ok? then attempt else handler
  }
}

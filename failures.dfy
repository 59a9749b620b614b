/** The ways the probe's top-level code can stop with a Python exception,
    and a failure-compatible Result type that carries them. */
module Failures {

  /** One constructor per exception the core can raise. */
  datatype Fault =
    | KeyMissing(key: string)          // KeyError: a dictionary lookup of an absent key
    | BadValue(text: string)           // ValueError: int()/float() of malformed text, or unpacking the wrong number of parts
    | EmptySequence(name: string)      // ValueError: max() of an empty list
    | IndexOutOfRange(name: string)    // IndexError: a list indexed past its end
    | Unassigned(name: string)         // NameError: a variable read before any assignment
    | DivisionByZero                   // ZeroDivisionError

  datatype Option<+T> = None | Some(value: T)

  datatype Result<+T> = Ok(value: T) | Err(fault: Fault) {
    predicate IsFailure() { Err? }

    function PropagateFailure<U>(): Result<U>
      requires Err?
    {
      Err(fault)
    }

    function Extract(): T
      requires Ok?
    {
      value
    }
  }
}

/** Option and Result types, and the Python exceptions the modelled code raises. */
module Wrappers {

  datatype Option<+T> = None | Some(value: T)

  /** The kinds of exception the modelled functions raise, by Python class and cause. */
  datatype Error =
    | KeyError             // an equation tag missing from a dispatch table, or a missing 'v0'
    | AttributeError       // `.n` / `.nominal_value` on a plain float, `.items()` on None
    | ArityError           // TypeError: a parameter list whose length does not fit the signature
    | NotSubscriptable     // TypeError: `None['v0']`
    | IndexError           // `arg[0]` on an empty list, tuple or array
    | UnboundResult        // UnboundLocalError: debye_E_single with x <= 0 assigns no result
    | RootNotBracketed     // ValueError from brenth (no sign change) or another solver failure
    | ShapeMismatch        // ValueError from numpy broadcasting or boolean-mask assignment
    | EmptyVectorize       // ValueError: np.vectorize without otypes on a size-0 input
    | OutsideModel         // a division by zero or non-finite value, which the model does not represent
    | ZeroDivision         // ZeroDivisionError raised by the uncertainties package on a zero divisor
    | MathDomain           // ValueError: the uncertainties square root or logarithm outside its domain

  datatype Result<+T> = Ok(value: T) | Err(error: Error)
  {
    predicate IsFailure() { Err? }

    function PropagateFailure<U>(): Result<U>
      requires Err?
    {
      Err(error)
    }

    function Extract(): T
      requires Ok?
    {
      value
    }
  }
}

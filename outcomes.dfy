/** Outcomes of the modelled operations. Where numpy or PIL raise an exception,
    the model returns an `Err` carrying the kind of that exception. */
module Outcomes {

  datatype Option<+T> = None | Some(value: T)

  /** The exceptions the modelled code can raise. */
  datatype Error =
    | EmptyPopulation                       // ValueError: Generator.choice over an empty population
    | IndexOutOfBounds(row: int, col: int)  // IndexError: mask[row, col] outside the array
    | ShapeMismatch                         // ValueError: operands could not be broadcast together
    | Unreadable                            // Image.open could not read a file

  datatype Result<+T> = Ok(value: T) | Err(error: Error)
}

/** Types shared by every service of the model. */
module Common {

  /** A value that may be absent: Java's `null` or an empty `Optional`. */
  datatype Option<+T> = None | Some(value: T)

  /** The outcome of an operation that either answers or throws. */
  datatype Result<+T, +E> = Ok(value: T) | Err(error: E)

  /** Money is `BigDecimal` in the services; the model keeps it exact as an
      integer number of minor units (the product table stores scale 2). */
  type Money = int
}

/** Outcomes of operations that may panic in the modelled crates. */
module Results {

  datatype Option<+T> = None | Some(value: T)

  /** The kinds of panic the modelled code can raise. */
  datatype Panic =
    | InvalidInput        // a token that does not parse (`expect("Invalid input")`, `panic!("Invalid: ..")`)
    | IndexOutOfBounds    // indexing a `Vec` or slice past its end
    | ArithmeticOverflow  // `usize` subtraction below zero
    | StackOverflow       // unbounded recursion

  /** The value computed, or the panic that ends the computation. */
  datatype Result<+T> = Ok(value: T) | Err(panic: Panic)
}

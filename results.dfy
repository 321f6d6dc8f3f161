/** Return values and raised exceptions of the modelled Python code. */
module Results {

  datatype Option<+T> = None | Some(value: T)

  /** The Python exceptions the modelled code can raise. */
  datatype Error =
    | IndexError      // pop from an empty list, index out of range
    | ValueError      // int() of a malformed string, max() of an empty list, dict() of a bad pair
    | TypeError       // a non-string handed to re.search
    | AttributeError  // .group() called on the None that a failed regex search returns

  /** A call either returns a value or raises one of the exceptions above. */
  datatype Result<+T> = Ok(value: T) | Err(error: Error)
}

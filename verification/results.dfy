/** Optional values, and results that carry either a value or the Python
    exception the operation raises. */
module Results {

  datatype Option<+T> = None | Some(value: T)

  /** The exceptions the modelled code raises. */
  datatype Error =
    | StopIteration             // `next(iter(d))` on an empty dict
    | ValueError(message: string)

  datatype Result<+T> = Ok(value: T) | Err(error: Error)
}

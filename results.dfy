/** Optional values and results with an error path. */
module Results {

  datatype Option<+T> = None | Some(value: T)

  /** How a query can fail once its source has been resolved. */
  datatype Error =
    /** The having filter rejected every group, so there is no first group
        to take the result's fields from (an IndexError in the source). */
    | NoGroupLeft

  datatype Result<+T> = Ok(value: T) | Err(error: Error)
}

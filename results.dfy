/** Optional values and the error paths of the catalog adapter. */
module Results {

  /** A value that may be absent (an omitted query key, a node not found). */
  datatype Option<+T> = None | Some(value: T)

  /** Either a computed value or the error the source raises instead. */
  datatype Result<+T, +E> = Ok(value: T) | Err(error: E)
}

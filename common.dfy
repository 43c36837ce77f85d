/** Optional values and results with an error, shared by every module. */
module Common {

  datatype Option<+T> = None | Some(value: T)

  datatype Result<+T, +E> = Ok(value: T) | Err(error: E)

  /**
   * The framework's `ProhibitNullCharactersValidator`, which every serializer
   * character field runs: the text holds no U+0000.
   */
  predicate FreeOfNull(s: string)
  {
    '\0' !in s
  }
}

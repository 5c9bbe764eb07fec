/** What several parts of the kernel share. */
module Common {

  datatype Option<T> = None | Some(value: T)

  /** The size of a page in bytes. */
  const PAGE: int := 0x1000
}

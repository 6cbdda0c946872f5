/** Value types shared by the model of the clipboard-to-file snip helper. */
module Types {

  /** One octet of clipboard data. */
  newtype byte = x: int | 0 <= x < 256

  /** Raw CF_DIB bitmap data as the clipboard hands it over. */
  type Bytes = seq<byte>

  /** An observation that may be missing (Python's `None`). */
  datatype Option<+T> = None | Some(value: T)
}

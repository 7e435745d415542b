/** Small result types shared by the whole model. */
module Wrappers {

  /** A value that may be absent (Python's `Optional` / `None`). */
  datatype Option<+T> = None | Some(value: T)

  /** The outcome of a Python call: it returns a value, or it raises an
      exception that the caller does not catch. */
  datatype Call<+T> = Returns(value: T) | Raises
}

/** Optional values and results with an error, as the analysis pipeline uses them
    in place of Python's `None` and of the `st.stop()` halts. */
module Wrappers {

  datatype Option<+T> = None | Some(value: T)

  datatype Result<+R, +E> = Success(value: R) | Failure(error: E)
}

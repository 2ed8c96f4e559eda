/** Option and Result, the two failure-carrying shapes the Rust code uses
    (`Option<T>` and `anyhow::Result<T>`; an error is kept as its message). */
module Wrappers {

  datatype Option<+T> = None | Some(value: T) {
    function GetOr(default: T): T {
      match this
      case Some(v) => v
      case None => default
    }
  }

  datatype Result<+T> = Ok(value: T) | Err(msg: string)

  /** What reading a persisted store from disk can find: no file, a file
      that cannot be read, a file that does not parse, or a stored value.
      The file system and the serialisation formats are not modelled. */
  datatype Persisted<+T> = Absent | ReadFailed | ParseFailed | Stored(value: T)

  /** Rust's `()` in `Result<()>`. */
  datatype Unit = Unit
}

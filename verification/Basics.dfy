/** Vocabulary shared by every module of the model. */
module Basics {
  datatype Option<+T> = None | Some(value: T)

  datatype Result<+T, +E> = Ok(value: T) | Err(error: E)

  /** One octet of a block, a key or a message. */
  newtype Byte = b: int | 0 <= b < 256

  type Bytes = seq<Byte>

  predicate NoDuplicates<T(==)>(s: seq<T>) {
    forall i, j :: 0 <= i < j < |s| ==> s[i] != s[j]
  }
}

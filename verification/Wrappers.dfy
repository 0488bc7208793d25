/** The two failure-aware result shapes used by every module of the model. */
module Wrappers {

  datatype Option<+T> = None | Some(value: T)

  datatype Result<+T, +E> = Ok(value: T) | Err(error: E)

  /** A SHA-256 digest. The digest of a value is represented by that value, which makes the
      function injective: two digests are equal exactly when their preimages are. */
  datatype Sha256<+T> = Sha256(preimage: T)
}

/** The crate's error values. */
module Errors {
  /** The unit error of the older revision: a basis matrix could not be inverted. */
  datatype InverseOfSingularMatrix = InverseOfSingularMatrix

  /** The error of the newer revision. */
  datatype MatrixError =
    | InverseSingular  // the basis matrix could not be inverted
    | NormalizeZero    // a vector to be normalised has norm zero
}

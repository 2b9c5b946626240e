/** The failure conditions of the inference engine.  Every `throw` of the C++ source becomes one
    constructor of `Error`, and an operation that can throw returns a `Result` or an `Outcome`
    instead of raising. */
module Errors {

  datatype Error =
    // tensor.cpp
    | ZeroDimension          // constructing a tensor with a dimension of 0
    | ReshapeSizeMismatch    // reshape to a shape whose product differs from the size
    | RankMismatch(arity: nat) // at(i), at(i, j) or at(i, j, k) on a tensor of another rank
    | MatmulNot2D
    | MatmulShapeMismatch
    | AddShapeMismatch
    | SoftmaxShapeMismatch
    | SigmoidShapeMismatch
    | MulShapeMismatch
    // layers/rmsnorm.cpp
    | RmsNormShapeMismatch
    // layers/embedding.cpp
    | NotSingleToken
    | OutputNot1D
    | TokenOutOfRange
    | EmbeddingDimMismatch
    // model.cpp
    | CannotOpenFile
    | BadMagic
    | UnsupportedVersion

  datatype Result<T> = Success(value: T) | Failure(error: Error)

  datatype Outcome = Pass | Fail(error: Error)
}

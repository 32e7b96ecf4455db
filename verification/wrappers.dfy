/** Failure-carrying wrappers shared by every stage of the pipeline. */
module Wrappers {

  /** An optional value: a call's result variable, an else branch, a fault label. */
  datatype Option<+T> = None | Some(value: T)

  /** The outcome of a stage that can abort: the scanner's `LexError`, an argument list
      that stopped at a runtime fault. */
  datatype Result<+R, +E> = Success(value: R) | Failure(error: E)
}

/** The two revisions of the interpreter: the TypeScript sources under `src/` and the
    later compiled revision in `web/bundle.js`. Each stage consults the revision only
    at the points where the two differ. */
module Revisions {

  datatype Revision = Src | Bundle
}

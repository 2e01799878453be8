/** Absent JSON fields and the two ways an awaited collaborator call can end. */
module Wrappers {

  /** A request field, error property or environment setting that may be missing:
      `None` is a JSON key that was not sent, or a property that is `undefined`. */
  datatype Option<T> = None | Some(value: T)

  /** What an awaited call into a collaborator (database, bcrypt, jsonwebtoken) did:
      it either returned a value or threw. */
  datatype Reply<T> = Returns(value: T) | Throws
}

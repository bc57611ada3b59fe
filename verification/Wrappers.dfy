/** Result and option types shared by the models: `Failure` stands for a thrown error or an
    `Err`, and the error is a short tag rather than the message text. */
module Wrappers {
  datatype Option<+T> = None | Some(value: T) {
    function GetOr(default: T): T {
      match this
      case Some(v) => v
      case None => default
    }
  }

  datatype Result<+T, +E> = Success(value: T) | Failure(error: E)
}

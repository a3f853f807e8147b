/** Small datatypes shared by the other modules. */
module Wrappers {

  datatype Option<+T> = None | Some(value: T)

  // The HTTP statuses that the handlers answer with.
  datatype Status =
    | StatusOK
    | StatusBadRequest
    | StatusUnauthorized
    | StatusNotFound
    | StatusMethodNotAllowed
    | StatusInternalServerError
}

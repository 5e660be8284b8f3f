/** Absent values and failures, as the JavaScript code meets them: `undefined`
    form fields become `None`, a thrown `Error` becomes `Failure`. */
module Outcomes {

  datatype Option<+T> = None | Some(value: T)

  datatype Result<+R, +E> = Success(value: R) | Failure(error: E)
}

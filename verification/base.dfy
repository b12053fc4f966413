/** Failure-carrying values shared by the model: JavaScript's `undefined`
    becomes `None`, and a thrown exception becomes a `Failure`. */
module Base {

  datatype Option<+T> = None | Some(value: T)

  datatype Result<+T, +E> = Success(value: T) | Failure(error: E)

  /** The exceptions that can reach the component's `catch` block. */
  datatype JsError =
    /** `axios.get` rejected: a transport failure or a response whose status is not 2xx. */
    | FetchRejected
    /** A property was read from `undefined`; `reading` names that property,
        as in "Cannot read properties of undefined (reading 'value')". */
    | TypeError(reading: string)
}

/** Option and error-carrying result types shared by the catalogue model. */
module Wrappers {

  /** An optional value: a nullable column or a lookup that may find nothing. */
  datatype Option<+T> = None | Some(value: T)

  /** The outcome of a request handler: a response body, or an HTTP error
      with its status code and detail message. */
  datatype Result<+T> = Ok(value: T) | Err(status: int, detail: string)
}

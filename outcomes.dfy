/** Option and Result values: the model's stand-ins for Python's None and for raised exceptions. */
module Outcomes {

  datatype Option<+T> = None | Some(value: T)

  /** `Err` plays the part of an exception that the modelled code raises or catches. */
  datatype Result<+T, +E> = Ok(value: T) | Err(error: E)

  /** An HTTP error raised as FastAPI's `HTTPException(status_code, detail)`. */
  datatype HttpError = HttpError(status: int, detail: string)

  /** The response the server gives for an exception the endpoint does not catch. */
  const InternalError := HttpError(500, "Internal Server Error")

  /** An embedding vector returned by the embedding model. */
  type Embedding = seq<real>
}

/** The catalog's REST error shape (`ErrorModel` and `IcebergErrorResponse`)
    and the constructors the authorization layer uses to fill it. */
module Rest {
  import opened Wrappers

  const BAD_REQUEST: nat := 400
  const UNAUTHORIZED: nat := 401
  const NOT_FOUND: nat := 404
  const CONFLICT: nat := 409
  const INTERNAL_SERVER_ERROR: nat := 500

  /** An error as a client sees it: a message, a machine-readable type tag,
      an HTTP status code, optional diagnostic lines, and the error that
      caused it, kept for logging. */
  datatype ErrorModel<+C> = ErrorModel(
    message: string,
    errorType: string,
    code: nat,
    stack: Option<seq<string>>,
    source: Option<C>)

  /** The response body wrapping an error model. */
  datatype IcebergErrorResponse<+C> = IcebergErrorResponse(error: ErrorModel<C>)

  function BadRequest<C>(message: string, errorType: string, source: Option<C>): ErrorModel<C> {
    ErrorModel(message, errorType, BAD_REQUEST, None, source)
  }

  function Unauthorized<C>(message: string, errorType: string, source: Option<C>): ErrorModel<C> {
    ErrorModel(message, errorType, UNAUTHORIZED, None, source)
  }

  function Conflict<C>(message: string, errorType: string, source: Option<C>): ErrorModel<C> {
    ErrorModel(message, errorType, CONFLICT, None, source)
  }

  function NotFound<C>(message: string, errorType: string, source: Option<C>): ErrorModel<C> {
    ErrorModel(message, errorType, NOT_FOUND, None, source)
  }

  function New<C>(message: string, errorType: string, code: nat, source: Option<C>): ErrorModel<C> {
    ErrorModel(message, errorType, code, None, source)
  }

  /** `From<ErrorModel> for IcebergErrorResponse`. */
  function ToResponse<C>(model: ErrorModel<C>): IcebergErrorResponse<C> {
    IcebergErrorResponse(model)
  }
}

/**
 * The error taxonomy of the client: the library's own exception classes
 * (pycps/errors.py) and the Python built-in exceptions that the modelled code
 * lets escape to its callers.
 */
module Errors {
  import opened Wrappers

  /** The children of a server `error` block, as read into APIError and APIWarning. */
  datatype ErrorFields = ErrorFields(
    code: Option<string>,
    text: Option<string>,
    level: Option<string>,
    source: Option<string>,
    message: Option<string>,
    documentIds: seq<Option<string>>)

  datatype CpsError =
    | ConnectionError                        // the transport could not be opened or used
    | XmlError(xmlDump: Option<string>)      // a document could not be turned into a tree
    | ParameterError(dump: string)           // a caller argument breaks a documented constraint
    | ApiError(code: int, fields: ErrorFields) // the server reported a fatal error
    | ResponseError(response: string)        // the response text is not XML
    | ValueError
    | TypeError
    | KeyError(key: string)
    | AttributeError
    | NameError(name: string)

  /** A value, or the exception raised instead of returning it. */
  type Outcome<T> = Result<T, CpsError>
}

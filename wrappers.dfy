/** Option, the errors the request pipeline can raise, and a Result over them. */
module Wrappers {

  datatype Option<+T> = None | Some(value: T)

  /** The exceptions the modelled code throws or lets through. */
  datatype Error =
    | UnknownAuthType(name: string)   // thrown by applyAuthToRequest for a scheme it does not know
    | TypeError(what: string)         // a property read on undefined (pathParams, authTypes)
    | ReferenceError(what: string)    // a global the host does not define (Buffer)
    | SyntaxError                     // JSON.parse of a body that is not JSON
    | TransportFailure(detail: string) // a rejection of the dispatched request, passed through unchanged

  /** The message an `Error` carries. */
  function Message(e: Error): string
  {
    match e
    case UnknownAuthType(name) => "Unknown authentication type: " + name
    case TypeError(what) => "Cannot read properties of undefined (reading '" + what + "')"
    case ReferenceError(what) => what + " is not defined"
    case SyntaxError => "Unexpected token in JSON"
    case TransportFailure(detail) => detail
  }

  datatype Result<+T> = Ok(value: T) | Err(error: Error)
}

/** Option and Result, the failure-carrying wrappers used throughout the model. */
module Wrappers {

  datatype Option<+T> = None | Some(value: T)

  /** The exceptions the modelled Python code can raise, by kind. */
  datatype Fault =
    | NoUrlInCurl          // ValueError raised by parse_curl
    | InvalidUrl           // ValueError raised by urllib's urlparse
    | HttpStatus(code: int)  // requests' HTTPError from raise_for_status
    | NotJson              // JSONDecodeError from Response.json()
    | WrongType            // AttributeError / TypeError on an unexpected JSON shape
    | BadIntLiteral        // ValueError from int() on a string
    | CookieConflict(name: string)  // requests' CookieConflictError
    | ServerExhausted      // the modelled server has no answer for a further page

  datatype Result<+R> = Ok(value: R) | Err(fault: Fault)
}

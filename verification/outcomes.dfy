/** Absent values, results and the exception kinds the backend raises.
    Java's `null` becomes `None`; a thrown exception becomes `Err`. */
module Outcomes {

  datatype Option<+T> = None | Some(value: T) {

    /** The value, or `default` when absent (Java's "null keeps the old value"). */
    function GetOr(default: T): T {
      match this
      case Some(v) => v
      case None => default
    }
  }

  /** One rejected field of a request body, as a bean-validation violation reports it. */
  datatype FieldError = FieldError(field: string, message: string)

  /** The exception kinds that reach the request boundary. */
  datatype Error =
    | NotFound(resource: string, id: int)         // ResourceNotFoundException(resource, id)
    | DuplicateResource(message: string)          // DuplicateResourceException
    | BadCredentials(message: string)             // BadCredentialsException
    | AccessDenied(message: string)               // AccessDeniedException thrown by a controller
    | AuthorizationDenied                         // AuthorizationDeniedException from @PreAuthorize
    | ValidationFailed(violations: seq<FieldError>) // MethodArgumentNotValidException
    | IllegalArgument(message: string)            // IllegalArgumentException
    | IllegalState(message: string)               // IllegalStateException
    | NullPointer                                 // NullPointerException
    | IndexOutOfBounds                            // ArrayIndexOutOfBoundsException
    | NullId                                      // a repository refusing a null id
    | InvalidJwt                                  // JwtException raised while parsing a token

  /** Either a value or the exception that replaced it; usable with `:-`. */
  datatype Result<+T> = Ok(value: T) | Err(error: Error) {

    predicate IsFailure() {
      Err?
    }

    function PropagateFailure<U>(): Result<U>
      requires Err?
    {
      Err(error)
    }

    function Extract(): T
      requires Ok?
    {
      value
    }
  }
}

/** The exceptions the core throws or lets through, and the HTTP response values controllers return. */
module Exceptions {
  import opened Wrappers

  /**
   * The kinds of exception the modelled code can raise. The persistence-layer
   * kinds stand for what the JPA store raises on a failed write; their message
   * text is not part of the model.
   */
  datatype Exception =
    | ClientManagerException(message: string)
    | BadCredentialsException(message: string)
    | IllegalArgumentException(message: string)
    | NoHandlerFoundException(message: string)
    | MethodArgumentNotValidException(message: string)
    | NullPointerException
    | ConstraintViolationException(fields: set<string>)
    | DataIntegrityViolationException
    | IdentifierNotAssignedException

  /** `ex.getMessage()`: the message text, absent for the kinds whose text is not modelled. */
  function GetMessage(e: Exception): (r: Option<string>)
    ensures r.Some? <==>
      e.ClientManagerException? || e.BadCredentialsException? || e.IllegalArgumentException? ||
      e.NoHandlerFoundException? || e.MethodArgumentNotValidException?
    ensures r.Some? ==> r.value == e.message
  {
    match e
    case ClientManagerException(m) => Some(m)
    case BadCredentialsException(m) => Some(m)
    case IllegalArgumentException(m) => Some(m)
    case NoHandlerFoundException(m) => Some(m)
    case MethodArgumentNotValidException(m) => Some(m)
    case _ => None
  }

  /** The `HttpStatus` values the controllers and the exception handler use. */
  datatype HttpStatus = OK | CREATED | ACCEPTED | NO_CONTENT | BAD_REQUEST {
    function Code(): int {
      match this
      case OK => 200
      case CREATED => 201
      case ACCEPTED => 202
      case NO_CONTENT => 204
      case BAD_REQUEST => 400
    }
  }

  /** `ResponseEntity<T>`: an optional body and a status. */
  datatype ResponseEntity<T> = ResponseEntity(body: Option<T>, status: HttpStatus)
}

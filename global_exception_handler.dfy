/**
 * The controller advice: every exception a controller lets through is turned
 * into a 400 response whose body carries the exception's message, the request
 * description and the time.
 */
module GlobalExceptionHandler {
  import opened Wrappers
  import opened Exceptions

  /** The four handler methods of the advice. */
  datatype Handler = NoHandler | ParentException | MethodArgValidException | GymException

  /** The error body: message, request description, time stamp. */
  datatype ErrorDetails = ErrorDetails(message: Option<string>, description: string, timeStamp: int)

  /** What the client finally receives: the controller's entity, or the advice's error entity. */
  datatype HttpReply<T> = Success(entity: ResponseEntity<T>) | Failure(error: ResponseEntity<ErrorDetails>)

  /**
   * The handler Spring selects: the one declared for the most specific class of
   * the exception; `Exception.class` catches everything else.
   */
  function HandlerFor(e: Exception): (h: Handler)
    ensures h == GymException <==> e.ClientManagerException?
    ensures h == NoHandler <==> e.NoHandlerFoundException?
    ensures h == MethodArgValidException <==> e.MethodArgumentNotValidException?
  {
    match e
    case ClientManagerException(_) => GymException
    case NoHandlerFoundException(_) => NoHandler
    case MethodArgumentNotValidException(_) => MethodArgValidException
    case _ => ParentException
  }

  /** `WebRequest.getDescription(false)` for a servlet request. */
  function Description(requestUri: string): string {
    "uri=" + requestUri
  }

  /** The body shared by the four handler methods; each answers `BAD_REQUEST`. */
  function HandleWith(h: Handler, e: Exception, requestUri: string, now: int): ResponseEntity<ErrorDetails> {
    match h
    case NoHandler => ResponseEntity(Some(ErrorDetails(GetMessage(e), Description(requestUri), now)), BAD_REQUEST)
    case ParentException => ResponseEntity(Some(ErrorDetails(GetMessage(e), Description(requestUri), now)), BAD_REQUEST)
    case MethodArgValidException => ResponseEntity(Some(ErrorDetails(GetMessage(e), Description(requestUri), now)), BAD_REQUEST)
    case GymException => ResponseEntity(Some(ErrorDetails(GetMessage(e), Description(requestUri), now)), BAD_REQUEST)
  }

  /** Handling an exception: whichever handler applies, the status is 400 and the body echoes the message. */
  function Handle(e: Exception, requestUri: string, now: int): (r: ResponseEntity<ErrorDetails>)
    ensures r.status == BAD_REQUEST && r.status.Code() == 400
    ensures r.body.Some?
    ensures r.body.value.message == GetMessage(e)
    ensures r.body.value.description == "uri=" + requestUri
    ensures r.body.value.timeStamp == now
    ensures e.ClientManagerException? ==> r.body.value.message == Some(e.message)
  {
    HandleWith(HandlerFor(e), e, requestUri, now)
  }

  /** The reply to a controller call: its entity when it returned, the advice's answer when it threw. */
  function Reply<T>(r: Result<ResponseEntity<T>, Exception>, requestUri: string, now: int): (reply: HttpReply<T>)
    ensures r.Ok? <==> reply.Success?
    ensures r.Ok? ==> reply.entity == r.value
    ensures r.Err? ==> reply.error.status.Code() == 400 && reply.error.body.Some?
    ensures r.Err? ==> reply.error.body.value.message == GetMessage(r.error)
  {
    match r
    case Ok(entity) => Success(entity)
    case Err(e) => Failure(Handle(e, requestUri, now))
  }

  /** No handler of the advice answers with a status other than 400. */
  lemma OnlyBadRequest(h: Handler, e: Exception, requestUri: string, now: int)
    ensures HandleWith(h, e, requestUri, now).status.Code() == 400
  {
  }
}

/** controller/handler/RestExceptionHandler.java: the HTTP status and the
    `ErrorInfo` body an exception escaping a controller is turned into. */
module ExceptionHandler {
  import opened Common
  import Validation

  /** `ErrorInfo(message, requestURI[, messages])`. */
  datatype ErrorInfo = ErrorInfo(message: string, requestUri: string, messages: seq<string>)

  datatype Response = Response(status: nat, body: ErrorInfo)

  const BAD_REQUEST: nat := 400
  const UNAUTHORIZED: nat := 401
  const NOT_FOUND: nat := 404
  const INTERNAL_SERVER_ERROR: nat := 500

  /** The exceptions one of the five handlers catches. */
  predicate Handled(e: Error) {
    e.IllegalState? || e.Unauthorized? || e.FirebaseAuth? || e.Validation? || e.NotFound?
  }

  /** The handler chosen for `e`, or None when no handler matches and the
      exception goes on to the container's default error page. */
  function Handle(e: Error, requestUri: string): (r: Option<Response>)
    ensures r.Some? <==> Handled(e)
    ensures r.Some? ==> r.value.body.requestUri == requestUri
    ensures r.Some? ==> r.value.status in {BAD_REQUEST, UNAUTHORIZED, NOT_FOUND, INTERNAL_SERVER_ERROR}
    ensures r.Some? && r.value.status == BAD_REQUEST ==> e.IllegalState? || e.Validation?
    ensures r.Some? && !e.Validation? ==> r.value.body == ErrorInfo(e.message, requestUri, [])
    ensures e.Validation? ==> r == Some(Response(BAD_REQUEST, ErrorInfo("Validation failed", requestUri, e.fieldMessages)))
  {
    match e
    case IllegalState(m) => Some(Response(BAD_REQUEST, ErrorInfo(m, requestUri, [])))
    case Unauthorized(m) => Some(Response(UNAUTHORIZED, ErrorInfo(m, requestUri, [])))
    case FirebaseAuth(m) => Some(Response(INTERNAL_SERVER_ERROR, ErrorInfo(m, requestUri, [])))
    case Validation(ms) => Some(Response(BAD_REQUEST, ErrorInfo("Validation failed", requestUri, ms)))
    case NotFound(m) => Some(Response(NOT_FOUND, ErrorInfo(m, requestUri, [])))
    case _ => None
  }

  /** Each handled kind has its own status, so the status tells the kind
      apart except for the two kinds that share 400. */
  lemma StatusDeterminesKind(e: Error, uri: string)
    requires Handled(e)
    ensures Handle(e, uri).value.status == UNAUTHORIZED <==> e.Unauthorized?
    ensures Handle(e, uri).value.status == NOT_FOUND <==> e.NotFound?
    ensures Handle(e, uri).value.status == INTERNAL_SERVER_ERROR <==> e.FirebaseAuth?
  {
  }

  /** A plain RuntimeException, such as "User already deleted", and the
      other exceptions of the model reach no handler. */
  lemma UnhandledKinds(m: string, uri: string)
    ensures Handle(Runtime(m), uri).None? && Handle(IllegalArgument(m), uri).None?
    ensures Handle(BadRequest(m), uri).None? && Handle(IO(m), uri).None?
    ensures Handle(NullPointer, uri).None? && Handle(IndexOutOfBounds, uri).None?
  {
  }

  /** A request body that breaks `@NullCheck` answers 400 with one message
      per failed field, in field order. */
  lemma InvalidBodyResponse(fields: seq<Validation.Checked>, uri: string)
    requires exists i :: 0 <= i < |fields| && !Validation.IsValid(fields[i].value)
    ensures var r := Handle(Validation(Validation.Violations(fields)), uri);
            r.Some? && r.value.status == BAD_REQUEST && r.value.body.messages != []
            && r.value.body.message == "Validation failed"
  {
    var msgs := Validation.Violations(fields);
    assert msgs != [];
  }
}

/** The global exception handler: every exception that reaches the web layer
    becomes an HTTP status and a JSON error body. Spring picks the handler of
    the most specific exception class, so UserNotAuthorized shares the handler
    of its superclass AuthenticationException, and `Exception` catches the rest. */
module ErrorTranslation {
  import opened Common
  import opened AppErrors

  /** ValidationErrorDTO. */
  datatype ValidationError = ValidationError(field: string, message: string)

  /** ErrorResponseDTO; `errors` is null (and left out of the JSON) except for
      a field-validation failure. */
  datatype ErrorResponse = ErrorResponse(message: string, status: int, statusError: string,
                                         errors: Option<seq<ValidationError>>)

  const BadRequest := 400
  const Unauthorized := 401
  const NotFound := 404
  const Conflict := 409
  const InternalServerError := 500

  const FieldValidationMessage := "Error on Field Validation"
  const UnexpectedMessage := "Um erro inesperado ocorreu. Contate o Suporte."

  /** `HttpStatus.getReasonPhrase()` of the statuses the handler answers with. */
  function ReasonPhrase(status: int): string {
    if status == BadRequest then "Bad Request"
    else if status == Unauthorized then "Unauthorized"
    else if status == NotFound then "Not Found"
    else if status == Conflict then "Conflict"
    else if status == InternalServerError then "Internal Server Error"
    else ""
  }

  /** The stream that turns each field error into a {field, message} entry. */
  function ToValidationErrors(fieldErrors: seq<FieldError>): (r: seq<ValidationError>)
    ensures |r| == |fieldErrors|
    ensures forall i :: 0 <= i < |r| ==>
              r[i].field == fieldErrors[i].field && r[i].message == fieldErrors[i].defaultMessage
  {
    if fieldErrors == [] then []
    else [ValidationError(fieldErrors[0].field, fieldErrors[0].defaultMessage)]
         + ToValidationErrors(fieldErrors[1..])
  }

  /** A response without a list of field errors (the three-argument constructor). */
  function Plain(message: string, status: int): ErrorResponse {
    ErrorResponse(message, status, ReasonPhrase(status), None)
  }

  /** The seven @ExceptionHandler methods as one function of the exception. */
  function Handle(e: AppError): (r: ErrorResponse)
    // the status line is the one the error kind promises
    ensures r.status == Conflict <==> e.ResourceAlreadyExists?
    ensures r.status == NotFound <==> e.ResourceNotFound?
    ensures r.status == Unauthorized <==> e.IsAuthentication()
    ensures r.status == BadRequest <==> (e.BusinessRule? || e.MessageNotReadable? || e.FieldValidation?)
    ensures r.status == InternalServerError <==> e.Unexpected?
    ensures r.statusError == ReasonPhrase(r.status) && r.statusError != ""
    // the exception's own message reaches the client, except for unclassified errors
    ensures (e.ResourceAlreadyExists? || e.ResourceNotFound? || e.BusinessRule? || e.IsAuthentication())
              ==> r.message == e.message
    ensures e.MessageNotReadable? ==> r.message == e.causeMessage
    ensures e.Unexpected? ==> r.message == UnexpectedMessage
    // only a validation failure carries the list, one entry per field error, in order
    ensures r.errors.Some? <==> e.FieldValidation?
    ensures e.FieldValidation? ==>
              r.message == FieldValidationMessage &&
              |r.errors.value| == |e.fieldErrors| &&
              forall i :: 0 <= i < |e.fieldErrors| ==>
                r.errors.value[i] == ValidationError(e.fieldErrors[i].field, e.fieldErrors[i].defaultMessage)
  {
    match e
    case MessageNotReadable(cause) => Plain(cause, BadRequest)
    case ResourceAlreadyExists(m) => Plain(m, Conflict)
    case ResourceNotFound(m) => Plain(m, NotFound)
    case BusinessRule(m) => Plain(m, BadRequest)
    case Authentication(m) => Plain(m, Unauthorized)
    case UserNotAuthorized(m) => Plain(m, Unauthorized)
    case FieldValidation(fes) =>
      ErrorResponse(FieldValidationMessage, BadRequest, ReasonPhrase(BadRequest), Some(ToValidationErrors(fes)))
    case Unexpected(_) => Plain(UnexpectedMessage, InternalServerError)
  }

  /** An unclassified exception never shows its cause: any two of them get the
      same response. */
  lemma UnexpectedCauseNeverLeaks(a: string, b: string)
    ensures Handle(Unexpected(a)) == Handle(Unexpected(b))
    ensures Handle(Unexpected(a)).message != a || a == UnexpectedMessage
  {
  }

  /** Every response is an error response: a 4xx or a 5xx status. */
  lemma StatusIsAnError(e: AppError)
    ensures 400 <= Handle(e).status < 600
  {
  }
}

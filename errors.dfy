/** The exceptions the services and the authentication filter raise, and the
    framework exceptions the global handler also translates. */
module AppErrors {

  /** One field error reported by Bean Validation (`FieldError`). */
  datatype FieldError = FieldError(field: string, defaultMessage: string)

  datatype AppError =
    | ResourceAlreadyExists(message: string)    // ResourceAlreadyExistsException
    | ResourceNotFound(message: string)         // ResourceNotFoundException
    | BusinessRule(message: string)             // BusinessRuleException
    | Authentication(message: string)           // AuthenticationException
    | UserNotAuthorized(message: string)        // UserNotAuthorizedException, a subclass of AuthenticationException
    | MessageNotReadable(causeMessage: string)  // HttpMessageNotReadableException, with its most specific cause's message
    | FieldValidation(fieldErrors: seq<FieldError>)  // MethodArgumentNotValidException
    | Unexpected(cause: string)                 // any other exception (NullPointerException, IndexOutOfBounds, ...)
  {
    /** True of the exceptions that are instances of AuthenticationException. */
    predicate IsAuthentication() {
      Authentication? || UserNotAuthorized?
    }
  }

  // Names of the unchecked JDK exceptions the core can run into.
  const NullPointer := "NullPointerException"
  const StringIndexOutOfBounds := "StringIndexOutOfBoundsException"
  const ArrayIndexOutOfBounds := "ArrayIndexOutOfBoundsException"
  const IllegalArgument := "IllegalArgumentException"
}

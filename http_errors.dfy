/** How the two HTTP servers turn a thrown value into a reply (the `setErrorHandler`
    callbacks), and how they turn a failed schema validation into an input error (the
    `setSchemaErrorFormatter` callbacks). The API server knows three error classes; the
    backend server knows three more. */
module HttpErrors {
  import opened Wrappers
  import opened Strings
  import opened JsonValues

  /** The classes the handlers test with `instanceof`; `OtherError` is any other `Error`. */
  datatype ErrorClass =
    | InputNotValidError | ResourceNotFoundError | OperationNotValidError
    | ResourceAlreadyExistsError | UnauthorizedAccessError | ForbiddenAccessError
    | OtherError

  /** A thrown value: an `Error` with its fields (`context` is present for the errors
      derived from `BaseError`), or anything else. */
  datatype Thrown =
    | ErrorObject(errorClass: ErrorClass, name: string, message: string,
                  stack: Option<string>, cause: Option<Json>, context: Option<Json>)
    | NonError(value: Json)

  /** A reply body: the error's own fields with `stack` and `cause` set to `undefined`, or
      the fixed internal-error body. */
  datatype ErrorBody =
    | Detailed(name: string, message: string, stack: Option<string>, cause: Option<Json>, context: Option<Json>)
    | Generic(name: string, message: string)

  datatype Reply = Reply(status: int, body: ErrorBody)

  const BadRequest := 400
  const Unauthorized := 401
  const Forbidden := 403
  const NotFound := 404
  const Conflict := 409
  const InternalServerError := 500

  const InternalServerErrorBody := Generic("InternalServerError", "Internal server error")

  /** `{...errorContext, stack: undefined, cause: undefined}` for an `Error`. */
  function ResponseError(e: Thrown): ErrorBody
    requires e.ErrorObject?
  {
    Detailed(e.name, e.message, None, None, e.context)
  }

  predicate IsA(e: Thrown, c: ErrorClass) {
    e.ErrorObject? && e.errorClass == c
  }

  /** The API server's chain. */
  function ApiErrorReply(e: Thrown): (r: Reply)
    ensures r.status == BadRequest <==> IsA(e, InputNotValidError) || IsA(e, OperationNotValidError)
    ensures r.status == NotFound <==> IsA(e, ResourceNotFoundError)
    ensures r.status == InternalServerError <==>
      !(IsA(e, InputNotValidError) || IsA(e, ResourceNotFoundError) || IsA(e, OperationNotValidError))
    ensures r.status in {BadRequest, NotFound, InternalServerError}
    ensures r.status == InternalServerError ==> r.body == InternalServerErrorBody
    ensures r.status != InternalServerError ==>
      r.body == Detailed(e.name, e.message, None, None, e.context)
  {
    if IsA(e, InputNotValidError) then Reply(BadRequest, ResponseError(e))
    else if IsA(e, ResourceNotFoundError) then Reply(NotFound, ResponseError(e))
    else if IsA(e, OperationNotValidError) then Reply(BadRequest, ResponseError(e))
    else Reply(InternalServerError, InternalServerErrorBody)
  }

  /** The backend server's chain: the API's three tests, then three more. */
  function BackendErrorReply(e: Thrown): (r: Reply)
    ensures r.status == BadRequest <==> IsA(e, InputNotValidError) || IsA(e, OperationNotValidError)
    ensures r.status == NotFound <==> IsA(e, ResourceNotFoundError)
    ensures r.status == Conflict <==> IsA(e, ResourceAlreadyExistsError)
    ensures r.status == Unauthorized <==> IsA(e, UnauthorizedAccessError)
    ensures r.status == Forbidden <==> IsA(e, ForbiddenAccessError)
    ensures r.status == InternalServerError <==> !e.ErrorObject? || e.errorClass == OtherError
    ensures r.status == InternalServerError ==> r.body == InternalServerErrorBody
    ensures r.status != InternalServerError ==>
      r.body == Detailed(e.name, e.message, None, None, e.context)
  {
    if IsA(e, InputNotValidError) then Reply(BadRequest, ResponseError(e))
    else if IsA(e, ResourceNotFoundError) then Reply(NotFound, ResponseError(e))
    else if IsA(e, OperationNotValidError) then Reply(BadRequest, ResponseError(e))
    else if IsA(e, ResourceAlreadyExistsError) then Reply(Conflict, ResponseError(e))
    else if IsA(e, UnauthorizedAccessError) then Reply(Unauthorized, ResponseError(e))
    else if IsA(e, ForbiddenAccessError) then Reply(Forbidden, ResponseError(e))
    else Reply(InternalServerError, InternalServerErrorBody)
  }

  /** The backend chain extends the API chain: the two agree except on the three classes
      only the backend knows, which the API answers with 500. */
  lemma BackendExtendsApi(e: Thrown)
    ensures !(IsA(e, ResourceAlreadyExistsError) || IsA(e, UnauthorizedAccessError) || IsA(e, ForbiddenAccessError))
      ==> BackendErrorReply(e) == ApiErrorReply(e)
    ensures IsA(e, ResourceAlreadyExistsError) || IsA(e, UnauthorizedAccessError) || IsA(e, ForbiddenAccessError)
      ==> (ApiErrorReply(e) == Reply(InternalServerError, InternalServerErrorBody)
           && BackendErrorReply(e).status != InternalServerError)
  {
  }

  /** No reply of either server carries a stack trace or a cause. */
  lemma RepliesHideStackAndCause(e: Thrown)
    ensures ApiErrorReply(e).body.Detailed? ==> ApiErrorReply(e).body.stack.None? && ApiErrorReply(e).body.cause.None?
    ensures BackendErrorReply(e).body.Detailed? ==> BackendErrorReply(e).body.stack.None? && BackendErrorReply(e).body.cause.None?
  {
  }

  /** One entry of the validator's error list. */
  datatype ValidationError = ValidationError(instancePath: string, message: Option<string>)

  /** A template literal's rendering of an optional string. */
  function TemplateText(s: Option<string>): string {
    if s.Some? then s.value else "undefined"
  }

  /** The `reason` of the `InputNotValidError` the formatter builds:
      `${dataVar}${instancePath} ${message}` of the first validation error. The list is
      never empty when the validator calls the formatter. */
  function SchemaErrorReason(errors: seq<ValidationError>, dataVar: string): (reason: string)
    requires |errors| > 0
    ensures StartsWith(reason, dataVar + errors[0].instancePath + " ")
    ensures EndsWith(reason, TemplateText(errors[0].message))
  {
    dataVar + errors[0].instancePath + " " + TemplateText(errors[0].message)
  }

  /** Only the first validation error is reported: the errors after it change nothing. */
  lemma SchemaErrorReasonUsesFirstOnly(errors: seq<ValidationError>, others: seq<ValidationError>, dataVar: string)
    requires |errors| > 0 && |others| > 0 && errors[0] == others[0]
    ensures SchemaErrorReason(errors, dataVar) == SchemaErrorReason(others, dataVar)
  {
  }
}

/** The JSON response envelope every handler replies with (lib/api/responses.ts):
    `{ success, message, data?, error?, errors? }` plus the HTTP status. */
module Responses {
  import opened Common

  /** The JSON values handlers put in `data`. Object key order is not modelled. */
  datatype Json = JNull | JBool(b: bool) | JNum(n: int) | JStr(s: string) | JObj(fields: map<string, Json>)

  datatype ApiResponse = ApiResponse(
    status: int,
    success: bool,
    message: string,
    data: Option<Json>,
    error: Option<string>,
    errors: Option<map<string, string>>)

  /** What a route hands back to the framework: a JSON envelope, an HTML page
      (only the verify-email link endpoint sends these), or nothing at all
      (a route that returns `undefined`). */
  datatype HtmlPage = AlreadyVerifiedPage | RedirectPage(jwt: string, email: string) | ErrorPage
  datatype Reply = Api(api: ApiResponse) | Html(status: int, page: HtmlPage) | NoReply

  function SuccessResponse(data: Json, message: string := "Success", status: int := 200): (r: ApiResponse)
    ensures r.success && r.data == Some(data) && r.message == message && r.status == status
    ensures r.error.None? && r.errors.None?
  {
    ApiResponse(status, true, message, Some(data), None, None)
  }

  function CreatedResponse(data: Json, message: string := "Created successfully"): (r: ApiResponse)
    ensures r.status == 201 && r.success && r.data == Some(data) && r.message == message
    ensures r.error.None? && r.errors.None?
  {
    ApiResponse(201, true, message, Some(data), None, None)
  }

  /** `errorResponse(message, status = 400, errors?)`: the `errors` key appears only when given. */
  function ErrorResponse(message: string, status: int := 400, errors: Option<map<string, string>> := None): (r: ApiResponse)
    ensures !r.success && r.status == status && r.message == message && r.error == Some(message)
    ensures r.data.None? && r.errors == errors
  {
    ApiResponse(status, false, message, None, Some(message), errors)
  }

  function ValidationErrorResponse(errors: map<string, string>, message: string := "Validation failed"): (r: ApiResponse)
    ensures r.status == 422 && !r.success && r.message == message
    ensures r.errors == Some(errors) && r.error.None? && r.data.None?
  {
    ApiResponse(422, false, message, None, None, Some(errors))
  }

  /** The four fixed-status failures share one shape. */
  function Failure(status: int, message: string): (r: ApiResponse)
    ensures !r.success && r.status == status && r.message == message && r.error == Some(message)
    ensures r.data.None? && r.errors.None?
  {
    ApiResponse(status, false, message, None, Some(message), None)
  }

  function UnauthorizedResponse(message: string := "Unauthorized"): ApiResponse { Failure(401, message) }
  function ForbiddenResponse(message: string := "Forbidden"): ApiResponse { Failure(403, message) }
  function NotFoundResponse(message: string := "Resource not found"): ApiResponse { Failure(404, message) }
  function ServerErrorResponse(message: string := "Internal server error"): ApiResponse { Failure(500, message) }

  /** Every failure constructor yields `success == false` and `error == message`, with its fixed status;
      an error response without `errors` is exactly the fixed-status failure of the same status. */
  lemma FailureEnvelopes(message: string)
    ensures UnauthorizedResponse().message == "Unauthorized" && UnauthorizedResponse(message).status == 401
    ensures ForbiddenResponse().message == "Forbidden" && ForbiddenResponse(message).status == 403
    ensures NotFoundResponse().message == "Resource not found" && NotFoundResponse(message).status == 404
    ensures ServerErrorResponse().message == "Internal server error" && ServerErrorResponse(message).status == 500
    ensures forall s :: ErrorResponse(message, s) == Failure(s, message)
    ensures ErrorResponse(message).status == 400
    ensures ErrorResponse("Internal server error", 500) == ServerErrorResponse()
  {
  }

  /** Success envelopes never carry `error`/`errors`; failure envelopes never carry `data`. */
  lemma EnvelopesSeparateOutcomes(data: Json, message: string, status: int, errors: map<string, string>)
    ensures SuccessResponse(data).message == "Success" && SuccessResponse(data).status == 200
    ensures CreatedResponse(data).message == "Created successfully"
    ensures ValidationErrorResponse(errors).message == "Validation failed"
    ensures ValidationErrorResponse(errors, message).error.None?
    ensures ErrorResponse(message, status, Some(errors)).errors == Some(errors)
  {
  }
}

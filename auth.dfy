/** Bearer-token authentication of API requests (lib/api/auth.ts). A request
    is reduced to the two places a token can come from: the `Authorization`
    header and the `authToken` cookie (absent ones are None). */
module Auth {
  import opened Common
  import opened Jwt
  import opened Responses

  const BEARER: string := "Bearer "

  const NO_TOKEN: string := "No authentication token provided"
  const BAD_TOKEN: string := "Invalid or expired token"

  datatype AuthResult = AuthResult(
    isValid: bool,
    userId: Option<string>,
    email: Option<string>,
    error: Option<ApiResponse>)

  /** `header.slice(7)` when the header is present and starts with "Bearer ". */
  function BearerToken(authHeader: Option<string>): (t: Option<string>)
    ensures t.Some? <==> authHeader.Some? && StartsWith(authHeader.value, BEARER)
    ensures t.Some? ==> authHeader.value == BEARER + t.value
  {
    if authHeader.Some? && StartsWith(authHeader.value, BEARER) then
      assert authHeader.value == authHeader.value[..7] + authHeader.value[7..];
      Some(authHeader.value[7..])
    else None
  }

  /** `request.cookies.get('authToken')?.value || null` */
  function CookieToken(cookie: Option<string>): Option<string> {
    if Truthy(cookie) then cookie else None
  }

  /** The token `verifyAuth` settles on: a non-empty bearer token, else the cookie. */
  function ChosenToken(authHeader: Option<string>, cookie: Option<string>): (t: Option<string>)
    ensures t.Some? ==> t.value != ""
    ensures Truthy(BearerToken(authHeader)) ==> t == BearerToken(authHeader)
    ensures !Truthy(BearerToken(authHeader)) ==> t == CookieToken(cookie)
  {
    var header := BearerToken(authHeader);
    if Truthy(header) then header else CookieToken(cookie)
  }

  /** `verifyAuth(request)`. The surrounding try/catch is not modelled: nothing inside it throws. */
  function VerifyAuth(authHeader: Option<string>, cookie: Option<string>, verify: Verifier): (r: AuthResult)
    ensures ChosenToken(authHeader, cookie).None? ==>
      r == AuthResult(false, None, None, Some(UnauthorizedResponse(NO_TOKEN)))
    ensures ChosenToken(authHeader, cookie).Some? && VerifyToken(ChosenToken(authHeader, cookie).value, verify).None? ==>
      r == AuthResult(false, None, None, Some(UnauthorizedResponse(BAD_TOKEN)))
    ensures r.isValid <==>
      ChosenToken(authHeader, cookie).Some? && VerifyToken(ChosenToken(authHeader, cookie).value, verify).Some?
    ensures r.isValid ==>
      var p := verify(ChosenToken(authHeader, cookie).value).value;
      r.userId == Some(p.userId) && r.email == Some(p.email) && r.error.None?
    ensures !r.isValid ==> r.error.Some? && r.error.value.status == 401
  {
    var token := ChosenToken(authHeader, cookie);
    if token.None? then
      AuthResult(false, None, None, Some(UnauthorizedResponse(NO_TOKEN)))
    else
      match VerifyToken(token.value, verify)
      case None => AuthResult(false, None, None, Some(UnauthorizedResponse(BAD_TOKEN)))
      case Some(payload) => AuthResult(true, Some(payload.userId), Some(payload.email), None)
  }

  /** `withAuth(handler)` applied to a request: the handler runs only for a valid result
      with non-empty userId and email; otherwise `auth.error`, or a plain 401. */
  function WithAuth(handler: (string, string) -> ApiResponse, authHeader: Option<string>, cookie: Option<string>, verify: Verifier): (r: ApiResponse)
    ensures var auth := VerifyAuth(authHeader, cookie, verify);
      if auth.isValid && Truthy(auth.userId) && Truthy(auth.email)
      then r == handler(auth.userId.value, auth.email.value)
      else r == auth.error.GetOr(UnauthorizedResponse())
  {
    var auth := VerifyAuth(authHeader, cookie, verify);
    if !auth.isValid || !Truthy(auth.userId) || !Truthy(auth.email) then
      auth.error.GetOr(UnauthorizedResponse())
    else
      handler(auth.userId.value, auth.email.value)
  }

  /** `extractToken(request)`: unlike `verifyAuth`, an empty bearer token is returned as is. */
  function ExtractToken(authHeader: Option<string>, cookie: Option<string>): (t: Option<string>)
    ensures BearerToken(authHeader).Some? ==> t == BearerToken(authHeader)
    ensures BearerToken(authHeader).None? ==> t == CookieToken(cookie)
  {
    var header := BearerToken(authHeader);
    if header.Some? then header else CookieToken(cookie)
  }

  /** A well-formed bearer header wins over the cookie. */
  lemma BearerTakesPrecedence(token: string, cookie: Option<string>)
    requires token != ""
    ensures ChosenToken(Some(BEARER + token), cookie) == Some(token)
    ensures ExtractToken(Some(BEARER + token), cookie) == Some(token)
  {
    assert (BEARER + token)[..7] == BEARER;
    assert (BEARER + token)[7..] == token;
  }

  /** A header without the exact prefix is ignored (case matters: "bearer x" is not a bearer header). */
  lemma NonBearerHeaderIgnored(authHeader: string, cookie: Option<string>)
    requires !StartsWith(authHeader, BEARER)
    ensures ChosenToken(Some(authHeader), cookie) == CookieToken(cookie)
    ensures ExtractToken(Some(authHeader), cookie) == CookieToken(cookie)
  {
  }

  /** "Bearer " with nothing after it: `verifyAuth` falls back to the cookie, `extractToken` returns "". */
  lemma EmptyBearerDiffers(cookie: string)
    requires cookie != ""
    ensures ChosenToken(Some(BEARER), Some(cookie)) == Some(cookie)
    ensures ExtractToken(Some(BEARER), Some(cookie)) == Some("")
  {
    assert BEARER[7..] == "";
  }

  /** A verified token whose payload has an empty userId passes `verifyAuth` but not `withAuth`'s gate. */
  lemma EmptyUserIdRejectedByGate(handler: (string, string) -> ApiResponse, token: string, verify: Verifier)
    requires token != "" && verify(token).Returned? && verify(token).value.userId == ""
    ensures VerifyAuth(None, Some(token), verify).isValid
    ensures WithAuth(handler, None, Some(token), verify) == UnauthorizedResponse()
  {
  }
}

/** Turning thrown values into responses (lib/api/errorHandler.ts), and the
    inline catch clauses of the route handlers, which follow the same pattern. */
module ErrorHandler {
  import opened Common
  import opened Responses

  /** One Zod issue: the path of the offending field and its message. */
  datatype Issue = Issue(path: seq<string>, message: string)

  /** What a handler can throw. `JsError` is any other `instanceof Error`:
      mongoose's duplicate-key error carries `code` 11000 and `keyPattern` (the
      keys of that object), its ValidationError carries `errors`, a message per
      failing field. An error without such a property has None there. */
  datatype Thrown =
    | ZodError(issues: seq<Issue>, message: string)
    | JsError(name: string, message: string, code: Option<int>, keyPattern: Option<seq<string>>,
              fieldErrors: Option<map<string, string>>)
    | NonError

  /** A request body as the handler sees it: the parsed (and, where a schema applies,
      validated) data, or what `request.json()` / `schema.parse` threw. */
  datatype Parsed<T> = Parsed(data: T) | Threw(e: Thrown)

  /** `error instanceof Error` (a ZodError is one). */
  predicate IsError(e: Thrown) { !e.NonError? }

  predicate IsDuplicateKey(e: Thrown) { e.JsError? && e.code == Some(11000) }

  /** `issue.path[0] as string` used as an object key: an empty path gives "undefined". */
  function IssueKey(i: Issue): string {
    if |i.path| == 0 then "undefined" else i.path[0]
  }

  /** The `errors` record the `issues.forEach` loop builds: later issues for a field overwrite earlier ones. */
  function IssueMap(issues: seq<Issue>): map<string, string> {
    if issues == [] then map[]
    else
      var last := issues[|issues| - 1];
      IssueMap(issues[..|issues| - 1])[IssueKey(last) := last.message]
  }

  /** A field has an entry exactly when some issue names it, and the entry is the message of the last such issue. */
  lemma {:induction false} IssueMapLastWins(issues: seq<Issue>, key: string)
    ensures key in IssueMap(issues) <==> exists j :: 0 <= j < |issues| && IssueKey(issues[j]) == key
    ensures key in IssueMap(issues) ==>
      exists j :: 0 <= j < |issues| && IssueKey(issues[j]) == key && IssueMap(issues)[key] == issues[j].message &&
        forall k :: j < k < |issues| ==> IssueKey(issues[k]) != key
  {
    if issues != [] {
      var n := |issues| - 1;
      var prefix := issues[..n];
      IssueMapLastWins(prefix, key);
      if IssueKey(issues[n]) != key {
        if key in IssueMap(prefix) {
          var j :| 0 <= j < |prefix| && IssueKey(prefix[j]) == key && IssueMap(prefix)[key] == prefix[j].message &&
            forall k :: j < k < |prefix| ==> IssueKey(prefix[k]) != key;
          assert issues[j] == prefix[j];
          assert forall k :: j < k < |issues| ==> IssueKey(issues[k]) != key by {
            forall k | j < k < |issues| ensures IssueKey(issues[k]) != key {
              if k < n { assert issues[k] == prefix[k]; }
            }
          }
        }
        if exists j :: 0 <= j < |issues| && IssueKey(issues[j]) == key {
          var j :| 0 <= j < |issues| && IssueKey(issues[j]) == key;
          assert j < n && prefix[j] == issues[j];
        }
      }
    }
  }

  /** Issues reported in two batches: the record of the first batch, overwritten by that of the second. */
  lemma {:induction false} IssueMapAppend(a: seq<Issue>, b: seq<Issue>)
    ensures IssueMap(a + b) == IssueMap(a) + IssueMap(b)
    decreases |b|
  {
    if b == [] {
      assert a + b == a;
    } else {
      var n := |b| - 1;
      assert (a + b)[..|a + b| - 1] == a + b[..n];
      assert (a + b)[|a + b| - 1] == b[n];
      IssueMapAppend(a, b[..n]);
    }
  }

  /** The two `forEach` loops of the source: fill a record issue by issue. */
  method CollectIssueErrors(issues: seq<Issue>) returns (errors: map<string, string>)
    ensures errors == IssueMap(issues)
  {
    errors := map[];
    var i := 0;
    while i < |issues|
      invariant 0 <= i <= |issues|
      invariant errors == IssueMap(issues[..i])
    {
      assert issues[..i + 1][..i] == issues[..i];
      errors := errors[IssueKey(issues[i]) := issues[i].message];
      i := i + 1;
    }
    assert issues[..i] == issues;
  }

  /** `Object.keys(keyPattern)[0]`, "undefined" when there is none. */
  function FirstKey(keys: seq<string>): string {
    if |keys| == 0 then "undefined" else keys[0]
  }

  /** What a wrapped handler (or `handleError` itself) did: replied, or threw. */
  datatype Outcome = Responded(response: ApiResponse) | Failed(thrown: Thrown)

  /** The TypeError `Object.keys(undefined)` throws. */
  const KEYS_OF_UNDEFINED: Thrown :=
    JsError("TypeError", "Cannot convert undefined or null to object", None, None, None)

  /** The classification `handleError` performs, checked in this order. Reading the keys of a
      missing `keyPattern` or `errors` throws out of `handleError`. */
  function Classify(e: Thrown): Outcome {
    if e.ZodError? then Responded(ValidationErrorResponse(IssueMap(e.issues), "Validation failed"))
    else if IsDuplicateKey(e) then
      if e.keyPattern.None? then Failed(KEYS_OF_UNDEFINED)
      else Responded(ErrorResponse(FirstKey(e.keyPattern.value) + " already exists", 400))
    else if e.JsError? && e.name == "ValidationError" then
      if e.fieldErrors.None? then Failed(KEYS_OF_UNDEFINED)
      else Responded(ValidationErrorResponse(e.fieldErrors.value, "Validation failed"))
    else if e.JsError? && e.name == "CastError" then Responded(ErrorResponse("Invalid ID format", 400))
    else if e.JsError? then Responded(ErrorResponse(e.message, 400))
    else Responded(ServerErrorResponse())
  }

  /** `handleError(error)`: a response, or the error it throws itself. */
  method HandleError(e: Thrown) returns (r: Outcome)
    ensures r == Classify(e)
  {
    if e.ZodError? {
      var errors := CollectIssueErrors(e.issues);
      return Responded(ValidationErrorResponse(errors, "Validation failed"));
    }
    if IsDuplicateKey(e) {
      if e.keyPattern.None? {
        return Failed(KEYS_OF_UNDEFINED);
      }
      return Responded(ErrorResponse(FirstKey(e.keyPattern.value) + " already exists", 400));
    }
    if e.JsError? && e.name == "ValidationError" {
      if e.fieldErrors.None? {
        return Failed(KEYS_OF_UNDEFINED);
      }
      var mongoErrors := e.fieldErrors.value;
      var errors: map<string, string> := map[];
      var keys := mongoErrors.Keys;
      while keys != {}
        invariant keys <= mongoErrors.Keys
        invariant errors.Keys == mongoErrors.Keys - keys
        invariant forall k :: k in errors ==> errors[k] == mongoErrors[k]
        decreases keys
      {
        var k :| k in keys;
        errors := errors[k := mongoErrors[k]];
        keys := keys - {k};
      }
      assert errors.Keys == mongoErrors.Keys;
      assert errors == mongoErrors;
      return Responded(ValidationErrorResponse(errors, "Validation failed"));
    }
    if e.JsError? && e.name == "CastError" {
      return Responded(ErrorResponse("Invalid ID format", 400));
    }
    if e.JsError? {
      return Responded(ErrorResponse(e.message, 400));
    }
    return Responded(ServerErrorResponse());
  }

  /** `handleError` throws exactly for a duplicate key without `keyPattern` and a ValidationError
      without `errors`; otherwise only three statuses come out, a Zod error always wins, and the
      later checks apply in the source's order. */
  lemma ClassifyStatuses(e: Thrown)
    ensures Classify(e).Failed? <==>
      e.JsError? && ((IsDuplicateKey(e) && e.keyPattern.None?) ||
                     (!IsDuplicateKey(e) && e.name == "ValidationError" && e.fieldErrors.None?))
    ensures Classify(e).Failed? ==> Classify(e).thrown == KEYS_OF_UNDEFINED
    ensures Classify(e).Responded? ==> Classify(e).response.status in {422, 400, 500}
    ensures Classify(e).Responded? && Classify(e).response.status == 500 <==> !IsError(e)
    ensures Classify(e).Responded? && Classify(e).response.status == 422 <==>
      e.ZodError? || (e.JsError? && !IsDuplicateKey(e) && e.name == "ValidationError" && e.fieldErrors.Some?)
    ensures e.ZodError? ==> Classify(e).Responded? && Classify(e).response.errors == Some(IssueMap(e.issues))
    ensures IsDuplicateKey(e) && e.keyPattern.Some? ==>
      Classify(e).Responded? && Classify(e).response.message == FirstKey(e.keyPattern.value) + " already exists"
    ensures e.JsError? && !IsDuplicateKey(e) && e.name == "ValidationError" && e.fieldErrors.Some? ==>
      Classify(e).Responded? && Classify(e).response.errors == e.fieldErrors
    ensures e.JsError? && !IsDuplicateKey(e) && e.name == "CastError" ==>
      Classify(e) == Responded(ErrorResponse("Invalid ID format", 400))
    ensures e.JsError? && !IsDuplicateKey(e) && e.name != "ValidationError" && e.name != "CastError" ==>
      Classify(e) == Responded(ErrorResponse(e.message, 400))
  {
  }

  /** `asyncHandler(handler)`: a handler's reply passes through, its throw goes to `handleError`,
      and what `handleError` throws propagates. */
  method AsyncHandler(outcome: Outcome) returns (r: Outcome)
    ensures outcome.Responded? ==> r == outcome
    ensures outcome.Failed? ==> r == Classify(outcome.thrown)
  {
    match outcome
    case Responded(_) => r := outcome;
    case Failed(e) => r := HandleError(e);
  }

  const DB_FAILED: string := "Database connection failed"

  /** `withDatabaseConnection(handler)`, given the outcome of connecting. A handler's own
      failure is turned into a response by `asyncHandler`; only what `handleError` itself
      throws reaches the connection-failure branch. */
  method WithDatabaseConnection(connect: Option<Thrown>, outcome: Outcome) returns (r: ApiResponse)
    ensures connect.Some? ==> r == ServerErrorResponse(DB_FAILED)
    ensures connect.None? && outcome.Responded? ==> r == outcome.response
    ensures connect.None? && outcome.Failed? && Classify(outcome.thrown).Responded? ==>
      r == Classify(outcome.thrown).response && r != ServerErrorResponse(DB_FAILED)
    ensures connect.None? && outcome.Failed? && Classify(outcome.thrown).Failed? ==> r == ServerErrorResponse(DB_FAILED)
  {
    if connect.Some? {
      return ServerErrorResponse(DB_FAILED);
    }
    var handled := AsyncHandler(outcome);
    match handled
    case Responded(resp) => r := resp;
    case Failed(_) => r := ServerErrorResponse(DB_FAILED);
  }

  /** The three shapes of catch clause the route handlers write inline. */
  datatype CatchStyle =
    | SignupCatch     // Zod, then duplicate key as "Email already registered", then Error, then 500
    | ZodAwareCatch   // Zod, then Error, then 500
    | PlainCatch      // Error, then 500

  const ALREADY_REGISTERED: string := "Email already registered"

  function Caught(style: CatchStyle, e: Thrown): ApiResponse {
    if style != PlainCatch && e.ZodError? then ValidationErrorResponse(IssueMap(e.issues))
    else if style == SignupCatch && IsDuplicateKey(e) then ErrorResponse(ALREADY_REGISTERED, 400)
    else if IsError(e) then ErrorResponse(e.message, 400)
    else ErrorResponse("Internal server error", 500)
  }

  /** A route's `catch (error) { ... }` block. */
  method CatchRoute(style: CatchStyle, e: Thrown) returns (r: ApiResponse)
    ensures r == Caught(style, e)
  {
    if style != PlainCatch && e.ZodError? {
      var errors := CollectIssueErrors(e.issues);
      return ValidationErrorResponse(errors);
    }
    if style == SignupCatch && IsDuplicateKey(e) {
      return ErrorResponse(ALREADY_REGISTERED, 400);
    }
    if IsError(e) {
      return ErrorResponse(e.message, 400);
    }
    return ErrorResponse("Internal server error", 500);
  }

  /** A caught error is always a failure envelope, with one of three statuses. */
  lemma CaughtIsFailure(style: CatchStyle, e: Thrown)
    ensures !Caught(style, e).success && Caught(style, e).data.None?
    ensures Caught(style, e).status in {422, 400, 500}
  {
  }

  /** Inline catches agree with `handleError` on Zod errors and plain errors, and on values that are not
      errors; they differ on duplicate keys (signup names the email) and on mongoose validation errors. */
  lemma CaughtVersusClassify(style: CatchStyle, e: Thrown)
    ensures style != PlainCatch && e.ZodError? ==> Classify(e) == Responded(Caught(style, e))
    ensures !IsError(e) ==> Classify(e) == Responded(Caught(style, e))
    ensures style == SignupCatch && IsDuplicateKey(e) ==> Caught(style, e) == ErrorResponse("Email already registered", 400)
    ensures IsError(e) && !(style != PlainCatch && e.ZodError?) && !(style == SignupCatch && IsDuplicateKey(e)) ==>
      Caught(style, e) == ErrorResponse(e.message, 400)
  {
  }
}

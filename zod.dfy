/** The behaviour of the `zod` library that the two inline request schemas
    (verify-otp and reset-password) rely on: a JSON field is absent, not a
    string, or a string; `z.string()` on anything but a string reports one
    issue and aborts the object; the checks chained on a string all run and
    each failing one adds an issue under the field's path. */
module Zod {
  import opened ErrorHandler

  datatype JsonField = Absent | NonString(typeName: string) | Str(s: string)

  /** What `request.json()` returned: an object with the schema's fields, or some other JSON value. */
  datatype JsonBody<F> = Object(fields: F) | NotObject(typeName: string)

  /** The single issue `z.object(...)` reports for a body that is not an object: its path is empty. */
  function ObjectTypeIssue(typeName: string): Issue {
    Issue([], "Expected object, received " + typeName)
  }

  /** The single issue `z.string()` reports for a field that is not a string. */
  function TypeIssue(path: string, f: JsonField): (issues: seq<Issue>)
    requires !f.Str?
    ensures |issues| == 1 && issues[0].path == [path]
  {
    if f.Absent? then [Issue([path], "Required")]
    else [Issue([path], "Expected string, received " + f.typeName)]
  }

  /** One check chained on a string schema (`.min`, `.length`, `.regex`, ...). */
  function Check(path: string, ok: bool, message: string): seq<Issue> {
    if ok then [] else [Issue([path], message)]
  }

  /** The error `schema.parse` throws. Its `message` (the issues as JSON text) is never read by the handlers. */
  function Rejection(issues: seq<Issue>): (e: Thrown)
    ensures e.ZodError? && e.issues == issues
  {
    ZodError(issues, "")
  }

  /** What a failed check contributes to the handler's `errors` record. */
  lemma IssueMapOfCheck(path: string, ok: bool, message: string)
    ensures IssueMap(Check(path, ok, message)) == if ok then map[] else map[path := message]
  {
    if !ok {
      var c := Check(path, ok, message);
      assert c[..0] == [];
    }
  }

  lemma IssueMapOfTypeIssue(path: string, f: JsonField)
    requires !f.Str?
    ensures IssueMap(TypeIssue(path, f)) == map[path := TypeIssue(path, f)[0].message]
    ensures f.Absent? ==> IssueMap(TypeIssue(path, f)) == map[path := "Required"]
  {
    assert TypeIssue(path, f)[..0] == [];
  }
}

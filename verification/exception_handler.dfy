/** The mapping from an exception reaching the request boundary to the HTTP
    status, the `error` label and the message part of the JSON body. The
    timestamp is left out. */
module GlobalExceptionHandler {
  import opened Outcomes

  const Forbidden: int := 403
  const BadRequest: int := 400
  const Unauthorized: int := 401
  const InternalServerError: int := 500

  const InsufficientPermissionsMessage: string := "Access denied - insufficient permissions"

  /** The part of the body beside `status` and `error`. */
  datatype Detail =
    | Message(text: string)                    // "message": a fixed text or the exception's own
    | ExceptionMessage(source: Error)          // "message": `getMessage()` of an unexpected exception
    | Errors(byField: map<string, string>)     // "errors": field name to violation message

  datatype ErrorResponse = ErrorResponse(status: int, error: string, detail: Detail)

  /** The `errors` map of a validation failure: each violation is put in turn,
      so a later one on the same field replaces an earlier one. */
  function FieldErrorMap(violations: seq<FieldError>): map<string, string>
    decreases |violations|
  {
    if violations == [] then map[]
    else
      var last := violations[|violations| - 1];
      FieldErrorMap(violations[..|violations| - 1])[last.field := last.message]
  }

  /** The handler Spring selects for each exception kind; anything without a
      dedicated handler, a missing resource included, falls to the catch-all. */
  function Handle(e: Error): (r: ErrorResponse)
    ensures r.status == Forbidden <==> e.AccessDenied? || e.AuthorizationDenied?
    ensures r.status == Unauthorized <==> e.BadCredentials?
    ensures r.status == BadRequest <==> e.ValidationFailed? || e.IllegalArgument?
    ensures r.status in {Forbidden, Unauthorized, BadRequest, InternalServerError}
    ensures r.status == Forbidden ==> r == ErrorResponse(Forbidden, "Forbidden", Message(InsufficientPermissionsMessage))
    ensures e.BadCredentials? ==> r.detail == Message(e.message)
    ensures e.IllegalArgument? ==> r == ErrorResponse(BadRequest, "Bad Request", Message(e.message))
    ensures e.ValidationFailed? ==> r == ErrorResponse(BadRequest, "Validation Failed", Errors(FieldErrorMap(e.violations)))
    ensures r.status == InternalServerError ==> r == ErrorResponse(InternalServerError, "Internal Server Error", ExceptionMessage(e))
  {
    match e
    case AuthorizationDenied => ErrorResponse(Forbidden, "Forbidden", Message(InsufficientPermissionsMessage))
    case AccessDenied(_) => ErrorResponse(Forbidden, "Forbidden", Message(InsufficientPermissionsMessage))
    case ValidationFailed(violations) => ErrorResponse(BadRequest, "Validation Failed", Errors(FieldErrorMap(violations)))
    case BadCredentials(message) => ErrorResponse(Unauthorized, "Unauthorized", Message(message))
    case IllegalArgument(message) => ErrorResponse(BadRequest, "Bad Request", Message(message))
    case _ => ErrorResponse(InternalServerError, "Internal Server Error", ExceptionMessage(e))
  }

  /** The two denial kinds produce the same body, whatever the controller's
      own message was: the reason never reaches the client. */
  lemma DenialsAreIndistinguishable(m1: string, m2: string)
    ensures Handle(AccessDenied(m1)) == Handle(AccessDenied(m2)) == Handle(AuthorizationDenied)
  {
  }

  /** The field map holds exactly the rejected fields, each with the message of
      its last violation. */
  lemma {:induction false} FieldErrorMapLastWins(violations: seq<FieldError>)
    ensures forall f :: f in FieldErrorMap(violations) <==> exists i :: 0 <= i < |violations| && violations[i].field == f
    ensures forall i :: 0 <= i < |violations| && (forall j :: i < j < |violations| ==> violations[j].field != violations[i].field)
              ==> FieldErrorMap(violations)[violations[i].field] == violations[i].message
    decreases |violations|
  {
    if violations != [] {
      var n := |violations| - 1;
      var init := violations[..n];
      FieldErrorMapLastWins(init);
      assert forall i :: 0 <= i < n ==> init[i] == violations[i];
      forall f
        ensures f in FieldErrorMap(violations) <==> exists i :: 0 <= i < |violations| && violations[i].field == f
      {
        if f in FieldErrorMap(violations) && f != violations[n].field {
          var i :| 0 <= i < |init| && init[i].field == f;
          assert violations[i].field == f;
        }
        if exists i :: 0 <= i < |violations| && violations[i].field == f {
          var i :| 0 <= i < |violations| && violations[i].field == f;
          if i < n {
            assert init[i].field == f;
          }
        }
      }
    }
  }

  /** Two violations on one field: the client sees only the second message. */
  lemma SecondViolationOnFieldWins(field: string, first: string, second: string)
    ensures Handle(ValidationFailed([FieldError(field, first), FieldError(field, second)])).detail
         == Errors(map[field := second])
  {
    var vs := [FieldError(field, first), FieldError(field, second)];
    assert vs[..1] == [FieldError(field, first)];
    assert vs[..1][..0] == [];
    assert FieldErrorMap(vs[..1]) == map[][field := first];
    assert FieldErrorMap(vs) == map[field := first][field := second];
    assert map[field := first][field := second] == map[field := second];
  }
}

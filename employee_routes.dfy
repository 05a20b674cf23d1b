/**
 * The decisions of the employee handlers (backend/src/routes/employees.js),
 * with the database calls as inputs as in `JobRoutes`.
 */
module EmployeeRoutes {
  import opened Js
  import opened Validation
  import opened Responses

  const EmployeeNotFound := "Employee not found"

  /** `handleGetEmployee`, given the record `getEmployeeById` found (a falsy value when none). */
  function GetEmployee(employee: Value): (reply: Reply)
    ensures reply.status == 404 <==> !Truthy(employee)
    ensures reply.status == 404 ==> reply.body == Failure(EmployeeNotFound)
    ensures reply.status != 404 ==> reply == Reply(200, Data(employee))
  {
    if !Truthy(employee) then Reply(404, Failure(EmployeeNotFound)) else Reply(200, Data(employee))
  }

  /**
   * `handleCreateEmployee`, given the body of the request and what
   * `createEmployee` returned. When the validator throws, the catch answers
   * 500 and nothing is created. Otherwise it answers 400 with the validation
   * errors exactly when there are some, and then creates nothing; without
   * errors it sends the validated body, which holds only user fields, and
   * answers 201 with the unwrapped record.
   */
  function CreateEmployee(body: Payload, created: Value): (h: Handled)
    ensures UserPayloadThrows(body) ==> h == Handled(None, ConversionError)
    ensures !UserPayloadThrows(body) ==> var v := Validate(UserRules, body, false);
      && (h.reply.status == 400 <==> v.errors != [])
      && (v.errors != [] ==> h.sent == None && h.reply == Reply(400, Invalid(ValidationFailed, v.errors)))
      && (v.errors == [] ==> h.sent == Some(v.body) && h.reply == Reply(201, Data(Single(created))))
    ensures h.sent.Some? ==> h.sent.value.Keys <= UserFields
  {
    var v := Validate(UserRules, body, false);
    UserBodyWhitelisted(body, false);
    if UserPayloadThrows(body) then Handled(None, ConversionError)
    else if v.errors != [] then Handled(None, ValidationFailure(v.errors))
    else Handled(Some(v.body), Reply(201, Data(Single(created))))
  }

  /**
   * A payload missing any of the five required fields never creates
   * anything. It is rejected with 400, unless the validator throws first.
   */
  lemma CreateNeedsRequiredFields(body: Payload, created: Value)
    requires "username" !in body || "email" !in body || "password_hash" !in body
          || "role" !in body || "status" !in body
    ensures CreateEmployee(body, created).sent == None
    ensures CreateEmployee(body, created).reply.status == (if UserPayloadThrows(body) then 500 else 400)
  {
    FullUserNeedsAllRequired(body);
  }
}

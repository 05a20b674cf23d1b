/**
 * What the route handlers send back (backend/src/routes/jobs.js and
 * backend/src/routes/employees.js): a status code with a JSON body, and the
 * `single` helper both files define to unwrap a record set.
 */
module Responses {
  import opened Js
  import opened Validation

  /** The JSON body of a response: `{ data }`, `{ error }` or `{ error, details }`. */
  datatype Body =
    | Data(data: Value)
    | Failure(error: string)
    | Invalid(error: string, details: seq<string>)

  datatype Reply = Reply(status: int, body: Body)

  /**
   * What a handler did, with the service calls as inputs: the record it
   * passed to the service (`None` when it did not call it) and its reply.
   */
  datatype Handled = Handled(sent: Option<map<string, Entry>>, reply: Reply)

  const ValidationFailed := "Validation failed"

  /** The message of the TypeError Node.js raises when a value cannot be converted to a primitive. */
  const ConversionFailed := "Cannot convert object to primitive value"

  /**
   * `handleError` for that TypeError, which has no `status`: 500 with the
   * error's message, `details` being undefined and so left out of the JSON.
   */
  const ConversionError := Reply(500, Failure(ConversionFailed))

  /**
   * `single(recordset)`: the first element of an array, a non-array as it
   * is, and `null` in place of anything falsy.
   */
  function Single(recordset: Value): (r: Value)
    ensures r == Null || Truthy(r)
    ensures recordset.Arr? && recordset.items != [] && Truthy(recordset.items[0]) ==> r == recordset.items[0]
    ensures recordset.Arr? && (recordset.items == [] || !Truthy(recordset.items[0])) ==> r == Null
    ensures !recordset.Arr? && Truthy(recordset) ==> r == recordset
    ensures !recordset.Arr? && !Truthy(recordset) ==> r == Null
  {
    if recordset.Arr? then
      if recordset.items != [] && Truthy(recordset.items[0]) then recordset.items[0] else Null
    else if Truthy(recordset) then recordset
    else Null
  }

  /** The `{ error: 'Validation failed', details }` reply, with status 400. */
  function ValidationFailure(errors: seq<string>): (reply: Reply)
    ensures reply.status == 400 && reply.body.Invalid? && reply.body.details == errors
    ensures reply.body.error == "Validation failed"
  {
    Reply(400, Invalid(ValidationFailed, errors))
  }
}

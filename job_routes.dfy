/**
 * The decisions of the job handlers (backend/src/routes/jobs.js). The
 * database calls are inputs: a handler is given what the service returned
 * and yields a `Responses.Handled`, the record it passed to the service
 * together with its reply.
 */
module JobRoutes {
  import opened Js
  import opened Validation
  import opened Responses
  import Jobs

  const JobNotFound := "Job not found"

  /** `handleGetJob`, given the record `getJobById` found (a falsy value when none). */
  function GetJob(job: Value): (reply: Reply)
    ensures reply.status == 404 <==> !Truthy(job)
    ensures reply.status == 404 ==> reply.body == Failure(JobNotFound)
    ensures reply.status != 404 ==> reply == Reply(200, Data(job))
  {
    if !Truthy(job) then Reply(404, Failure(JobNotFound)) else Reply(200, Data(job))
  }

  /** `{ status: 'offen', ...payload }`: the payload, with an open status unless it sets one. */
  function NewJobRecord(payload: map<string, Entry>): (record: map<string, Entry>)
    ensures record.Keys == payload.Keys + {"status"}
    ensures "status" in payload ==> record["status"] == payload["status"]
    ensures "status" !in payload ==> record["status"] == Given(Str(Jobs.Open))
    ensures forall k :: k in payload && k != "status" ==> record[k] == payload[k]
  {
    map["status" := Given(Str(Jobs.Open))] + payload
  }

  /**
   * `handleCreateJob`, given the body of the request and what `createJob`
   * returned. When the validator throws, the catch answers 500 and nothing
   * is created. Otherwise it answers 400 with the validation errors exactly
   * when there are some, and then does not reach the service; without
   * errors it sends the validated body, holding only job fields, with the
   * default status, and answers 201 with the unwrapped record.
   */
  function CreateJob(body: Payload, created: Value): (h: Handled)
    ensures JobPayloadThrows(body) ==> h == Handled(None, ConversionError)
    ensures !JobPayloadThrows(body) ==> var v := Validate(JobRules, body, false);
      && (h.reply.status == 400 <==> v.errors != [])
      && (v.errors != [] ==> h.sent == None && h.reply == Reply(400, Invalid(ValidationFailed, v.errors)))
      && (v.errors == [] ==> h.sent == Some(NewJobRecord(v.body)) && h.reply == Reply(201, Data(Single(created))))
    ensures h.sent.Some? ==> h.sent.value.Keys <= JobFields
  {
    var v := Validate(JobRules, body, false);
    JobBodyWhitelisted(body, false);
    if JobPayloadThrows(body) then Handled(None, ConversionError)
    else if v.errors != [] then Handled(None, ValidationFailure(v.errors))
    else Handled(Some(NewJobRecord(v.body)), Reply(201, Data(Single(created))))
  }

  /**
   * `handleUpdateJob`, given the body of the request and what `updateJob`
   * returned (a falsy value when no job was updated). When the validator
   * throws, the catch answers 500 and nothing is updated. Otherwise it
   * answers 400 with the errors and sends nothing, or else sends the
   * validated body, holding only job fields; then it answers 404 "Job not
   * found" when nothing was updated and 200 with the unwrapped record
   * otherwise.
   */
  function UpdateJob(body: Payload, updated: Value): (h: Handled)
    ensures JobPayloadThrows(body) ==> h == Handled(None, ConversionError)
    ensures !JobPayloadThrows(body) ==> var v := Validate(JobRules, body, true);
      && (v.errors != [] ==> h.sent == None && h.reply == Reply(400, Invalid(ValidationFailed, v.errors)))
      && (v.errors == [] && !Truthy(updated) ==> h.reply == Reply(404, Failure(JobNotFound)))
      && (v.errors == [] && Truthy(updated) ==> h.reply == Reply(200, Data(Single(updated))))
      && (v.errors == [] ==> h.sent == Some(v.body))
    ensures h.sent.Some? ==> h.sent.value.Keys <= JobFields
  {
    var v := Validate(JobRules, body, true);
    JobBodyWhitelisted(body, true);
    if JobPayloadThrows(body) then Handled(None, ConversionError)
    else if v.errors != [] then Handled(None, ValidationFailure(v.errors))
    else if !Truthy(updated) then Handled(Some(v.body), Reply(404, Failure(JobNotFound)))
    else Handled(Some(v.body), Reply(200, Data(Single(updated))))
  }

  /**
   * A create without a valid title never reaches the service. It is
   * rejected with the title error, unless the validator throws first.
   */
  lemma CreateNeedsTitle(body: Payload, created: Value)
    requires !Truthy(Get(body, "title")) || !Get(body, "title").Str?
    ensures CreateJob(body, created).sent == None
    ensures CreateJob(body, created).reply.status == (if JobPayloadThrows(body) then 500 else 400)
    ensures !JobPayloadThrows(body) ==> TitleError in CreateJob(body, created).reply.body.details
  {
    TitleRequired(body);
  }

  /** A created job is open unless the request gave a valid status, which then wins. */
  lemma CreatedStatus(body: Payload, created: Value)
    requires CreateJob(body, created).sent.Some?
    ensures var record := CreateJob(body, created).sent.value;
      && "status" in record
      && (Get(body, "status") == Undefined ==> record["status"] == Given(Str("offen")))
      && (Get(body, "status") != Undefined ==> record["status"] == Given(Get(body, "status")))
  {
    JobStatusPassed(body, false);
  }

  /** An update is validated in partial mode: a body with no job field at all passes and is sent empty. */
  lemma UpdateWithoutFields(body: Payload, updated: Value)
    requires forall f :: f in JobFields ==> f !in body
    ensures UpdateJob(body, updated).sent == Some(map[])
    ensures UpdateJob(body, updated).reply.status == (if Truthy(updated) then 200 else 404)
  {
    JobRulesWellFormed();
    PartialSkipsAbsent(Validation([], map[]), JobRules, body);
  }

  /** An update without a title is not rejected for it. */
  lemma UpdateWithoutTitle(body: Payload, updated: Value)
    requires "title" !in body
    ensures UpdateJob(body, updated).reply.status == 400 ==>
              TitleError !in UpdateJob(body, updated).reply.body.details
  {
    PartialWithoutTitle(body);
  }

  /**
   * `POST /jobs` with `{"title": "t", "description": {"toString": "x"}}`
   * answers 500 with the TypeError's message and creates nothing, as
   * `String(payload.description)` throws.
   */
  lemma DescriptionWithOwnToString(created: Value)
    ensures var body := map["title" := Str("t"), "description" := Obj(map["toString" := Str("x")])];
      CreateJob(body, created) == Handled(None, Reply(500, Failure(ConversionFailed)))
  {
    var body := map["title" := Str("t"), "description" := Obj(map["toString" := Str("x")])];
    assert Get(body, "description") == Obj(map["toString" := Str("x")]);
  }
}

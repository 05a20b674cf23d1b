# Handwerker planning app — a Dafny model

This project models the logic of a small job-planning application for a
craftsman's business, in Dafny. The application has two front ends and a back end.

- **Desktop planning board** (`script.js`). It keeps an in-memory store of jobs,
  a calendar of hourly slots (08:00–17:00 on three fixed days), a pool of
  unscheduled ("offen") jobs and an employee filter. Dragging a job onto a
  slot schedules it for one hour and assigns it by the filter; dragging it
  onto the pool unschedules it. `createNewOrder` adds a new open job.
- **Mobile field view** (`mobile/script.js`). It shows the day schedule of the
  signed-in employee ("u1") on an hour timeline 08..17, moves between days,
  and picks the employee's next job for the dashboard. Work-report templates
  fill the description and materials fields, after asking before overwriting
  a longer text.
- **Back end** (`backend/src`). A hand-written router (`cleanSegments` and
  `matchRoute` over an ordered table of eight routes), two payload validators
  with fixed field tables, and the job and employee handlers. The handlers
  answer 400 for validation errors and 404 for missing records. A lookup by id
  answers 200 with the record as the service returned it. A create answers 201
  and an update 200, each with the record unwrapped by `single`. A field that
  `String(v)` or `Number(v)` cannot convert makes the validator throw, and the
  handler's catch answers 500.

The modules follow the program:

| file | module | models |
|---|---|---|
| `js.dfy` | `Js` | JavaScript values and truthiness, `trim`, `String(v)`, `join`, `split`, `filter` |
| `timestamps.dfy` | `Timestamps` | dates and date-times as the app writes them, `setDate` day arithmetic, the order of instants |
| `jobs.dfy` | `Jobs` | the job record both front ends read, and the pool/calendar lifecycle invariant |
| `planning.dfy` | `Planning` | `script.js`: slots, drop, pool, calendar, new order; classes `Job` and `Board` for the store mutated in place |
| `mobile.dfy` | `Mobile` | `mobile/script.js`: schedule, timeline buckets, `changeDate` (class `ScheduleScreen`), next job, `applyTemplate` |
| `validation.dfy` | `Validation` | `validateJobPayload` and `validateUserPayload` |
| `router.dfy` | `Router` | `cleanSegments`, the route table, `matchRoute` |
| `responses.dfy` | `Responses` | replies and the `single` helper |
| `job_routes.dfy` | `JobRoutes` | `handleGetJob`, `handleCreateJob`, `handleUpdateJob` |
| `employee_routes.dfy` | `EmployeeRoutes` | `handleGetEmployee`, `handleCreateEmployee` |

The code that changes state step by step is written as imperative Dafny and
proved against value-level definitions:

- `Planning.Board.Drop` mutates job objects in place and is proved to follow `Planning.DropSpec`.
- `Router.MatchRoute` runs both loops and is proved to compute `Router.FirstMatch`.
- `Mobile.PopulateSchedule` builds the timeline hour by hour and is proved to compute `Mobile.ScheduleOf`.
- The validators are written as one `if` block per field. Each is proved to
  compute what its field table (`Validation.JobRules`, `Validation.UserRules`)
  says.

The properties of the board and of the back end are then proved about those
definitions.

Two behaviours of the board are easy to misread:

- A slot shows the jobs whose start is *exactly* the slot's instant. A job
  starting at 09:30 is shown in no slot, not in the 09:00 slot. Every job that
  is not "offen" can be shown, not only "geplant" ones.
- Under a specific employee filter, a slot drop *keeps* an assignment that
  already contains that employee. Only an assignment without them is replaced
  by the one employee.

## Model

| member | source | states |
|---|---|---|
| Js.Trim | backend/src/utils/validation.js:14 | `trim` returns the slice of the input between a leading and a trailing run of white space, with only white space before and after it, and the result neither starts nor ends with white space |
| Js.TrimEmptyIffAllSpace | backend/src/utils/validation.js:14 | a string trims to "" exactly when it is all white space |
| Js.TrimIdempotent | backend/src/utils/validation.js:14 | trimming a trimmed string changes nothing |
| Js.ToJsString | backend/src/utils/validation.js:19 | `String(v)` gives a string unchanged, an empty array as "" and an object without its own "toString" as "[object Object]". A non-negative integer becomes canonical decimal digits, with no sign and no leading zero, that read back as its value. A negative one becomes "-" followed by the canonical digits of its magnitude |
| Js.ItemsThrowIffSome | backend/src/utils/validation.js:19 | converting an array throws exactly when converting one of its items does, as `join` converts each |
| Js.Utf16Length | mobile/script.js:129 | `value.length` counts UTF-16 code units: at least one and at most two per character |
| Js.JoinSplit | backend/src/server.js:10 | joining the pieces of `split('/')` with "/" gives the string back: the split loses nothing and invents nothing |
| Js.Split | backend/src/server.js:10 | `split(sep)` gives at least one piece, and no piece holds the separator |
| Js.FilterAppend | script.js:67 | filtering a concatenation is concatenating the filtered parts, in order |
| Js.FilterEmpty | script.js:69 | the filtered list is empty exactly when no element passes |
| Js.Filter | script.js:67 | `filter` keeps only elements of the input that pass, keeps every element that passes, and never grows the list |
| Timestamps.PrevNextInverse | mobile/script.js:174-175 | the previous and next day buttons undo each other across month and year ends |
| Timestamps.AddDays | mobile/script.js:180 | `setDate(getDate() + n)` on a valid date gives a valid date |
| Timestamps.AddDaysAdditive | mobile/script.js:179-181 | moving by `a` days and then by `b` days is moving by `a + b` days |
| Timestamps.AddDaysInverse | mobile/script.js:179-181 | moving `n` days forward and `n` back returns to the same day |
| Timestamps.AddDaysForward | mobile/script.js:180 | moving forward by a positive count lands on a later date |
| Timestamps.OrdinalOrder | script.js:123-124 | the number compared in place of `getTime()` orders valid date-times as their fields do, and equal numbers mean equal date-times |
| Timestamps.ParseStampText | script.js:200-203 | a "YYYY-MM-DDTHH:MM:SS" text written from a valid date-time reads back as that date-time |
| Planning.SlotTextsReadBack | script.js:199-203 | the start and end texts a slot drop writes read back as the slot's start and its next full hour |
| Planning.CalendarSlotsLastOneHour | script.js:201-203 | on every cell of the calendar the drop's end is exactly one hour after its start |
| Planning.NearestSlot | script.js:188-192 | the resolved slot is the first calendar cell on the path from the drop target upward, and there is none exactly when no element on the path is a cell |
| Planning.ResolveSlot | script.js:188-194 | the `parentElement` walk computes `NearestSlot` |
| Planning.AssignmentPolicy | script.js:205-212 | after a slot drop somebody is assigned. Under a filter, that employee is assigned, and a team already containing them is kept. Under "all", an existing team is kept and an empty one becomes "u1" |
| Planning.FindIndex | script.js:176 | the index found is that of the first job with the id, or past the end when none has it |
| Planning.DropSpec | script.js:170-219 | a drop keeps the length and every job's id, and changes at most the job found by id |
| Planning.DropUnknownId | script.js:176-178 | a drop with an id no job has leaves the store unchanged |
| Planning.PoolDropClears | script.js:180-185 | a pool drop makes the job open, with no assignment, start or end, and keeps its title, customer and type |
| Planning.PoolDropIdempotent | script.js:180-185 | dropping the same job on the pool again changes nothing, whatever the filter |
| Planning.SlotDropSchedules | script.js:186-213 | a drop below a slot plans the job for that slot's hour and assigns it by the policy; a drop below no slot changes nothing |
| Planning.DropKeepsConsistent | script.js:170-219 | every drop keeps every job's invariant: open jobs have no schedule and no assignment, the others have both |
| Planning.RenderCalendar | script.js:86-125 | the grid has ten hour rows of three day columns. Each cell lists, in store order, the jobs shown in its slot, and a job is in a cell exactly when it is in the store, is not open, passes the employee filter and starts exactly at the slot's instant |
| Planning.DroppedJobShownInItsSlotOnly | script.js:112-124 | after a slot drop, with the same filter, the job is shown in that slot and in no other valid slot |
| Planning.DroppedJobShownInItsCellOnly | script.js:112-125 | after a slot drop, with the same filter, the rendered grid shows the job in the dropped slot's cell and in no other cell |
| Planning.OutsideWindowHidden | script.js:114-125 | a job whose start is none of the calendar's slot instants appears in no cell |
| Planning.RenderPool | script.js:67-72 | the pool shows "Keine offenen Aufträge" exactly when no job is open, whatever the filter, and otherwise the open jobs in store order |
| Planning.NewOrderJoinsPool | script.js:239-250 | a new order is open, unscheduled and unassigned, and after it is pushed the pool lists it after the open jobs before it |
| Planning.Board.Drop | script.js:170-219 | mutating the job object in place leaves the store equal to `DropSpec` of the old store, and the store keeps its distinct objects |
| Planning.Board.CreateNewOrder | script.js:232-258 | the store gains exactly one new job object, holding the new order, at its end, and keeps the old objects in their places; the open-request counter goes up by one, and the filter is unchanged |
| Planning.Board.SetFilter | script.js:52-56 | a filter change sets the filter and leaves every job as it was |
| Mobile.PopulateSchedule | mobile/script.js:184-219 | the loop over hours 8..17 builds the view `ScheduleOf` defines: the message when no job is selected, otherwise ten "HH:00" rows of the jobs starting in each hour |
| Mobile.ScheduleOf | mobile/script.js:192-204 | "Keine Aufträge für diesen Tag." is shown exactly when none of the employee's non-open jobs starts on that day; otherwise the timeline has ten rows |
| Mobile.TimelineRows | mobile/script.js:206-216 | a job is in a row exactly when it is selected for the day and starts in that row's hour. It is on the timeline at all exactly when it starts between 08:00 and 17:59 |
| Mobile.ScheduleScreen.ChangeDate | mobile/script.js:179-182 | the shown day moves by the given number of calendar days, stays a valid date, and the view is that day's schedule |
| Mobile.SortByStart | mobile/script.js:152 | the sorted list is ordered by start, a null start counting as 1970 |
| Mobile.SortPermutes | mobile/script.js:152 | sorting is a permutation of the candidates |
| Mobile.SortByStartStable | mobile/script.js:152 | the sort is stable: jobs with the same start come out in the order they went in |
| Mobile.FindUpcoming | mobile/script.js:153 | `find` returns the first job that has not ended, and nothing exactly when every job has ended |
| Mobile.UpcomingMembers | mobile/script.js:151-152 | the scanned list holds exactly the employee's jobs that are not open |
| Mobile.NextJob | mobile/script.js:151-170 | the dashboard shows "Keine anstehenden Aufträge." exactly when every one of the employee's non-open jobs has ended. Otherwise the next job is one of those jobs that has not ended, and none of them starts earlier |
| Mobile.ApplyTemplate | mobile/script.js:117-132 | an empty key, or one that is neither in the table nor inherited from `Object.prototype`, changes nothing. A description over five UTF-16 code units is kept unless confirmed. Otherwise each field the page has gets the template's text, or "undefined" for an inherited key |
| Mobile.SurrogatePairsCountTwice | mobile/script.js:129 | a description of three emoji is six code units long, so it is not overwritten without confirmation |
| Validation.Check | backend/src/utils/validation.js:10-36 | a field is skipped exactly when it is absent and not required in this mode, and a rejected field adds its rule's message |
| Validation.RequiredStringField | backend/src/utils/validation.js:65-87 | a required-string block computes its field's outcome under the table's rule |
| Validation.AllowedValueField | backend/src/utils/validation.js:89-103 | an allowed-values block computes its field's outcome under the table's rule |
| Validation.StringifiedField | backend/src/utils/validation.js:18-20 | the description block stores `String(value)` for a present field, as the table says |
| Validation.CopiedField | backend/src/utils/validation.js:38-56 | a copy block stores a present field unchanged, as the table says |
| Validation.NumericField | backend/src/utils/validation.js:105-115 | a number block stores `Number(value)` for a present field, as the table says |
| Validation.ValidateJobPayload | backend/src/utils/validation.js:6-59 | the job validator as written computes the job table's result |
| Validation.ValidateUserPayload | backend/src/utils/validation.js:61-118 | the user validator as written computes the user table's result |
| Validation.BodyKeysFromRules | backend/src/utils/validation.js:8-58 | only fields a rule names become keys of the body |
| Validation.ErrorsFromRules | backend/src/utils/validation.js:7-32 | only messages of the rules become errors |
| Validation.PartialSkipsAbsent | backend/src/utils/validation.js:10 | in partial mode the rules of absent fields change nothing |
| Validation.FieldOutcome | backend/src/utils/validation.js:10-36 | in a table naming each field once, a field is in the body exactly when accepted, with its rule's entry. Its message is among the errors exactly when it is rejected, and never both |
| Validation.JobRulesWellFormed | backend/src/utils/validation.js:10-56 | the job validator checks each of its nine fields once |
| Validation.UserRulesWellFormed | backend/src/utils/validation.js:65-115 | the user validator checks each of its eight fields once |
| Validation.JobMessages | backend/src/utils/validation.js:12-32 | the job validator's possible errors are the title message and the two "must be one of" messages with their lists |
| Validation.UserMessages | backend/src/utils/validation.js:65-99 | the user validator's possible errors are the three "is required" messages and the role and status messages |
| Validation.JobBodyWhitelisted | backend/src/utils/validation.js:8-58 | whatever the payload holds, only the nine job fields reach the body |
| Validation.UserBodyWhitelisted | backend/src/utils/validation.js:63-117 | whatever the payload holds, only the eight user fields reach the body |
| Validation.JobErrorsListed | backend/src/utils/validation.js:7-32 | every job error is one of the three job messages |
| Validation.TitleRequired | backend/src/utils/validation.js:10-13 | outside partial mode a missing, empty or non-string title is an error and is not stored |
| Validation.TitleTrimmed | backend/src/utils/validation.js:13-15 | a non-empty string title is stored trimmed without error, and a title of white space only is stored as "" |
| Validation.PartialWithoutTitle | backend/src/utils/validation.js:10 | in partial mode an absent title is neither an error nor stored |
| Validation.JobEnumFields | backend/src/utils/validation.js:22-36 | a present job type or status is stored unchanged when allowed, and is otherwise an error and not stored |
| Validation.JobStatusPassed | backend/src/utils/validation.js:30-36 | in a job payload without errors, the status is stored exactly when given, unchanged |
| Validation.UserRoleAndStatusRequired | backend/src/utils/validation.js:89-103 | outside partial mode an absent role or user status is an error and not stored |
| Validation.FullUserNeedsAllRequired | backend/src/utils/validation.js:65-103 | outside partial mode a user payload missing any of the five required fields has errors |
| Validation.RequiredStringOutcome | backend/src/utils/validation.js:65-87 | a required-string block stores a non-empty string, trimmed where its rule says, without an error; any other value it checks is its error and is not stored |
| Validation.UserStringFields | backend/src/utils/validation.js:65-87 | a non-empty string username or email is stored trimmed, and a password_hash exactly as given. Any other value of these, or their absence outside partial mode, is that field's error and is not stored |
| Validation.UserEnumFields | backend/src/utils/validation.js:89-103 | a present role or user status is stored unchanged when allowed, and is otherwise its error and not stored |
| Router.StripLeading | backend/src/server.js:9 | the result is a suffix of the path that does not start with "/", and everything removed before it is "/" |
| Router.StripTrailing | backend/src/server.js:9 | the result is a prefix of the path that does not end with "/", and everything removed after it is "/" |
| Router.CleanSegments | backend/src/server.js:7-12 | no segment is empty or holds a slash |
| Router.CleanSegmentsAreNonEmptyPieces | backend/src/server.js:9-11 | stripping the slash runs at the ends does not change the segments: they are the non-empty pieces between slashes |
| Router.CleanSegmentsOfPath | backend/src/server.js:7-12 | cleaning "/s1/s2/..." built from segments gives those segments back |
| Router.TrailingSlashIgnored | backend/src/server.js:9 | a trailing slash does not change the segments |
| Router.DoubledAndTrailingSlashes | backend/src/server.js:7-12 | a doubled inner slash and a trailing slash make no segments: "/a//b/" cleans to [a, b] |
| Router.BindParams | backend/src/server.js:35-51 | the inner loop reports a match exactly when every literal segment of the pattern is equal. On a match it binds each `:name` to its segment |
| Router.MatchIn | backend/src/server.js:27-58 | the outer loop returns the match of the first route of the same method that fits, and null when there is none |
| Router.MatchRoute | backend/src/server.js:14-59 | `matchRoute` is the first match in the eight-route table for the cleaned segments |
| Router.FirstMatch | backend/src/server.js:27-58 | there is no match exactly when no route of the table applies |
| Router.FirstApplyingRouteWins | backend/src/server.js:27-55 | the first route that applies is matched, with its handler and its bound parameters |
| Router.MatchedRouteApplies | backend/src/server.js:27-55 | a match comes from an applying route with no applying route before it. Its parameter names are exactly that pattern's `:`-names |
| Router.CapturesKeys | backend/src/server.js:42-45 | the bound parameter names are exactly the pattern's `:`-names without the colon |
| Router.CapturedSegment | backend/src/server.js:42-45 | a parameter not repeated later in the pattern is bound to the segment in its place |
| Router.GetJobExample | backend/src/server.js:20 | GET on ["jobs", "abc"] reaches the single-job handler with id "abc" |
| Router.PostJobExample | backend/src/server.js:16-25 | POST on ["jobs", "abc"] matches no route |
| Responses.Single | backend/src/routes/jobs.js:5-10 | `single` yields the first element of an array, a non-array as it is, and null in place of anything falsy; its result is null or truthy |
| Responses.ValidationFailure | backend/src/routes/jobs.js:38-41 | a validation failure answers 400 with the error "Validation failed" and the errors as details |
| JobRoutes.GetJob | backend/src/routes/jobs.js:21-32 | the reply is 404 "Job not found" exactly when no record was found, and 200 with the record otherwise |
| JobRoutes.NewJobRecord | backend/src/routes/jobs.js:43-46 | the created record is the payload plus a status, which is "offen" unless the payload gives one |
| JobRoutes.CreateJob | backend/src/routes/jobs.js:34-52 | when the validator throws, the catch answers 500 and nothing is created. Otherwise a create answers 400 exactly when validation fails, and then creates nothing. Without errors it sends the validated body, holding only job fields, with the default status and answers 201 with the unwrapped record |
| JobRoutes.DescriptionWithOwnToString | backend/src/routes/jobs.js:34-52 | a create whose description is an object with its own "toString" answers 500 with the TypeError's message and creates nothing, as `String(payload.description)` throws |
| JobRoutes.CreateNeedsTitle | backend/src/routes/jobs.js:37-41 | a create without a non-empty string title creates nothing. It answers 400 with the title error, or 500 when the description cannot be converted |
| JobRoutes.CreatedStatus | backend/src/routes/jobs.js:43-46 | a created job has status "offen" when the request gives none, and the requested status otherwise |
| JobRoutes.UpdateWithoutFields | backend/src/routes/jobs.js:57-69 | an update body with no job field passes partial validation and sends an empty change. It answers 200 when the job exists and 404 when it does not |
| JobRoutes.UpdateWithoutTitle | backend/src/routes/jobs.js:57-61 | an update without a title is never rejected for the title |
| JobRoutes.UpdateJob | backend/src/routes/jobs.js:54-73 | when the validator throws, the catch answers 500 and nothing is updated. Otherwise an update answers 400 with the errors and sends nothing, else sends the validated body, holding only job fields. It then answers 404 "Job not found" when nothing was updated and 200 with the unwrapped record otherwise |
| EmployeeRoutes.GetEmployee | backend/src/routes/employees.js:21-32 | the reply is 404 "Employee not found" exactly when no record was found, and 200 with the record otherwise |
| EmployeeRoutes.CreateNeedsRequiredFields | backend/src/routes/employees.js:37-41 | a create missing any of username, email, password_hash, role or status creates nothing. It answers 400, or 500 when a day count cannot be converted |
| EmployeeRoutes.CreateEmployee | backend/src/routes/employees.js:34-48 | when the validator throws, the catch answers 500 and nothing is created. Otherwise a create answers 400 exactly when validation fails, and then creates nothing. Without errors it sends the validated body, which holds only user fields, and answers 201 with the unwrapped record |

## Left out

- Rendering: the HTML the pages write, the CSS and the DOM. The model gives what each view shows: the jobs of each cell, the pool's cards or its message, the timeline rows, and the next job.
- The mobile signature pad (`SignaturePad`, `clearSignature`) and the preview and save alerts: canvas and browser dialogs.
- The desktop dashboard (`populateDashboard`), `createDraggableJobCard`, `allowDrop`, `openModal` and `closeModal`: presentation only. The counter `createNewOrder` increments is modelled.
- Mobile.OnDay: the source takes the day of a start from `toISOString()`, which is the UTC day. The model compares the local date. The two differ for jobs starting near midnight outside UTC, and time zones are not modelled.
- JavaScript `Date`: date-times are field values (`Timestamps.Stamp`), and their instants are compared through `Timestamps.Ordinal`. Locale formatting (`toLocaleDateString`, `toLocaleTimeString`), time zones, daylight saving and invalid dates (NaN) are not modelled. The current time (`new Date()`, the new order's id) is a parameter.
- Timestamps.ParseStamp: reads only the fixed "YYYY-MM-DDTHH:MM:SS" form the board writes, not every string `new Date` accepts.
- Mobile.SortByStart: modelled on values as a stable insertion sort ordered by start, not as the in-place `Array.prototype.sort`. Comparator results of NaN, from unparsable starts, are not modelled.
- The guards for a missing `window.mockData` or a missing page element: the model always has a store and a page.
- The mock seed data: `Planning.Board.constructor` takes any initial store.
- `handleGetJobs` and `handleGetEmployees`: they always answer 200 with the service's list, so they make no decision.
- The service calls (`getJobById`, `createJob`, `updateJob`, `getEmployeeById`, `createEmployee`): what they return is an input of each handler, and the record a handler passes to them is part of its result. The service module itself is not part of this model.
- `parseJsonBody` and the body's JSON: a request body is a parsed JSON object (`Js.Payload`). Bodies that are not JSON objects, and malformed JSON, are not modelled.
- `handleError` and the 500 reply of the server, the CORS pre-flight (`handleOptions`), `healthcheck`, `notFound`, the configuration and the server start-up. They are I/O and error plumbing outside the decisions modelled.
- Validation.NumericField: `Number(value)` is not evaluated; the body holds `NumberOf(value)` in its place.
- Validation.ValidateJobPayload / Validation.ValidateUserPayload: where a conversion throws, the validator as modelled still returns a result. The throw is modelled by `Validation.JobPayloadThrows` and `Validation.UserPayloadThrows`, which the handlers test first.
- Responses.ConversionError: the message "Cannot convert object to primitive value" is the one Node.js gives for this TypeError; other engines word it differently.
- Js.ToJsString: where `Js.ConversionThrows` holds, JavaScript throws instead of giving a string, and the function's result there stands for nothing. The handlers test for the throw before they use the validator's result.
- Js.ToJsString: numbers are integers in `Js.Value`, and `String(n)` is written as plain decimal digits. JavaScript writes those only for integers below 10^21 in magnitude, and it holds integers exactly only up to 2^53. Fractions, larger numbers and exponent notation are not modelled.
- The `single` helper is defined identically in the job and employee handler files; `Responses.Single` models both.
- The partial mode of `validateUserPayload` is modelled, although no handler uses it.

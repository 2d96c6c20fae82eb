# Service-request controller, modelled in Dafny

This project models the back-end controller for service requests. A client asks a
freelancer for a service. The freelancer lists the requests addressed to them and
accepts or rejects each one. The controller has three Express handlers:

- `createServiceRequestHandler` checks `service_id`, `client_id` and `message`. It
  calls the service layer with the message trimmed and answers 201 with the new
  record. If the service throws, its error message decides between 400, 409, 404
  and 500.
- `getRequestsForFreelancerHandler` checks the `freelancerId` path parameter. It
  answers 200 with the freelancer's requests and their count, or 500.
- `updateRequestStatusHandler` checks the `status` and `freelancerId` of the body
  and the `id` path parameter. It calls the service layer and answers 200. If the
  service throws, its error message decides between 404, 403, 409 and 500.

Each handler is a pure function here. It takes the request fields and the service
as parameters and returns a `Response` (status code and JSON body). The handler is
split into its validation step (`ValidateCreate`, `ValidateList`,
`ValidateUpdate`), the service call, and the mapping of the outcome to a response
(`CreateResponse`, `ListResponse`, `UpdateResponse`).

The validation step returns `Respond` (answer now) or `Invoke` (the exact service
arguments). This makes "the service is not called when validation fails" a
theorem: the answer is the same for every service function.

Files:

- `text.dfy` (module `Text`) models JavaScript's `includes` and `trim`.
- `uuid.dfy` (module `Uuid`) models the UUID regular expression. It is an anchored
  sequence of character-class atoms, matched ignoring case. It is proved
  equivalent to a position-by-position description of the format.
- `controller.dfy` (module `ServiceRequestController`) models the three handlers
  and their properties.

Reference definitions, each with a proved link to the handler it describes:

- `CreateFailures` and `UpdateFailures` list every check a request fails, in the
  handler's order. The handler answers with the first of them.
- A rule table (`CreateErrorRules`, `UpdateErrorRules`) read by `Classify` /
  `FirstMatchFrom` is the reference for each `catch` block's chain of `if`s.
- `UuidLayout` is the reference for the regular expression.

All paths below are in `backend/src/controllers/service-request.controller.ts`.

## Model

| member | source | states |
|---|---|---|
| Text.IncludesIff | backend/src/controllers/service-request.controller.ts:50-56 | `includes` holds exactly when the phrase occurs at some offset of the message. Matching is case-sensitive, and the empty phrase occurs everywhere. |
| Text.SkipLeading | backend/src/controllers/service-request.controller.ts:28 | The first position from `i` on that is not whitespace. Everything skipped is whitespace. |
| Text.SkipTrailing | backend/src/controllers/service-request.controller.ts:28 | Going back from `hi`, the position just after the last non-whitespace character. Everything skipped is whitespace. |
| Text.Trim | backend/src/controllers/service-request.controller.ts:28-37 | `trim()` returns a contiguous middle part of the string, and only whitespace lies on either side of it. It is empty exactly when the string is all whitespace. Otherwise it starts and ends with a non-whitespace character. |
| Text.TrimIdempotent | backend/src/controllers/service-request.controller.ts:37 | Trimming an already trimmed message changes nothing. |
| Uuid.MatchesIff | backend/src/controllers/service-request.controller.ts:19-20 | An anchored sequence of fixed-count atoms matches exactly the strings of its total width whose every character matches, ignoring case, the class at its position. |
| Uuid.UuidPatternClasses | backend/src/controllers/service-request.controller.ts:20 | The class the UUID pattern puts at each of the 36 positions: hyphens at 8, 13, 18 and 23, the version class at 14, the variant class at 19, hex elsewhere. |
| Uuid.ValidUuidIff | backend/src/controllers/service-request.controller.ts:19-21 | The UUID test accepts `s` if and only if `s` has 36 characters, with hyphens at 8, 13, 18 and 23, a digit 1–5 at 14, one of 8, 9, a, b, A, B at 19, and hex digits of either case elsewhere. |
| Uuid.LowerCaseUuidAccepted | backend/src/controllers/service-request.controller.ts:19-21 | A well-formed lower-case UUID passes the test. |
| Uuid.UpperCaseUuidAccepted | backend/src/controllers/service-request.controller.ts:19-21 | The same UUID in upper case passes: the `i` flag applies. |
| Uuid.VersionDigitChecked | backend/src/controllers/service-request.controller.ts:20 | A 36-character string whose version digit is not 1–5 is rejected. |
| Uuid.VariantDigitChecked | backend/src/controllers/service-request.controller.ts:20 | A 36-character string whose variant digit is not 8, 9, a or b (in either case) is rejected. |
| Uuid.WrongLengthRejected | backend/src/controllers/service-request.controller.ts:20 | A string of any length other than 36 is rejected. |
| Text.Includes | backend/src/controllers/service-request.controller.ts:50-56 | `message.includes(phrase)`: the phrase is a prefix of the message or is included in its tail. |
| Uuid.ValidUuid | backend/src/controllers/service-request.controller.ts:19-21 | `uuidRegex.test(s)`: anchored matching of the pattern's groups, ignoring case. |
| ServiceRequestController.Truthy | backend/src/controllers/service-request.controller.ts:12 | JavaScript truthiness of a body field: `undefined` and `""` are falsy. A non-string value carries its own truthiness. |
| ServiceRequestController.Present | backend/src/controllers/service-request.controller.ts:12 | An id passes `!id` when it is given and is not the empty string. |
| ServiceRequestController.UuidField | backend/src/controllers/service-request.controller.ts:21 | `uuidRegex.test(f)`, where an absent field is tested as the text "undefined" (also at :77 and :122). |
| ServiceRequestController.MessageOk | backend/src/controllers/service-request.controller.ts:28 | The message passes when it is a string whose `trim()` is not empty. |
| ServiceRequestController.AllowedStatus | backend/src/controllers/service-request.controller.ts:129 | `["accepted", "rejected"].includes(status)` with strict equality: only those two strings pass. |
| ServiceRequestController.UpdatedMessage | backend/src/controllers/service-request.controller.ts:142 | The success text "Service request <status> successfully". |
| ServiceRequestController.Classify | backend/src/controllers/service-request.controller.ts:46-63 | The reference reading of a `catch` block: the first rule whose phrase the message includes gives the code and echoes the message. No match, or a non-`Error` throw, gives 500 with the fixed text. |
| ServiceRequestController.CreateFailures | backend/src/controllers/service-request.controller.ts:12-32 | Every create check the body fails, in the handler's order: missing fields, UUID format, message. |
| ServiceRequestController.UpdateFailures | backend/src/controllers/service-request.controller.ts:113-133 | Every update check the request fails, in the handler's order: missing fields, UUID format, status. |
| ServiceRequestController.FirstMatchFrom | backend/src/controllers/service-request.controller.ts:49-59 | Returns the first rule, from index `k` on, whose phrase the message includes. No earlier rule matches. It returns none exactly when no rule matches. |
| ServiceRequestController.ValidateCreate | backend/src/controllers/service-request.controller.ts:9-38 | The create handler answers at once exactly when some check fails. The answer is 400 with the first failure, in the order: missing fields, then UUID format, then message. Otherwise it calls the service with both ids and the trimmed message, which is non-empty and already trimmed, and both ids are valid UUIDs. |
| ServiceRequestController.CreateErrorResponse | backend/src/controllers/service-request.controller.ts:46-63 | The create `catch` block equals the first-match reading of the table: own-service → 400, then pending → 409, then "Service not found" → 404, otherwise 500. A non-`Error` throw gives 500. Every non-500 answer echoes the error's message. |
| ServiceRequestController.CreateResponse | backend/src/controllers/service-request.controller.ts:40-63 | 201 exactly when the service returned. The body then carries the record's `id` and `status`, the success message, and the record as `data`. A throw is classified by `CreateErrorResponse`. |
| ServiceRequestController.CreateServiceRequest | backend/src/controllers/service-request.controller.ts:4-65 | The create handler answers with one of 201, 400, 404, 409 or 500. It gives 400 with the first failed check when validation fails. Otherwise it gives the response to the service's outcome on the ids and the trimmed message. |
| ServiceRequestController.ValidateList | backend/src/controllers/service-request.controller.ts:72-85 | The get handler answers 400 exactly when `freelancerId` is not a valid UUID. Otherwise it calls the service with `freelancerId` unchanged. |
| ServiceRequestController.ListResponse | backend/src/controllers/service-request.controller.ts:87-97 | 200 exactly when the service returned. The body then holds the requests and a count equal to their number. Any failure gives 500 with a fixed text. |
| ServiceRequestController.GetRequestsForFreelancer | backend/src/controllers/service-request.controller.ts:67-98 | The get handler answers 200, 400 or 500. It gives 400 iff the id is malformed and 200 iff the id is valid and the service returned. `count` is the number of requests sent. A 500 has the fixed text. |
| ServiceRequestController.ValidateUpdate | backend/src/controllers/service-request.controller.ts:105-139 | The update handler answers at once exactly when some check fails. The answer is 400 with the first failure, in the order: missing fields, then UUID format of `id` and `freelancerId`, then status. Otherwise it calls the service with the id, a status of "accepted" or "rejected", and the freelancer id. |
| ServiceRequestController.UpdateErrorResponse | backend/src/controllers/service-request.controller.ts:145-164 | The update `catch` block equals the first-match reading of the table: "not found" → 404, then ownership → 403, then "already been processed" → 409, otherwise 500. A non-`Error` throw gives 500. Every non-500 answer echoes the error's message. |
| ServiceRequestController.UpdateResponse | backend/src/controllers/service-request.controller.ts:141-164 | 200 exactly when the service returned. The body is "Service request <status> successfully" with the updated record. A throw is classified by `UpdateErrorResponse`. |
| ServiceRequestController.UpdateRequestStatus | backend/src/controllers/service-request.controller.ts:100-166 | The update handler answers with one of 200, 400, 403, 404, 409 or 500. It gives 400 with the first failed check when validation fails. Otherwise it gives the response to the service's outcome on (id, status, freelancerId). |
| ServiceRequestController.CreateRejectionIgnoresService | backend/src/controllers/service-request.controller.ts:12-32 | A create request that fails validation gets 400, the same whatever the service would do: the service is never invoked. |
| ServiceRequestController.EmptyMessageIsMissing | backend/src/controllers/service-request.controller.ts:12-16 | An empty message is reported as a missing field, before any UUID check. |
| ServiceRequestController.BlankMessageRejected | backend/src/controllers/service-request.controller.ts:27-32 | With valid ids, a message of blanks passes the presence check and gets "Message must be a non-empty string". |
| ServiceRequestController.CreateErrorPrecedence | backend/src/controllers/service-request.controller.ts:49-63 | For an `Error`, each create code holds if and only if its phrase is included and no earlier phrase is. |
| ServiceRequestController.CreateErrorIsCaseSensitive | backend/src/controllers/service-request.controller.ts:56-63 | "service not found" in lower case is not recognised and gives 500. |
| ServiceRequestController.NonErrorIsInternal | backend/src/controllers/service-request.controller.ts:49-63 | A thrown value that is not an `Error` gives the fixed 500 answer in both classifying handlers. |
| ServiceRequestController.ListFailureIgnoresMessage | backend/src/controllers/service-request.controller.ts:92-97 | With a valid id, every service failure gives the same 500 answer, whatever was thrown. |
| ServiceRequestController.UpdateRejectionIgnoresService | backend/src/controllers/service-request.controller.ts:113-133 | An update request that fails validation gets 400, the same whatever the service would do. |
| ServiceRequestController.PendingStatusRejected | backend/src/controllers/service-request.controller.ts:128-133 | With valid ids, the status "pending" is rejected with the status message. |
| ServiceRequestController.UpdateErrorPrecedence | backend/src/controllers/service-request.controller.ts:148-164 | For an `Error`, each update code holds if and only if its phrase is included and no earlier phrase is. |
| ServiceRequestController.NotFoundTakesPrecedence | backend/src/controllers/service-request.controller.ts:148-159 | A message including both "not found" and "already been processed" gives 404 with that message. |
| ServiceRequestController.AbsentIdIsMissing | backend/src/controllers/service-request.controller.ts:12-25 | An absent id gets the missing-fields 400 in the create and the update handler, never the UUID one: presence at :12 and :113 is checked before format. The format test on an absent id would also fail, because it tests the text "undefined". |

## Left out

- The Express `req`/`res` objects are reduced to the fields the handlers read and to a `Response` value (code and body). Headers, `return` values and middleware are not modelled.
- `async`/`await` is modelled as a service outcome (`Ok` or `Threw`). The service is a function parameter, because `serviceRequestService` is not part of this model.
- `console.error` logging in the `catch` blocks is output only, so it is left out.
- `CreateBody`: `service_id` and `client_id` are absent or strings. A number or an object would be converted to text by the regular expression's test, and that conversion is not modelled. `message` can be any value, through `NonString`.
- `UpdateBody`: `freelancerId` is likewise absent or a string. A non-string value tested at :122 would be converted to text, and that is not modelled. `status` can be any value, through `NonString`.
- A `req.body` that is itself `undefined` or `null` is not modelled. The destructuring at :9 or :106 then throws a `TypeError`, whose message holds none of the phrases, so the source answers 500. The nearest model input, a body with every field absent, gets the missing-fields 400 instead.
- `CreateResponse`: a service that resolves to `null` or `undefined` makes `serviceRequest.id` throw a `TypeError`. The `catch` block turns that into 500, which the model does not represent because the service always returns a record.
- `ListResponse`: the service result is a sequence of records. A non-array result with no `length` is not modelled.
- `UpdateResponse`: like the create path, a `null` record is not modelled. A `null` record would still give a 200 with `data: null`.
- `ServiceRequest`: the record's fields beyond `id` and `status` are nominal. The controller only passes the record through.
- `Text.IsWhitespace`: the whitespace `trim` removes is the fixed table of ECMA-262 (2023 edition, sections 12.2 and 12.3). Later Unicode changes to the space-separator category are not followed.
- Strings are sequences of Unicode scalar values, not of UTF-16 code units. A JSON body can carry a lone surrogate such as `"\uD800"`. Such a message passes the check at :28 and is sent to the service, but a Dafny `string` cannot hold it, so that input is not represented. For the strings that are represented, the checks here behave the same either way.
- The remaining files of the repository are front-end code and type declarations, and they are not part of this model.

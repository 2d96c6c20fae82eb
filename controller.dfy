/** The service-request controller: three HTTP handlers that validate their input,
    call the service layer, and turn its result or its thrown error into a status
    code and a JSON body.

    Each handler is split the way it runs: a validation step that either answers
    at once (`Respond`) or names the exact arguments of the one service call it
    makes (`Invoke`); then the service (a parameter: its code is not part of this
    model); then the mapping of the service's outcome to a response. */
module ServiceRequestController {
  import opened Text
  import opened Uuid

  datatype Option<T> = None | Some(value: T)

  /** A field of a JSON request body, as far as the handlers look at it. */
  datatype JsValue = Undefined | Str(s: string) | NonString(truthy: bool)

  /** JavaScript truthiness: `!v` is false. `undefined` and `""` are falsy. */
  predicate Truthy(v: JsValue) {
    match v
    case Undefined => false
    case Str(s) => s != ""
    case NonString(t) => t
  }

  /** An identifier field (absent or a string) is present when it is truthy. */
  predicate Present(f: Option<string>) {
    f.Some? && f.value != ""
  }

  /** `uuidRegex.test(f)`: an absent field is converted to the text "undefined". */
  predicate UuidField(f: Option<string>) {
    ValidUuid(if f.Some? then f.value else "undefined")
  }

  /** A service request as the service layer returns it. The controller reads only
      `id` and `status` and passes the whole record through. */
  datatype ServiceRequest =
    ServiceRequest(id: string, serviceId: string, clientId: string, message: string, status: string)

  /** What a `catch` block sees: an `Error` with its message, or any other value. */
  datatype Thrown = ErrorWith(message: string) | NonError

  /** The outcome of an awaited service call. */
  datatype Outcome<T> = Ok(value: T) | Threw(thrown: Thrown)

  /** The JSON bodies the handlers send. */
  datatype Body =
    | ErrorBody(error: string)
    | Created(id: string, status: string, message: string, data: ServiceRequest)
    | Listed(message: string, requests: seq<ServiceRequest>, count: nat)  // `requests` is sent as `data`
    | Updated(message: string, data: ServiceRequest)

  /** `res.status(code).json(body)`. */
  datatype Response = Response(code: nat, body: Body)

  /** The outcome of a handler's validation: answer now, or call the service with
      these arguments. */
  datatype Step<A> = Respond(response: Response) | Invoke(args: A)

  // ---------------------------------------------------------------------------
  // Classifying a thrown error by the phrases its message includes

  /** A phrase to look for in an error message and the status code it selects. */
  datatype Rule = Rule(phrase: string, code: nat)

  /** The index of the first rule, from index `k` on, whose phrase the message includes. */
  function FirstMatchFrom(rules: seq<Rule>, k: nat, message: string): (r: Option<nat>)
    ensures r.Some? ==> k <= r.value < |rules| && Includes(message, rules[r.value].phrase)
    ensures r.Some? ==> forall j :: k <= j < r.value ==> !Includes(message, rules[j].phrase)
    ensures r.None? <==> forall j :: k <= j < |rules| ==> !Includes(message, rules[j].phrase)
    decreases |rules| - k
  {
    if k >= |rules| then None
    else if Includes(message, rules[k].phrase) then Some(k)
    else FirstMatchFrom(rules, k + 1, message)
  }

  /** A table-driven reading of an error classification: the first matching rule
      decides the code and the body echoes the message; a message no rule matches,
      and any thrown value that is not an `Error`, give 500 with a fixed text. */
  function Classify(rules: seq<Rule>, fallback: string, e: Thrown): Response {
    if e.NonError? then Response(500, ErrorBody(fallback))
    else
      match FirstMatchFrom(rules, 0, e.message)
      case Some(j) => Response(rules[j].code, ErrorBody(e.message))
      case None => Response(500, ErrorBody(fallback))
  }

  // ---------------------------------------------------------------------------
  // createServiceRequestHandler

  const MissingCreateFields := "Missing required fields: service_id, client_id, message"
  const InvalidCreateUuid := "Invalid UUID format for service_id or client_id"
  const InvalidMessage := "Message must be a non-empty string"
  const CreatedMessage := "Service request created successfully"
  const CreateFailed := "Internal server error while creating service request"

  const OwnServicePhrase := "Cannot request your own service"
  const PendingPhrase := "already have a pending request"
  const ServiceNotFoundPhrase := "Service not found"

  const CreateErrorRules := [Rule(OwnServicePhrase, 400), Rule(PendingPhrase, 409), Rule(ServiceNotFoundPhrase, 404)]

  /** The fields of `req.body` the handler reads. */
  datatype CreateBody = CreateBody(serviceId: Option<string>, clientId: Option<string>, message: JsValue)

  /** The argument of `serviceRequestService.createServiceRequest`. */
  datatype CreateArgs = CreateArgs(serviceId: string, clientId: string, message: string)

  /** A message passes when it is a string that is not all whitespace. */
  predicate MessageOk(m: JsValue) {
    m.Str? && Trim(m.s) != ""
  }

  /** Every create check the body fails, in the order the handler makes them. */
  function CreateFailures(b: CreateBody): seq<string> {
    (if !Present(b.serviceId) || !Present(b.clientId) || !Truthy(b.message) then [MissingCreateFields] else [])
    + (if !UuidField(b.serviceId) || !UuidField(b.clientId) then [InvalidCreateUuid] else [])
    + (if !MessageOk(b.message) then [InvalidMessage] else [])
  }

  /** Validation of a create request. The first failing check decides the 400 answer;
      when none fails, the service is called with both identifiers and the message
      trimmed. */
  function ValidateCreate(b: CreateBody): (step: Step<CreateArgs>)
    ensures step.Respond? <==> CreateFailures(b) != []
    ensures step.Respond? ==> step.response == Response(400, ErrorBody(CreateFailures(b)[0]))
    ensures step.Invoke? ==>
      && b.serviceId.Some? && b.clientId.Some? && b.message.Str?
      && step.args == CreateArgs(b.serviceId.value, b.clientId.value, Trim(b.message.s))
    ensures step.Invoke? ==>
      && ValidUuid(step.args.serviceId) && ValidUuid(step.args.clientId)
      && step.args.message != [] && Trim(step.args.message) == step.args.message
  {
    var failures := CreateFailures(b);
    if !Present(b.serviceId) || !Present(b.clientId) || !Truthy(b.message) then
      assert failures[0] == MissingCreateFields;
      Respond(Response(400, ErrorBody(MissingCreateFields)))
    else if !ValidUuid(b.serviceId.value) || !ValidUuid(b.clientId.value) then
      assert failures[0] == InvalidCreateUuid;
      Respond(Response(400, ErrorBody(InvalidCreateUuid)))
    else if !b.message.Str? || |Trim(b.message.s)| == 0 then
      assert failures == [InvalidMessage];
      Respond(Response(400, ErrorBody(InvalidMessage)))
    else
      assert failures == [];
      TrimIdempotent(b.message.s);
      Invoke(CreateArgs(b.serviceId.value, b.clientId.value, Trim(b.message.s)))
  }

  /** The `catch` block of the create handler: the phrases are tried in order,
      case-sensitively, and the first one the message includes decides. */
  function CreateErrorResponse(e: Thrown): (r: Response)
    ensures r == Classify(CreateErrorRules, CreateFailed, e)
    ensures r.code in {400, 404, 409, 500}
    ensures r.code != 500 ==> e.ErrorWith? && r.body == ErrorBody(e.message)
  {
    if e.ErrorWith? && Includes(e.message, OwnServicePhrase) then
      Response(400, ErrorBody(e.message))
    else if e.ErrorWith? && Includes(e.message, PendingPhrase) then
      assert FirstMatchFrom(CreateErrorRules, 1, e.message) == Some(1);
      Response(409, ErrorBody(e.message))
    else if e.ErrorWith? && Includes(e.message, ServiceNotFoundPhrase) then
      assert FirstMatchFrom(CreateErrorRules, 2, e.message) == Some(2);
      assert FirstMatchFrom(CreateErrorRules, 1, e.message) == Some(2);
      Response(404, ErrorBody(e.message))
    else
      assert e.ErrorWith? ==> FirstMatchFrom(CreateErrorRules, 0, e.message).None?;
      Response(500, ErrorBody(CreateFailed))
  }

  /** The answer once the service has been called: 201 carrying the created
      record's `id` and `status` and the whole record, or the classified error. */
  function CreateResponse(o: Outcome<ServiceRequest>): (r: Response)
    ensures r.code == 201 <==> o.Ok?
    ensures o.Ok? ==>
      && r.body.Created? && r.body.message == CreatedMessage
      && r.body.id == o.value.id && r.body.status == o.value.status && r.body.data == o.value
    ensures o.Threw? ==> r == CreateErrorResponse(o.thrown)
  {
    match o
    case Ok(record) => Response(201, Created(record.id, record.status, CreatedMessage, record))
    case Threw(e) => CreateErrorResponse(e)
  }

  /** `createServiceRequestHandler`. */
  function CreateServiceRequest(b: CreateBody, service: CreateArgs -> Outcome<ServiceRequest>): (r: Response)
    ensures r.code in {201, 400, 404, 409, 500}
    ensures CreateFailures(b) != [] ==> r == Response(400, ErrorBody(CreateFailures(b)[0]))
    ensures CreateFailures(b) == [] ==>
      && b.serviceId.Some? && b.clientId.Some? && b.message.Str?
      && r == CreateResponse(service(CreateArgs(b.serviceId.value, b.clientId.value, Trim(b.message.s))))
  {
    match ValidateCreate(b)
    case Respond(response) => response
    case Invoke(args) => CreateResponse(service(args))
  }

  // ---------------------------------------------------------------------------
  // getRequestsForFreelancerHandler

  const InvalidFreelancerUuid := "Invalid UUID format for freelancerId"
  const ListedMessage := "Service requests retrieved successfully"
  const ListFailed := "Internal server error while fetching service requests"

  /** Validation of the `freelancerId` path parameter. */
  function ValidateList(freelancerId: string): (step: Step<string>)
    ensures step.Respond? <==> !ValidUuid(freelancerId)
    ensures step.Respond? ==> step.response == Response(400, ErrorBody(InvalidFreelancerUuid))
    ensures step.Invoke? ==> step.args == freelancerId
  {
    if !ValidUuid(freelancerId) then Respond(Response(400, ErrorBody(InvalidFreelancerUuid)))
    else Invoke(freelancerId)
  }

  /** The answer once the service has been called: 200 with the requests and their
      count, or 500 for any failure whatever it says. */
  function ListResponse(o: Outcome<seq<ServiceRequest>>): (r: Response)
    ensures r.code == 200 <==> o.Ok?
    ensures o.Ok? ==>
      r.body.Listed? && r.body.message == ListedMessage && r.body.requests == o.value && r.body.count == |r.body.requests|
    ensures o.Threw? ==> r == Response(500, ErrorBody(ListFailed))
  {
    match o
    case Ok(requests) => Response(200, Listed(ListedMessage, requests, |requests|))
    case Threw(_) => Response(500, ErrorBody(ListFailed))
  }

  /** `getRequestsForFreelancerHandler`. */
  function GetRequestsForFreelancer(freelancerId: string, service: string -> Outcome<seq<ServiceRequest>>): (r: Response)
    ensures r.code in {200, 400, 500}
    ensures r.code == 400 <==> !ValidUuid(freelancerId)
    ensures r.code == 400 ==> r.body == ErrorBody(InvalidFreelancerUuid)
    ensures r.code == 200 <==> ValidUuid(freelancerId) && service(freelancerId).Ok?
    ensures r.code == 200 ==> r.body.Listed? && r.body.requests == service(freelancerId).value && r.body.count == |r.body.requests|
    ensures r.code == 500 ==> r.body == ErrorBody(ListFailed)
  {
    match ValidateList(freelancerId)
    case Respond(response) => response
    case Invoke(id) => ListResponse(service(id))
  }

  // ---------------------------------------------------------------------------
  // updateRequestStatusHandler

  const MissingUpdateFields := "Missing required fields: status, freelancerId"
  const InvalidUpdateUuid := "Invalid UUID format for id or freelancerId"
  const InvalidStatus := "Status must be either \"accepted\" or \"rejected\""
  const UpdateFailed := "Internal server error while updating service request"

  const NotFoundPhrase := "not found"
  const OwnershipPhrase := "can only update requests for your own services"
  const ProcessedPhrase := "already been processed"

  const UpdateErrorRules := [Rule(NotFoundPhrase, 404), Rule(OwnershipPhrase, 403), Rule(ProcessedPhrase, 409)]

  /** The fields of `req.body` the handler reads (`id` is a path parameter). */
  datatype UpdateBody = UpdateBody(status: JsValue, freelancerId: Option<string>)

  /** The arguments of `serviceRequestService.updateRequestStatus`. */
  datatype UpdateArgs = UpdateArgs(id: string, status: string, freelancerId: string)

  /** `["accepted", "rejected"].includes(status)`: strict equality, so only these
      two strings pass. */
  predicate AllowedStatus(v: JsValue) {
    v == Str("accepted") || v == Str("rejected")
  }

  /** Every update check the request fails, in the order the handler makes them. */
  function UpdateFailures(id: string, b: UpdateBody): seq<string> {
    (if !Truthy(b.status) || !Present(b.freelancerId) then [MissingUpdateFields] else [])
    + (if !ValidUuid(id) || !UuidField(b.freelancerId) then [InvalidUpdateUuid] else [])
    + (if !AllowedStatus(b.status) then [InvalidStatus] else [])
  }

  /** Validation of an update request. The first failing check decides the 400
      answer; when none fails, the service is called with the id, the status and
      the freelancer id unchanged. */
  function ValidateUpdate(id: string, b: UpdateBody): (step: Step<UpdateArgs>)
    ensures step.Respond? <==> UpdateFailures(id, b) != []
    ensures step.Respond? ==> step.response == Response(400, ErrorBody(UpdateFailures(id, b)[0]))
    ensures step.Invoke? ==>
      && b.status.Str? && b.freelancerId.Some?
      && step.args == UpdateArgs(id, b.status.s, b.freelancerId.value)
    ensures step.Invoke? ==>
      && (step.args.status == "accepted" || step.args.status == "rejected")
      && ValidUuid(step.args.id) && ValidUuid(step.args.freelancerId)
  {
    var failures := UpdateFailures(id, b);
    if !Truthy(b.status) || !Present(b.freelancerId) then
      assert failures[0] == MissingUpdateFields;
      Respond(Response(400, ErrorBody(MissingUpdateFields)))
    else if !ValidUuid(id) || !ValidUuid(b.freelancerId.value) then
      assert failures[0] == InvalidUpdateUuid;
      Respond(Response(400, ErrorBody(InvalidUpdateUuid)))
    else if !AllowedStatus(b.status) then
      assert failures == [InvalidStatus];
      Respond(Response(400, ErrorBody(InvalidStatus)))
    else
      assert failures == [];
      Invoke(UpdateArgs(id, b.status.s, b.freelancerId.value))
  }

  /** The `catch` block of the update handler: the phrases are tried in order,
      case-sensitively, and the first one the message includes decides. */
  function UpdateErrorResponse(e: Thrown): (r: Response)
    ensures r == Classify(UpdateErrorRules, UpdateFailed, e)
    ensures r.code in {403, 404, 409, 500}
    ensures r.code != 500 ==> e.ErrorWith? && r.body == ErrorBody(e.message)
  {
    if e.ErrorWith? && Includes(e.message, NotFoundPhrase) then
      Response(404, ErrorBody(e.message))
    else if e.ErrorWith? && Includes(e.message, OwnershipPhrase) then
      assert FirstMatchFrom(UpdateErrorRules, 1, e.message) == Some(1);
      Response(403, ErrorBody(e.message))
    else if e.ErrorWith? && Includes(e.message, ProcessedPhrase) then
      assert FirstMatchFrom(UpdateErrorRules, 2, e.message) == Some(2);
      assert FirstMatchFrom(UpdateErrorRules, 1, e.message) == Some(2);
      Response(409, ErrorBody(e.message))
    else
      assert e.ErrorWith? ==> FirstMatchFrom(UpdateErrorRules, 0, e.message).None?;
      Response(500, ErrorBody(UpdateFailed))
  }

  /** The template literal `Service request ${status} successfully`. */
  function UpdatedMessage(status: string): string {
    "Service request " + status + " successfully"
  }

  /** The answer once the service has been called: 200 with the updated record, or
      the classified error. */
  function UpdateResponse(status: string, o: Outcome<ServiceRequest>): (r: Response)
    ensures r.code == 200 <==> o.Ok?
    ensures o.Ok? ==> r.body == Updated(UpdatedMessage(status), o.value)
    ensures o.Threw? ==> r == UpdateErrorResponse(o.thrown)
  {
    match o
    case Ok(record) => Response(200, Updated(UpdatedMessage(status), record))
    case Threw(e) => UpdateErrorResponse(e)
  }

  /** `updateRequestStatusHandler`, for the path parameter `id` and the body `b`. */
  function UpdateRequestStatus(id: string, b: UpdateBody, service: UpdateArgs -> Outcome<ServiceRequest>): (r: Response)
    ensures r.code in {200, 400, 403, 404, 409, 500}
    ensures UpdateFailures(id, b) != [] ==> r == Response(400, ErrorBody(UpdateFailures(id, b)[0]))
    ensures UpdateFailures(id, b) == [] ==>
      && b.status.Str? && b.freelancerId.Some?
      && r == UpdateResponse(b.status.s, service(UpdateArgs(id, b.status.s, b.freelancerId.value)))
  {
    match ValidateUpdate(id, b)
    case Respond(response) => response
    case Invoke(args) => UpdateResponse(args.status, service(args))
  }

  // ---------------------------------------------------------------------------
  // Properties of the handlers

  /** A create request that fails validation is answered with 400 without the
      service: the answer is the same whatever the service would do. */
  lemma CreateRejectionIgnoresService(b: CreateBody, s1: CreateArgs -> Outcome<ServiceRequest>, s2: CreateArgs -> Outcome<ServiceRequest>)
    requires CreateFailures(b) != []
    ensures CreateServiceRequest(b, s1) == CreateServiceRequest(b, s2)
    ensures CreateServiceRequest(b, s1).code == 400
  {
  }

  /** An empty message is a missing field, whatever the identifiers are. */
  lemma EmptyMessageIsMissing(serviceId: Option<string>, clientId: Option<string>, service: CreateArgs -> Outcome<ServiceRequest>)
    ensures CreateServiceRequest(CreateBody(serviceId, clientId, Str("")), service)
      == Response(400, ErrorBody(MissingCreateFields))
  {
  }

  /** A message of blanks passes the presence check and fails the message check. */
  lemma BlankMessageRejected(serviceId: string, clientId: string, service: CreateArgs -> Outcome<ServiceRequest>)
    requires ValidUuid(serviceId) && ValidUuid(clientId)
    ensures CreateServiceRequest(CreateBody(Some(serviceId), Some(clientId), Str("   ")), service)
      == Response(400, ErrorBody(InvalidMessage))
  {
    var b := CreateBody(Some(serviceId), Some(clientId), Str("   "));
    BlankTrimsToEmpty();
    assert CreateFailures(b) == [InvalidMessage];
    var step := ValidateCreate(b);
    assert step.response == Response(400, ErrorBody(InvalidMessage));
  }

  /** Three blanks trim to the empty string. */
  lemma BlankTrimsToEmpty()
    ensures Trim("   ") == []
  {
    assert AllWhitespace("   ");
  }

  /** The create handler's error codes, phrase by phrase in order of precedence. */
  lemma CreateErrorPrecedence(message: string)
    ensures var r := CreateErrorResponse(ErrorWith(message));
      && (r.code == 400 <==> Includes(message, OwnServicePhrase))
      && (r.code == 409 <==> !Includes(message, OwnServicePhrase) && Includes(message, PendingPhrase))
      && (r.code == 404 <==> !Includes(message, OwnServicePhrase) && !Includes(message, PendingPhrase)
                             && Includes(message, ServiceNotFoundPhrase))
      && (r.code == 500 <==> !Includes(message, OwnServicePhrase) && !Includes(message, PendingPhrase)
                             && !Includes(message, ServiceNotFoundPhrase))
  {
  }

  /** Phrases are matched case-sensitively: a lower-case "service not found" is an
      internal error. */
  lemma CreateErrorIsCaseSensitive()
    ensures CreateErrorResponse(ErrorWith("service not found")).code == 500
  {
    assert "service not found"[0] != ServiceNotFoundPhrase[0];
    assert !Includes("service not found"[1..], ServiceNotFoundPhrase);
  }

  /** A value thrown that is not an `Error` is an internal error in every handler
      that classifies errors. */
  lemma NonErrorIsInternal()
    ensures CreateErrorResponse(NonError) == Response(500, ErrorBody(CreateFailed))
    ensures UpdateErrorResponse(NonError) == Response(500, ErrorBody(UpdateFailed))
  {
  }

  /** Listing answers 400 exactly for a malformed id, and any service failure is a
      500 whatever its message. */
  lemma ListFailureIgnoresMessage(freelancerId: string, s1: string -> Outcome<seq<ServiceRequest>>, s2: string -> Outcome<seq<ServiceRequest>>)
    requires ValidUuid(freelancerId) && s1(freelancerId).Threw? && s2(freelancerId).Threw?
    ensures GetRequestsForFreelancer(freelancerId, s1) == GetRequestsForFreelancer(freelancerId, s2)
    ensures GetRequestsForFreelancer(freelancerId, s1).code == 500
  {
  }

  /** An update request that fails validation is answered with 400 without the
      service. */
  lemma UpdateRejectionIgnoresService(id: string, b: UpdateBody, s1: UpdateArgs -> Outcome<ServiceRequest>, s2: UpdateArgs -> Outcome<ServiceRequest>)
    requires UpdateFailures(id, b) != []
    ensures UpdateRequestStatus(id, b, s1) == UpdateRequestStatus(id, b, s2)
    ensures UpdateRequestStatus(id, b, s1).code == 400
  {
  }

  /** "pending" is not a status a freelancer may set. */
  lemma PendingStatusRejected(id: string, freelancerId: string, service: UpdateArgs -> Outcome<ServiceRequest>)
    requires ValidUuid(id) && ValidUuid(freelancerId)
    ensures UpdateRequestStatus(id, UpdateBody(Str("pending"), Some(freelancerId)), service)
      == Response(400, ErrorBody(InvalidStatus))
  {
    assert Str("pending") != Str("accepted") && Str("pending") != Str("rejected");
  }

  /** The update handler's error codes, phrase by phrase in order of precedence. */
  lemma UpdateErrorPrecedence(message: string)
    ensures var r := UpdateErrorResponse(ErrorWith(message));
      && (r.code == 404 <==> Includes(message, NotFoundPhrase))
      && (r.code == 403 <==> !Includes(message, NotFoundPhrase) && Includes(message, OwnershipPhrase))
      && (r.code == 409 <==> !Includes(message, NotFoundPhrase) && !Includes(message, OwnershipPhrase)
                             && Includes(message, ProcessedPhrase))
      && (r.code == 500 <==> !Includes(message, NotFoundPhrase) && !Includes(message, OwnershipPhrase)
                             && !Includes(message, ProcessedPhrase))
  {
  }

  /** A message that says both "not found" and "already been processed" is a 404. */
  lemma NotFoundTakesPrecedence(message: string)
    requires Includes(message, NotFoundPhrase) && Includes(message, ProcessedPhrase)
    ensures UpdateErrorResponse(ErrorWith(message)) == Response(404, ErrorBody(message))
  {
  }

  /** An absent identifier is reported as a missing field, never as a malformed
      one: the presence check comes before the format check (which would test the
      text "undefined" and fail as well). */
  lemma AbsentIdIsMissing(
    id: string, b: CreateBody, u: UpdateBody,
    create: CreateArgs -> Outcome<ServiceRequest>, update: UpdateArgs -> Outcome<ServiceRequest>)
    requires b.serviceId.None? || b.clientId.None?
    requires u.freelancerId.None?
    ensures !UuidField(None)
    ensures CreateServiceRequest(b, create) == Response(400, ErrorBody(MissingCreateFields))
    ensures UpdateRequestStatus(id, u, update) == Response(400, ErrorBody(MissingUpdateFields))
  {
    ValidUuidIff("undefined");
  }
}

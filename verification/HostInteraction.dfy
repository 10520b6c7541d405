/** Host interaction requests and responses (checkpoint/controller_host.rs). */
module HostInteraction {
  import opened Common
  import opened Json
  import opened Unicode
  import opened ControllerWire

  const REQUEST_SCHEMA := "vv-agent.host-interaction-request.v1"
  const RESPONSE_SCHEMA := "vv-agent.host-interaction-response.v1"

  // ---- Controller handle --------------------------------------------------------------

  datatype ControllerHandle = ControllerHandle(checkpointKey: string, runId: string, traceId: string)

  function ValidateHandle(h: ControllerHandle): Result<()> {
    Check(IsIdentity(h.checkpointKey) && IsIdentity(h.runId) && IsIdentity(h.traceId), INVALID_STATE)
  }

  function HandleToValue(h: ControllerHandle): WireValue {
    Object(map[Name.CheckpointKey := Text(h.checkpointKey), Name.RunId := Text(h.runId), Name.TraceId := Text(h.traceId)])
  }

  function HandleFromValue(v: WireValue): Result<ControllerHandle> {
    var m :- ObjectOf(v, INVALID_STATE);
    var _ :- ExactFields(m, {Name.CheckpointKey, Name.RunId, Name.TraceId}, INVALID_STATE);
    var checkpointKey :- IdentityField(m, Name.CheckpointKey, INVALID_STATE);
    var runId :- IdentityField(m, Name.RunId, INVALID_STATE);
    var traceId :- IdentityField(m, Name.TraceId, INVALID_STATE);
    var h := ControllerHandle(checkpointKey, runId, traceId);
    var _ :- ValidateHandle(h);
    Ok(h)
  }

  lemma HandleExact(v: WireValue)
    ensures var r := HandleFromValue(v); r.Ok? ==> ValidateHandle(r.value).Ok? && HandleToValue(r.value) == v
  {
    hide NonBlank, Utf8Len;
  }

  lemma HandleRoundTrip(h: ControllerHandle)
    ensures HandleFromValue(HandleToValue(h)) == Ok(h) <==> ValidateHandle(h).Ok?
  {
    hide NonBlank, Utf8Len;
  }

  // ---- Request ------------------------------------------------------------------------

  datatype HostRequest = HostRequest(
    schemaVersion: string, interactionId: string, logicalCycle: nat, operationId: string,
    toolCallId: string, requestDigest: string, prompt: string)

  function RequestToValue(q: HostRequest): WireValue {
    Object(map[Name.SchemaVersion := Text(q.schemaVersion), Name.InteractionId := Text(q.interactionId),
               Name.LogicalCycle := Integer(q.logicalCycle), Name.OperationId := Text(q.operationId),
               Name.ToolCallId := Text(q.toolCallId), Name.RequestDigest := Text(q.requestDigest),
               Name.Prompt := Text(q.prompt)])
  }

  function RequestDigestOf(q: HostRequest, sha: Digest): string {
    DigestWithout(RequestToValue(q).fields, Name.RequestDigest, sha)
  }

  function ValidateRequest(q: HostRequest, sha: Digest): Result<()> {
    var _ :- Check(q.schemaVersion == REQUEST_SCHEMA, FIELDS_INVALID);
    var _ :- Check(IsIdentity(q.interactionId) && IsIdentity(q.operationId) && IsIdentity(q.toolCallId), FIELDS_INVALID);
    var _ :- Check(IntegerFits(q.logicalCycle, true), FIELDS_INVALID);
    var _ :- Check(NonBlank(q.prompt), FIELDS_INVALID);
    var _ :- Check(Utf8Len(q.prompt) <= CONTENT_BYTES, CONTENT_TOO_LARGE);
    var _ :- Check(IsSha256(q.requestDigest), FIELDS_INVALID);
    Check(RequestDigestOf(q, sha) == q.requestDigest, FIELDS_INVALID)
  }

  const REQUEST_FIELDS := {Name.SchemaVersion, Name.InteractionId, Name.LogicalCycle, Name.OperationId,
                           Name.ToolCallId, Name.RequestDigest, Name.Prompt}

  function RequestFromValue(v: WireValue, sha: Digest): Result<HostRequest> {
    var m :- ObjectOf(v, FIELDS_INVALID);
    var _ :- ExactFields(m, REQUEST_FIELDS, FIELDS_INVALID);
    var prompt :- RequiredString(m, Name.Prompt, FIELDS_INVALID);
    var schemaVersion :- RequiredString(m, Name.SchemaVersion, FIELDS_INVALID);
    var interactionId :- IdentityField(m, Name.InteractionId, FIELDS_INVALID);
    var logicalCycle :- RequiredInteger(m, Name.LogicalCycle, true);
    var operationId :- IdentityField(m, Name.OperationId, FIELDS_INVALID);
    var toolCallId :- IdentityField(m, Name.ToolCallId, FIELDS_INVALID);
    var requestDigest :- RequiredDigest(m, Name.RequestDigest);
    var q := HostRequest(schemaVersion, interactionId, logicalCycle, operationId, toolCallId, requestDigest, prompt);
    var _ :- ValidateRequest(q, sha);
    Ok(q)
  }

  lemma RequestExact(v: WireValue, sha: Digest)
    ensures var r := RequestFromValue(v, sha); r.Ok? ==> ValidateRequest(r.value, sha).Ok? && RequestToValue(r.value) == v
  {
    hide NonBlank, Utf8Len, IsSha256;
  }

  lemma RequestRoundTrip(q: HostRequest, sha: Digest)
    ensures RequestFromValue(RequestToValue(q), sha) == Ok(q) <==> ValidateRequest(q, sha).Ok?
  {
    hide NonBlank, Utf8Len, IsSha256, RequiredDigest;
    DigestFieldIff(RequestToValue(q).fields, Name.RequestDigest);
  }

  /** What the digest of a request covers: all of it but the digest itself. */
  function RequestBody(q: HostRequest): WireValue {
    Object(RequestToValue(q).fields - {Name.RequestDigest})
  }

  lemma BodyIgnoresDigest(q: HostRequest, d: string)
    ensures RequestBody(q.(requestDigest := d)) == RequestBody(q)
  {
  }

  lemma BodyDeterminesRequest(q: HostRequest, p: HostRequest)
    requires RequestBody(q) == RequestBody(p)
    ensures p == q.(requestDigest := p.requestDigest)
  {
    var m, n := RequestBody(q).fields, RequestBody(p).fields;
    assert m[Name.SchemaVersion] == n[Name.SchemaVersion] && m[Name.InteractionId] == n[Name.InteractionId];
    assert m[Name.LogicalCycle] == n[Name.LogicalCycle] && m[Name.OperationId] == n[Name.OperationId];
    assert m[Name.ToolCallId] == n[Name.ToolCallId] && m[Name.Prompt] == n[Name.Prompt];
  }

  /** The two values have different digests unless they are the same value. */
  predicate NoCollision(sha: Digest, a: WireValue, b: WireValue) {
    sha(a) == sha(b) ==> a == b
  }

  /** Valid requests with the same digest are the same request. */
  lemma RequestDigestIdentifies(q: HostRequest, p: HostRequest, sha: Digest)
    requires ValidateRequest(q, sha).Ok? && ValidateRequest(p, sha).Ok?
    requires NoCollision(sha, RequestBody(q), RequestBody(p))
    ensures q.requestDigest == p.requestDigest <==> q == p
  {
    hide NonBlank, Utf8Len, IsSha256;
    if q.requestDigest == p.requestDigest {
      BodyDeterminesRequest(q, p);
    }
  }

  function NewRequest(interactionId: string, logicalCycle: nat, operationId: string, toolCallId: string,
                      prompt: string, sha: Digest): Result<HostRequest> {
    if logicalCycle > MAX_WIRE_INTEGER then Err(NOT_I_JSON)
    else
      var blank := HostRequest(REQUEST_SCHEMA, interactionId, logicalCycle, operationId, toolCallId, "", prompt);
      var q := blank.(requestDigest := RequestDigestOf(blank, sha));
      var _ :- ValidateRequest(q, sha);
      Ok(q)
  }

  /** The constructor succeeds on all fields within their bounds, and what it makes can be sent. */
  lemma NewRequestIff(interactionId: string, logicalCycle: nat, operationId: string, toolCallId: string,
                      prompt: string, sha: Digest)
    requires IsHex(sha)
    ensures var r := NewRequest(interactionId, logicalCycle, operationId, toolCallId, prompt, sha);
            && (r.Ok? <==> IsIdentity(interactionId) && IsIdentity(operationId) && IsIdentity(toolCallId)
                           && IntegerFits(logicalCycle, true) && IsContent(prompt))
            && (r.Ok? ==> RequestFromValue(RequestToValue(r.value), sha) == r)
  {
    hide NonBlank, Utf8Len, IsSha256, RequestFromValue;
    var blank := HostRequest(REQUEST_SCHEMA, interactionId, logicalCycle, operationId, toolCallId, "", prompt);
    var q := blank.(requestDigest := RequestDigestOf(blank, sha));
    BodyIgnoresDigest(blank, q.requestDigest);
    assert RequestDigestOf(q, sha) == q.requestDigest;
    RequestRoundTrip(q, sha);
  }

  /**
   Why a request is refused: everything but an overlong prompt carries the code of invalid
   fields, and an overlong prompt has its own code unless an earlier check failed.
   */
  lemma RequestRefusals(q: HostRequest, sha: Digest)
    ensures var r := ValidateRequest(q, sha);
            r.Err? ==>
              r.error == if && q.schemaVersion == "vv-agent.host-interaction-request.v1" && IsIdentity(q.interactionId)
                            && IsIdentity(q.operationId) && IsIdentity(q.toolCallId)
                            && 0 < q.logicalCycle <= MAX_WIRE_INTEGER && NonBlank(q.prompt) && Utf8Len(q.prompt) > 65_536
                         then "host_interaction_content_too_large" else "host_interaction_fields_invalid"
  {
    hide IsIdentity, NonBlank, Utf8Len, IsSha256;
  }

  // ---- Message ------------------------------------------------------------------------

  datatype HostMessage = HostMessage(role: string, content: string)

  const USER := "user"

  function ValidateMessage(msg: HostMessage): Result<()> {
    var _ :- Check(msg.role == USER, RESPONSE_MISSING);
    var _ :- Check(NonBlank(msg.content), RESPONSE_MISSING);
    Check(Utf8Len(msg.content) <= CONTENT_BYTES, CONTENT_TOO_LARGE)
  }

  function MessageToValue(msg: HostMessage): WireValue {
    Object(map[Name.Role := Text(msg.role), Name.Content := Text(msg.content)])
  }

  function MessageFromValue(v: WireValue): Result<HostMessage> {
    var m :- ObjectOf(v, RESPONSE_MISSING);
    var _ :- ExactFields(m, {Name.Role, Name.Content}, FIELDS_INVALID);
    var role :- RequiredString(m, Name.Role, RESPONSE_MISSING);
    var content :- RequiredString(m, Name.Content, RESPONSE_MISSING);
    var msg := HostMessage(role, content);
    var _ :- ValidateMessage(msg);
    Ok(msg)
  }

  /** What a valid message is, and why another is refused. */
  lemma MessageRefusals(msg: HostMessage)
    ensures var r := ValidateMessage(msg);
            if msg.role == "user" && NonBlank(msg.content) then
              if Utf8Len(msg.content) <= 65_536 then r.Ok? else r == Err("host_interaction_content_too_large")
            else r == Err("host_interaction_response_missing")
  {
    hide NonBlank, Utf8Len;
  }

  lemma MessageExact(v: WireValue)
    ensures var r := MessageFromValue(v); r.Ok? ==> ValidateMessage(r.value).Ok? && MessageToValue(r.value) == v
  {
    hide NonBlank, Utf8Len;
  }

  lemma MessageRoundTrip(msg: HostMessage)
    ensures MessageFromValue(MessageToValue(msg)) == Ok(msg) <==> ValidateMessage(msg).Ok?
  {
    hide NonBlank, Utf8Len;
  }

  // ---- Response -----------------------------------------------------------------------

  datatype HostResponse = HostResponse(
    schemaVersion: string, interactionId: string, logicalCycle: nat, operationId: string,
    toolCallId: string, requestDigest: string, commandId: string, response: HostMessage, responseDigest: string)

  function ResponseToValue(p: HostResponse): WireValue {
    Object(map[Name.SchemaVersion := Text(p.schemaVersion), Name.InteractionId := Text(p.interactionId),
               Name.LogicalCycle := Integer(p.logicalCycle), Name.OperationId := Text(p.operationId),
               Name.ToolCallId := Text(p.toolCallId), Name.RequestDigest := Text(p.requestDigest),
               Name.CommandId := Text(p.commandId), Name.Response := MessageToValue(p.response),
               Name.ResponseDigest := Text(p.responseDigest)])
  }

  function ResponseBody(p: HostResponse): WireValue {
    Object(ResponseToValue(p).fields - {Name.ResponseDigest})
  }

  function ResponseDigestOf(p: HostResponse, sha: Digest): string {
    DigestWithout(ResponseToValue(p).fields, Name.ResponseDigest, sha)
  }

  function ValidateResponse(p: HostResponse, sha: Digest): Result<()> {
    var _ :- Check(p.schemaVersion == RESPONSE_SCHEMA, FIELDS_INVALID);
    var _ :- Check(IsIdentity(p.interactionId) && IsIdentity(p.operationId) && IsIdentity(p.toolCallId) && IsIdentity(p.commandId),
                   FIELDS_INVALID);
    var _ :- Check(IntegerFits(p.logicalCycle, true), FIELDS_INVALID);
    var _ :- Check(IsSha256(p.requestDigest), FIELDS_INVALID);
    var _ :- Check(IsSha256(p.responseDigest), FIELDS_INVALID);
    var _ :- ValidateMessage(p.response);
    Check(ResponseDigestOf(p, sha) == p.responseDigest, FIELDS_INVALID)
  }

  const RESPONSE_FIELDS := {Name.SchemaVersion, Name.InteractionId, Name.LogicalCycle, Name.OperationId, Name.ToolCallId,
                            Name.RequestDigest, Name.CommandId, Name.Response, Name.ResponseDigest}

  function ResponseFromValue(v: WireValue, sha: Digest): Result<HostResponse> {
    var m :- ObjectOf(v, FIELDS_INVALID);
    var _ :- ExactFields(m, RESPONSE_FIELDS, FIELDS_INVALID);
    var message :- MessageFromValue(m[Name.Response]);
    var schemaVersion :- RequiredString(m, Name.SchemaVersion, FIELDS_INVALID);
    var interactionId :- IdentityField(m, Name.InteractionId, FIELDS_INVALID);
    var logicalCycle :- RequiredInteger(m, Name.LogicalCycle, true);
    var operationId :- IdentityField(m, Name.OperationId, FIELDS_INVALID);
    var toolCallId :- IdentityField(m, Name.ToolCallId, FIELDS_INVALID);
    var requestDigest :- RequiredDigest(m, Name.RequestDigest);
    var commandId :- IdentityField(m, Name.CommandId, FIELDS_INVALID);
    var responseDigest :- RequiredDigest(m, Name.ResponseDigest);
    var p := HostResponse(schemaVersion, interactionId, logicalCycle, operationId, toolCallId, requestDigest,
                          commandId, message, responseDigest);
    var _ :- ValidateResponse(p, sha);
    Ok(p)
  }

  lemma ResponseExact(v: WireValue, sha: Digest)
    ensures var r := ResponseFromValue(v, sha); r.Ok? ==> ValidateResponse(r.value, sha).Ok? && ResponseToValue(r.value) == v
  {
    hide NonBlank, Utf8Len, IsSha256, MessageFromValue, MessageToValue, ValidateMessage, ValidateResponse;
    if ResponseFromValue(v, sha).Ok? {
      MessageExact(v.fields[Name.Response]);
    }
  }

  lemma ResponseRoundTrip(p: HostResponse, sha: Digest)
    ensures ResponseFromValue(ResponseToValue(p), sha) == Ok(p) <==> ValidateResponse(p, sha).Ok?
  {
    hide NonBlank, Utf8Len, IsSha256, MessageFromValue, MessageToValue, ValidateMessage, RequiredDigest;
    MessageRoundTrip(p.response);
    DigestFieldIff(ResponseToValue(p).fields, Name.RequestDigest);
    DigestFieldIff(ResponseToValue(p).fields, Name.ResponseDigest);
  }

  lemma ResponseBodyIgnoresDigest(p: HostResponse, d: string)
    ensures ResponseBody(p.(responseDigest := d)) == ResponseBody(p)
  {
  }

  /** A response with its digest filled in. */
  function Sealed(p: HostResponse, sha: Digest): HostResponse {
    p.(responseDigest := ResponseDigestOf(p, sha))
  }

  function NewResponse(interactionId: string, logicalCycle: nat, operationId: string, toolCallId: string,
                       requestDigest: string, commandId: string, message: HostMessage, sha: Digest): Result<HostResponse> {
    var _ :- ValidateMessage(message);
    if logicalCycle > MAX_WIRE_INTEGER then Err(NOT_I_JSON)
    else
      var p := Sealed(HostResponse(RESPONSE_SCHEMA, interactionId, logicalCycle, operationId, toolCallId, requestDigest,
                                   commandId, HostMessage(USER, message.content), ""), sha);
      var _ :- ValidateResponse(p, sha);
      Ok(p)
  }

  /** The constructor succeeds on all fields within their bounds; the message is kept as given. */
  lemma NewResponseIff(interactionId: string, logicalCycle: nat, operationId: string, toolCallId: string,
                       requestDigest: string, commandId: string, message: HostMessage, sha: Digest)
    requires IsHex(sha)
    ensures var r := NewResponse(interactionId, logicalCycle, operationId, toolCallId, requestDigest, commandId, message, sha);
            && (r.Ok? <==> IsIdentity(interactionId) && IsIdentity(operationId) && IsIdentity(toolCallId) && IsIdentity(commandId)
                           && IntegerFits(logicalCycle, true) && IsSha256(requestDigest)
                           && message.role == USER && IsContent(message.content))
            && (r.Ok? ==> r.value.response == message && ResponseFromValue(ResponseToValue(r.value), sha) == r)
  {
    hide NonBlank, Utf8Len, IsSha256, ResponseFromValue;
    var blank := HostResponse(RESPONSE_SCHEMA, interactionId, logicalCycle, operationId, toolCallId, requestDigest,
                              commandId, HostMessage(USER, message.content), "");
    ResponseBodyIgnoresDigest(blank, ResponseDigestOf(blank, sha));
    ResponseRoundTrip(Sealed(blank, sha), sha);
  }

  /** A value that is not an object, or misses a field, or has one too many, is refused with the code of its codec. */
  lemma HostShapeRefusals(v: WireValue, sha: Digest)
    ensures !v.Object? || v.fields.Keys != {Name.CheckpointKey, Name.RunId, Name.TraceId} ==>
              HandleFromValue(v) == Err("controller_command_invalid_state")
    ensures !v.Object? || v.fields.Keys != REQUEST_FIELDS ==> RequestFromValue(v, sha) == Err("host_interaction_fields_invalid")
    ensures !v.Object? ==> MessageFromValue(v) == Err("host_interaction_response_missing")
    ensures v.Object? && v.fields.Keys != {Name.Role, Name.Content} ==> MessageFromValue(v) == Err("host_interaction_fields_invalid")
    ensures !v.Object? || v.fields.Keys != RESPONSE_FIELDS ==> ResponseFromValue(v, sha) == Err("host_interaction_fields_invalid")
  {
  }

  /** Why a response is refused: its fields, or the message it carries. */
  lemma ResponseRefusals(p: HostResponse, sha: Digest)
    ensures var r := ValidateResponse(p, sha);
            r.Err? ==>
              r.error == if && p.schemaVersion == "vv-agent.host-interaction-response.v1" && IsIdentity(p.interactionId)
                            && IsIdentity(p.operationId) && IsIdentity(p.toolCallId) && IsIdentity(p.commandId)
                            && 0 < p.logicalCycle <= MAX_WIRE_INTEGER && IsSha256(p.requestDigest) && IsSha256(p.responseDigest)
                            && ValidateMessage(p.response).Err?
                         then ValidateMessage(p.response).error else "host_interaction_fields_invalid"
  {
    hide IsIdentity, IsSha256, ValidateMessage;
  }
}

/** The durable record of one host interaction (checkpoint/controller_command.rs, controller_recovery.rs). */
module HostRecords {
  import opened Common
  import opened Json
  import opened Unicode
  import opened ControllerWire
  import opened HostInteraction

  const RECORD_SCHEMA := "vv-agent.host-interaction-record.v1"

  const ACTIVE := "active"
  const RESOLVED_PENDING := "resolved_pending"
  const RESOLVED_CLAIMED := "resolved_claimed"
  const CONSUMED := "consumed"

  datatype HostRecord = HostRecord(
    schemaVersion: string, recordId: string, checkpointKey: string, interactionId: string, logicalCycle: nat,
    attempt: nat, claimToken: Option<string>, leaseExpiresAtMs: Option<nat>, request: HostRequest,
    requestDigest: string, state: string, response: Option<HostResponse>, responseDigest: Option<string>,
    commandId: Option<string>, resolvedRevision: Option<nat>, consumedRevision: Option<nat>, lastError: Option<string>)

  /** What the id of a record covers. */
  function RecordIdentity(checkpointKey: string, q: HostRequest): WireValue {
    Object(map[Name.SchemaVersion := Text(RECORD_SCHEMA), Name.CheckpointKey := Text(checkpointKey),
               Name.InteractionId := Text(q.interactionId), Name.LogicalCycle := Integer(q.logicalCycle),
               Name.RequestDigest := Text(q.requestDigest)])
  }

  function RecordIdFor(checkpointKey: string, q: HostRequest, sha: Digest): string {
    sha(RecordIdentity(checkpointKey, q))
  }

  predicate HasResponse(r: HostRecord) {
    r.response.Some? && r.responseDigest.Some? && r.commandId.Some? && r.resolvedRevision.Some?
  }

  predicate HasNoClaim(r: HostRecord) {
    r.claimToken.None? && r.leaseExpiresAtMs.None?
  }

  /** Which optional fields each state carries; there are no other states. */
  predicate StateIsComplete(r: HostRecord) {
    if r.state == ACTIVE then
      && r.response.None? && r.responseDigest.None? && r.commandId.None? && r.resolvedRevision.None?
      && r.consumedRevision.None? && HasNoClaim(r)
    else if r.state == RESOLVED_PENDING then HasResponse(r) && r.consumedRevision.None? && HasNoClaim(r)
    else if r.state == RESOLVED_CLAIMED then
      HasResponse(r) && r.consumedRevision.None? && r.claimToken.Some? && r.leaseExpiresAtMs.Some?
    else if r.state == CONSUMED then HasResponse(r) && r.consumedRevision.Some? && HasNoClaim(r)
    else false
  }

  predicate ResponseMatches(r: HostRecord, p: HostResponse) {
    && p.interactionId == r.interactionId && p.logicalCycle == r.logicalCycle && p.requestDigest == r.requestDigest
    && r.responseDigest == Some(p.responseDigest) && r.commandId == Some(p.commandId)
  }

  function ValidateRecordResponse(r: HostRecord, sha: Digest): Result<()> {
    if r.response.None? then Ok(())
    else
      var _ :- ValidateResponse(r.response.value, sha);
      Check(ResponseMatches(r, r.response.value), FIELDS_INVALID)
  }

  function ValidateRecord(r: HostRecord, sha: Digest): Result<()> {
    var _ :- Check(r.schemaVersion == RECORD_SCHEMA, FIELDS_INVALID);
    var _ :- Check(IsIdentity(r.recordId) && IsIdentity(r.checkpointKey), FIELDS_INVALID);
    var _ :- Check(r.logicalCycle != 0 && r.attempt <= MAX_WIRE_INTEGER, FIELDS_INVALID);
    var _ :- ValidateRequest(r.request, sha);
    var _ :- Check(r.recordId == RecordIdFor(r.checkpointKey, r.request, sha), FIELDS_INVALID);
    var _ :- Check(&& r.request.interactionId == r.interactionId && r.request.logicalCycle == r.logicalCycle
                   && r.requestDigest == r.request.requestDigest, FIELDS_INVALID);
    var _ :- Check(IsSha256(r.requestDigest), FIELDS_INVALID);
    var _ :- Check(StateIsComplete(r), FIELDS_INVALID);
    var _ :- ValidateRecordResponse(r, sha);
    var _ :- Check(&& r.claimToken != Some("")
                   && (r.leaseExpiresAtMs.Some? ==> r.leaseExpiresAtMs.value <= MAX_WIRE_INTEGER), FIELDS_INVALID);
    Check(r.claimToken.Some? <==> r.leaseExpiresAtMs.Some?, FIELDS_INVALID)
  }

  function ResponseOrNull(p: Option<HostResponse>): WireValue {
    if p.Some? then ResponseToValue(p.value) else Null
  }

  const RECORD_FIELDS := {Name.SchemaVersion, Name.RecordId, Name.CheckpointKey, Name.InteractionId, Name.LogicalCycle,
                          Name.Request, Name.RequestDigest, Name.State, Name.Attempt, Name.ClaimToken,
                          Name.LeaseExpiresAtMs, Name.Response, Name.ResponseDigest, Name.CommandId,
                          Name.ResolvedRevision, Name.ConsumedRevision}

  function RequiredPart(r: HostRecord): Fields {
    map[Name.SchemaVersion := Text(r.schemaVersion), Name.RecordId := Text(r.recordId),
        Name.CheckpointKey := Text(r.checkpointKey), Name.InteractionId := Text(r.interactionId),
        Name.LogicalCycle := Integer(r.logicalCycle), Name.Request := RequestToValue(r.request),
        Name.RequestDigest := Text(r.requestDigest), Name.State := Text(r.state), Name.Attempt := Integer(r.attempt),
        Name.ClaimToken := OptionalText(r.claimToken), Name.LeaseExpiresAtMs := OptionalNumber(r.leaseExpiresAtMs),
        Name.Response := ResponseOrNull(r.response), Name.ResponseDigest := OptionalText(r.responseDigest),
        Name.CommandId := OptionalText(r.commandId), Name.ResolvedRevision := OptionalNumber(r.resolvedRevision),
        Name.ConsumedRevision := OptionalNumber(r.consumedRevision)]
  }

  /** Only the last error is left out when there is none; the other fields are written as null. */
  function RecordToValue(r: HostRecord): WireValue {
    Object(if r.lastError.Some? then RequiredPart(r)[Name.LastError := Text(r.lastError.value)] else RequiredPart(r))
  }

  function OptionalResponse(v: WireValue, sha: Digest): Result<Option<HostResponse>> {
    if v.Null? then Ok(None)
    else
      var p :- ResponseFromValue(v, sha);
      Ok(Some(p))
  }

  function ReadRecord(m: Fields, sha: Digest): Result<HostRecord>
    requires RECORD_FIELDS <= m.Keys
  {
    var schemaVersion :- RequiredString(m, Name.SchemaVersion, FIELDS_INVALID);
    var recordId :- IdentityField(m, Name.RecordId, FIELDS_INVALID);
    var checkpointKey :- IdentityField(m, Name.CheckpointKey, FIELDS_INVALID);
    var interactionId :- IdentityField(m, Name.InteractionId, FIELDS_INVALID);
    var logicalCycle :- RequiredInteger(m, Name.LogicalCycle, true);
    var attempt :- RequiredInteger(m, Name.Attempt, false);
    var claimToken :- OptionalString(m, Name.ClaimToken, IDENTITY_BYTES, FIELDS_INVALID);
    var leaseExpiresAtMs :- OptionalInteger(m, Name.LeaseExpiresAtMs, FIELDS_INVALID);
    var request :- RequestFromValue(m[Name.Request], sha);
    var requestDigest :- RequiredDigest(m, Name.RequestDigest);
    var state :- RequiredString(m, Name.State, FIELDS_INVALID);
    var response :- OptionalResponse(m[Name.Response], sha);
    var responseDigest :- OptionalString(m, Name.ResponseDigest, 64, FIELDS_INVALID);
    var commandId :- OptionalString(m, Name.CommandId, IDENTITY_BYTES, FIELDS_INVALID);
    var resolvedRevision :- OptionalInteger(m, Name.ResolvedRevision, FIELDS_INVALID);
    var consumedRevision :- OptionalInteger(m, Name.ConsumedRevision, FIELDS_INVALID);
    var lastError :- OptionalString(m, Name.LastError, CONTENT_BYTES, FIELDS_INVALID);
    Ok(HostRecord(schemaVersion, recordId, checkpointKey, interactionId, logicalCycle, attempt, claimToken,
                  leaseExpiresAtMs, request, requestDigest, state, response, responseDigest, commandId,
                  resolvedRevision, consumedRevision, lastError))
  }

  function RecordFromValue(v: WireValue, sha: Digest): Result<HostRecord> {
    var m :- ObjectOf(v, FIELDS_INVALID);
    var _ :- FieldsWithOptional(m, RECORD_FIELDS, {Name.LastError}, FIELDS_INVALID);
    var r :- ReadRecord(m, sha);
    var _ :- ValidateRecord(r, sha);
    Ok(r)
  }

  // ---- Exactness ----------------------------------------------------------------------

  lemma OptionalResponseExact(v: WireValue, sha: Digest)
    ensures var p := OptionalResponse(v, sha); p.Ok? ==> ResponseOrNull(p.value) == v
  {
    hide ResponseFromValue, ResponseToValue;
    ResponseExact(v, sha);
  }

  lemma OptionalResponseRoundTrip(p: Option<HostResponse>, sha: Digest)
    ensures OptionalResponse(ResponseOrNull(p), sha) == Ok(p) <==> (p.Some? ==> ValidateResponse(p.value, sha).Ok?)
  {
    hide ResponseFromValue, ValidateResponse;
    if p.Some? { ResponseRoundTrip(p.value, sha); }
  }

  /** Every required field of `m` says what the record says. */
  predicate Says(m: Fields, r: HostRecord)
    requires RECORD_FIELDS <= m.Keys
  {
    && m[Name.SchemaVersion] == Text(r.schemaVersion) && m[Name.RecordId] == Text(r.recordId)
    && m[Name.CheckpointKey] == Text(r.checkpointKey) && m[Name.InteractionId] == Text(r.interactionId)
    && m[Name.LogicalCycle] == Integer(r.logicalCycle) && m[Name.Request] == RequestToValue(r.request)
    && m[Name.RequestDigest] == Text(r.requestDigest) && m[Name.State] == Text(r.state) && m[Name.Attempt] == Integer(r.attempt)
    && m[Name.ClaimToken] == OptionalText(r.claimToken) && m[Name.LeaseExpiresAtMs] == OptionalNumber(r.leaseExpiresAtMs)
    && m[Name.Response] == ResponseOrNull(r.response) && m[Name.ResponseDigest] == OptionalText(r.responseDigest)
    && m[Name.CommandId] == OptionalText(r.commandId) && m[Name.ResolvedRevision] == OptionalNumber(r.resolvedRevision)
    && m[Name.ConsumedRevision] == OptionalNumber(r.consumedRevision)
  }

  function LastErrorOf(m: Fields): Option<string> {
    if Name.LastError in m && m[Name.LastError].Text? then Some(m[Name.LastError].s) else None
  }

  lemma ReadSays(m: Fields, sha: Digest)
    requires RECORD_FIELDS <= m.Keys && ReadRecord(m, sha).Ok?
    ensures Says(m, ReadRecord(m, sha).value) && ReadRecord(m, sha).value.lastError == LastErrorOf(m)
    ensures Name.LastError in m ==> m[Name.LastError].Text? || m[Name.LastError].Null?
  {
    hide NonBlank, Utf8Len, IsSha256, RequestFromValue, RequestToValue, OptionalResponse, ResponseOrNull, RequiredDigest;
    RequestExact(m[Name.Request], sha);
    OptionalResponseExact(m[Name.Response], sha);
    DigestFieldIff(m, Name.RequestDigest);
  }

  lemma RequiredPartKeys(r: HostRecord)
    ensures RequiredPart(r).Keys == RECORD_FIELDS
  {
    hide RequestToValue, ResponseOrNull, OptionalText, OptionalNumber;
  }

  lemma RequiredPartSays(r: HostRecord)
    ensures RequiredPart(r).Keys == RECORD_FIELDS && Says(RequiredPart(r), r)
  {
    hide RequestToValue, ResponseOrNull, OptionalText, OptionalNumber;
    RequiredPartKeys(r);
  }

  lemma SaysDetermines(m: Fields, n: Fields, r: HostRecord)
    requires m.Keys == RECORD_FIELDS == n.Keys && Says(m, r) && Says(n, r)
    ensures m == n
  {
    hide RequestToValue, ResponseOrNull;
    forall f | f in m ensures m[f] == n[f] {
      assert f in RECORD_FIELDS;
    }
  }

  /**
   Printing what was read gives the same value back, except that an explicit null last error
   is dropped: that is the only other spelling the reader accepts.
   */
  lemma RecordExactIff(v: WireValue, sha: Digest)
    ensures var r := RecordFromValue(v, sha);
            r.Ok? ==> && ValidateRecord(r.value, sha).Ok?
                      && (RecordToValue(r.value) == v <==> !(Name.LastError in v.fields && v.fields[Name.LastError].Null?))
  {
    hide ReadRecord, ValidateRecord, RequiredPart, Says;
    if RecordFromValue(v, sha).Ok? {
      var m, r := v.fields, RecordFromValue(v, sha).value;
      ReadSays(m, sha);
      RequiredPartSays(r);
      var bare := m - {Name.LastError};
      assert bare.Keys == RECORD_FIELDS;
      SaysIgnoresLastError(m, r);
      SaysDetermines(bare, RequiredPart(r), r);
      if Name.LastError in m {
        assert m == bare[Name.LastError := m[Name.LastError]];
      } else {
        assert m == bare;
      }
    }
  }

  lemma SaysIgnoresLastError(m: Fields, r: HostRecord)
    requires RECORD_FIELDS <= m.Keys
    ensures RECORD_FIELDS <= (m - {Name.LastError}).Keys && (Says(m - {Name.LastError}, r) <==> Says(m, r))
  {
    hide RequestToValue, ResponseOrNull;
  }

  /** The bounds that the reader checks and the validator does not. */
  predicate Storable(r: HostRecord) {
    && (r.claimToken.Some? ==> Utf8Len(r.claimToken.value) <= IDENTITY_BYTES)
    && (r.resolvedRevision.Some? ==> r.resolvedRevision.value <= MAX_WIRE_INTEGER)
    && (r.consumedRevision.Some? ==> r.consumedRevision.value <= MAX_WIRE_INTEGER)
    && (r.lastError.Some? ==> Utf8Len(r.lastError.value) <= CONTENT_BYTES)
  }

  /** The bounds that both check. */
  predicate Bounded(r: HostRecord) {
    && IsIdentity(r.recordId) && IsIdentity(r.checkpointKey) && IsIdentity(r.interactionId)
    && IntegerFits(r.logicalCycle, true) && IntegerFits(r.attempt, false)
    && (r.leaseExpiresAtMs.Some? ==> r.leaseExpiresAtMs.value <= MAX_WIRE_INTEGER)
    && IsSha256(r.requestDigest)
    && (r.responseDigest.Some? ==> Utf8Len(r.responseDigest.value) <= 64)
    && (r.commandId.Some? ==> Utf8Len(r.commandId.value) <= IDENTITY_BYTES)
  }

  lemma ValidIsBounded(r: HostRecord, sha: Digest)
    requires ValidateRecord(r, sha).Ok?
    ensures Bounded(r) && ValidateRequest(r.request, sha).Ok?
    ensures r.response.Some? ==> ValidateResponse(r.response.value, sha).Ok?
  {
    hide NonBlank, Utf8Len, IsSha256;
    if r.response.Some? {
      DigestsAreIdentities(r.response.value.responseDigest);
    }
  }

  /** No last error may be said by leaving the field out or by null. */
  predicate LastErrorSays(m: Fields, s: Option<string>) {
    if s.Some? then Name.LastError in m && m[Name.LastError] == Text(s.value)
    else Name.LastError !in m || m[Name.LastError].Null?
  }

  /** A reader sees the record that the fields say, exactly when it is within the bounds. */
  lemma SaidIsRead(m: Fields, r: HostRecord, sha: Digest)
    requires RECORD_FIELDS <= m.Keys && Says(m, r)
    requires LastErrorSays(m, r.lastError)
    requires ValidateRequest(r.request, sha).Ok? && (r.response.Some? ==> ValidateResponse(r.response.value, sha).Ok?)
    requires Bounded(r)
    ensures ReadRecord(m, sha) == Ok(r) <==> Storable(r)
  {
    hide NonBlank, Utf8Len, IsSha256, RequestFromValue, RequestToValue, OptionalResponse, ResponseOrNull, RequiredDigest,
         ValidateRequest, ValidateResponse, OptionalString, OptionalInteger, OptionalText, OptionalNumber;
    OptionalTextIsRead(m, Name.ClaimToken, r.claimToken, IDENTITY_BYTES, FIELDS_INVALID);
    OptionalTextIsRead(m, Name.ResponseDigest, r.responseDigest, 64, FIELDS_INVALID);
    OptionalTextIsRead(m, Name.CommandId, r.commandId, IDENTITY_BYTES, FIELDS_INVALID);
    OptionalNumberIsRead(m, Name.LeaseExpiresAtMs, r.leaseExpiresAtMs, FIELDS_INVALID);
    OptionalNumberIsRead(m, Name.ResolvedRevision, r.resolvedRevision, FIELDS_INVALID);
    OptionalNumberIsRead(m, Name.ConsumedRevision, r.consumedRevision, FIELDS_INVALID);
    LastErrorIsRead(m, r.lastError);
    RequestRoundTrip(r.request, sha);
    OptionalResponseRoundTrip(r.response, sha);
    DigestFieldIff(m, Name.RequestDigest);
  }

  lemma LastErrorIsRead(m: Fields, s: Option<string>)
    requires LastErrorSays(m, s)
    ensures OptionalString(m, Name.LastError, CONTENT_BYTES, FIELDS_INVALID)
            == if s.Some? && Utf8Len(s.value) > CONTENT_BYTES then Err(FIELDS_INVALID) else Ok(s)
  {
  }

  /** A valid record can be written and read back exactly when it is within the reader's own bounds. */
  lemma RecordRoundTrip(r: HostRecord, sha: Digest)
    ensures RecordFromValue(RecordToValue(r), sha) == Ok(r) <==> ValidateRecord(r, sha).Ok? && Storable(r)
  {
    hide ReadRecord, ValidateRecord, ValidateRequest, ValidateResponse, RequiredPart, Says, Bounded, Storable;
    RequiredPartSays(r);
    var m := RecordToValue(r).fields;
    assert r.lastError.Some? ==> m - {Name.LastError} == RequiredPart(r);
    SaysIgnoresLastError(m, r);
    if ValidateRecord(r, sha).Ok? {
      ValidIsBounded(r, sha);
      SaidIsRead(m, r, sha);
    }
  }

  /** Reading is stable: what was read can be written and read again, with the same result. */
  lemma RecordStable(v: WireValue, sha: Digest)
    ensures var r := RecordFromValue(v, sha); r.Ok? ==> RecordFromValue(RecordToValue(r.value), sha) == r
  {
    hide ReadRecord, ValidateRecord, RecordToValue;
    var r := RecordFromValue(v, sha);
    if r.Ok? {
      RecordRoundTrip(r.value, sha);
      ReadIsStorable(v.fields, sha);
    }
  }

  lemma ReadIsStorable(m: Fields, sha: Digest)
    requires RECORD_FIELDS <= m.Keys && ReadRecord(m, sha).Ok?
    ensures Storable(ReadRecord(m, sha).value)
  {
    hide NonBlank, Utf8Len, IsSha256, RequestFromValue, OptionalResponse, RequiredDigest;
  }

  // ---- Valid records ----------------------------------------------------------------------

  function ActiveRecord(checkpointKey: string, q: HostRequest, attempt: nat, sha: Digest): HostRecord {
    HostRecord(RECORD_SCHEMA, RecordIdFor(checkpointKey, q, sha), checkpointKey, q.interactionId, q.logicalCycle, attempt,
               None, None, q, q.requestDigest, ACTIVE, None, None, None, None, None, None)
  }

  /** The record resolved by a response, waiting for a worker. */
  function Resolved(r: HostRecord, p: HostResponse, revision: nat): HostRecord {
    r.(state := RESOLVED_PENDING, response := Some(p), responseDigest := Some(p.responseDigest),
       commandId := Some(p.commandId), resolvedRevision := Some(revision))
  }

  lemma ActiveRecordIsValidIff(checkpointKey: string, q: HostRequest, attempt: nat, sha: Digest)
    requires IsHex(sha)
    ensures ValidateRecord(ActiveRecord(checkpointKey, q, attempt, sha), sha).Ok? <==>
            ValidateRequest(q, sha).Ok? && IsIdentity(checkpointKey) && attempt <= MAX_WIRE_INTEGER
  {
    hide NonBlank, Utf8Len, IsSha256;
    var id := RecordIdFor(checkpointKey, q, sha);
    assert IsSha256(id);
    DigestsAreIdentities(id);
  }

  /** A response resolves an active record exactly when it is valid and names its interaction, cycle and request. */
  lemma ResolvedRecordIsValidIff(r: HostRecord, p: HostResponse, revision: nat, sha: Digest)
    requires ValidateRecord(r, sha).Ok? && r.state == ACTIVE
    ensures ValidateRecord(Resolved(r, p, revision), sha).Ok? <==>
            && ValidateResponse(p, sha).Ok? && p.interactionId == r.interactionId
            && p.logicalCycle == r.logicalCycle && p.requestDigest == r.requestDigest
  {
    hide NonBlank, Utf8Len, IsSha256, ValidateRequest, ValidateResponse, RecordIdFor;
    assert ACTIVE[0] != RESOLVED_PENDING[0];
  }

  /** The record taken by a worker. */
  function Claimed(r: HostRecord, token: string, leaseExpiresAtMs: nat): HostRecord {
    r.(state := RESOLVED_CLAIMED, claimToken := Some(token), leaseExpiresAtMs := Some(leaseExpiresAtMs))
  }

  /** The validator asks of a claim only a non-empty token and a JSON-safe lease. */
  lemma ClaimedRecordIsValidIff(r: HostRecord, token: string, leaseExpiresAtMs: nat, sha: Digest)
    requires ValidateRecord(r, sha).Ok? && r.state == RESOLVED_PENDING
    ensures ValidateRecord(Claimed(r, token, leaseExpiresAtMs), sha).Ok? <==> token != "" && leaseExpiresAtMs <= MAX_WIRE_INTEGER
  {
    hide NonBlank, Utf8Len, IsSha256, ValidateRequest, ValidateResponse, RecordIdFor;
    assert RESOLVED_PENDING[9] != RESOLVED_CLAIMED[9];
    assert ACTIVE[0] != RESOLVED_CLAIMED[0];
    assert ACTIVE[0] != RESOLVED_PENDING[0];
  }

  /** The record done with, at a revision. */
  function Consumed(r: HostRecord, revision: Option<nat>): HostRecord {
    r.(state := CONSUMED, consumedRevision := revision)
  }

  function Unclaimed(r: HostRecord): HostRecord {
    r.(claimToken := None, leaseExpiresAtMs := None)
  }

  /** A resolved record, claimed or not, is consumed exactly by giving the revision and clearing the claim. */
  lemma ConsumedRecordIsValidIff(r: HostRecord, revision: Option<nat>, sha: Digest)
    requires ValidateRecord(r, sha).Ok? && (r.state == RESOLVED_PENDING || r.state == RESOLVED_CLAIMED)
    ensures ValidateRecord(Consumed(Unclaimed(r), revision), sha).Ok? <==> revision.Some?
    ensures ValidateRecord(Consumed(r, revision), sha).Ok? <==> revision.Some? && r.claimToken.None?
  {
    hide ValidateRequest, ValidateResponse, RecordIdFor;
    ValidRecordIff(r, sha);
    ValidRecordIff(Consumed(Unclaimed(r), revision), sha);
    ValidRecordIff(Consumed(r, revision), sha);
    StatesDiffer();
    hide ValidateRecord, IsIdentity, IsSha256;
  }

  lemma StatesDiffer()
    ensures ACTIVE != RESOLVED_PENDING && ACTIVE != RESOLVED_CLAIMED && ACTIVE != CONSUMED
    ensures RESOLVED_PENDING != RESOLVED_CLAIMED && RESOLVED_PENDING != CONSUMED && RESOLVED_CLAIMED != CONSUMED
  {
    assert ACTIVE[0] == 'a' && RESOLVED_PENDING[0] == 'r' && RESOLVED_CLAIMED[0] == 'r' && CONSUMED[0] == 'c';
    assert RESOLVED_PENDING[9] != RESOLVED_CLAIMED[9];
  }

  /** Which optional fields a record carries, field by field. */
  predicate CarriesWhatItsStateSays(r: HostRecord) {
    && (r.state == "active" || r.state == "resolved_pending" || r.state == "resolved_claimed" || r.state == "consumed")
    && (r.response.Some? <==> r.state != "active") && (r.responseDigest.Some? <==> r.state != "active")
    && (r.commandId.Some? <==> r.state != "active") && (r.resolvedRevision.Some? <==> r.state != "active")
    && (r.consumedRevision.Some? <==> r.state == "consumed")
    && (r.claimToken.Some? <==> r.state == "resolved_claimed") && (r.leaseExpiresAtMs.Some? <==> r.state == "resolved_claimed")
  }

  /** What a valid record is, field by field. */
  lemma ValidRecordIff(r: HostRecord, sha: Digest)
    ensures ValidateRecord(r, sha).Ok? <==>
            && r.schemaVersion == "vv-agent.host-interaction-record.v1"
            && IsIdentity(r.recordId) && IsIdentity(r.checkpointKey) && r.logicalCycle > 0 && r.attempt <= MAX_WIRE_INTEGER
            && ValidateRequest(r.request, sha).Ok?
            && r.recordId == sha(Object(map[Name.SchemaVersion := Text("vv-agent.host-interaction-record.v1"),
                                            Name.CheckpointKey := Text(r.checkpointKey), Name.InteractionId := Text(r.interactionId),
                                            Name.LogicalCycle := Integer(r.logicalCycle), Name.RequestDigest := Text(r.requestDigest)]))
            && r.interactionId == r.request.interactionId && r.logicalCycle == r.request.logicalCycle
            && r.requestDigest == r.request.requestDigest && IsSha256(r.requestDigest)
            && CarriesWhatItsStateSays(r)
            && (r.response.Some? ==>
                  && ValidateResponse(r.response.value, sha).Ok?
                  && r.response.value.interactionId == r.interactionId && r.response.value.logicalCycle == r.logicalCycle
                  && r.response.value.requestDigest == r.requestDigest
                  && r.responseDigest == Some(r.response.value.responseDigest) && r.commandId == Some(r.response.value.commandId))
            && (r.claimToken.Some? ==> r.claimToken.value != "")
            && (r.leaseExpiresAtMs.Some? ==> r.leaseExpiresAtMs.value <= MAX_WIRE_INTEGER)
  {
    hide IsIdentity, IsSha256, ValidateRequest, ValidateResponse;
    StateSays(r);
    hide StateIsComplete, CarriesWhatItsStateSays;
    StateSaysResponse(r);
  }

  lemma StateSays(r: HostRecord)
    ensures StateIsComplete(r) <==> CarriesWhatItsStateSays(r)
  {
    StatesDiffer();
  }

  lemma StateSaysResponse(r: HostRecord)
    ensures CarriesWhatItsStateSays(r) ==> (r.claimToken.Some? <==> r.leaseExpiresAtMs.Some?)
  {
  }

  lemma OneLetterIsIdentity(s: string)
    requires |s| == 1 && 'a' <= s[0] <= 'z'
    ensures IsIdentity(s) && IsContent(s)
  {
    hide Utf8Len;
    assert !IsWhitespace(s[0]);
    Utf8Bound(s);
  }

  /** For every digest there is a valid record, and a response that resolves it. */
  lemma RecordsExist(sha: Digest) returns (active: HostRecord, resolved: HostRecord)
    requires IsHex(sha)
    ensures ValidateRecord(active, sha).Ok? && active.state == ACTIVE && active.lastError.None?
    ensures ValidateRecord(resolved, sha).Ok? && resolved.state == RESOLVED_PENDING
  {
    hide IsIdentity, IsContent, IsSha256, ValidateRequest, ValidateResponse, ValidateRecord, RequestFromValue, ResponseFromValue;
    OneLetterIsIdentity("i");
    var message := HostMessage(USER, "i");
    NewRequestIff("i", 1, "i", "i", "i", sha);
    var q := NewRequest("i", 1, "i", "i", "i", sha).value;
    ValidRequestIsBounded(q, sha);
    NewResponseIff("i", 1, "i", "i", q.requestDigest, "i", message, sha);
    var p := NewResponse("i", 1, "i", "i", q.requestDigest, "i", message, sha).value;
    ActiveRecordIsValidIff("i", q, 0, sha);
    active := ActiveRecord("i", q, 0, sha);
    ResolvedRecordIsValidIff(active, p, 0, sha);
    resolved := Resolved(active, p, 0);
  }

  lemma ValidRequestIsBounded(q: HostRequest, sha: Digest)
    requires ValidateRequest(q, sha).Ok?
    ensures IsSha256(q.requestDigest)
  {
  }

  /** A claim token of 513 bytes is valid and is not read back. */
  lemma LongClaimTokenIsNotReadable(sha: Digest) returns (r: HostRecord)
    requires IsHex(sha)
    ensures ValidateRecord(r, sha).Ok? && RecordFromValue(RecordToValue(r), sha) != Ok(r)
  {
    hide IsSha256, ValidateRecord, RecordFromValue, RecordToValue, Utf8Len;
    var _, resolved := RecordsExist(sha);
    var token := seq(IDENTITY_BYTES + 1, _ => 'x');
    r := Claimed(resolved, token, 0);
    ClaimedRecordIsValidIff(resolved, token, 0, sha);
    Utf8Bound(token);
    RecordRoundTrip(r, sha);
  }

  /** An explicit null last error is read, and is not printed. */
  lemma NullLastErrorIsDropped(r: HostRecord, sha: Digest)
    requires ValidateRecord(r, sha).Ok? && Storable(r) && r.lastError.None?
    ensures var v := Object(RequiredPart(r)[Name.LastError := Null]);
            RecordFromValue(v, sha) == Ok(r) && RecordToValue(r) != v
  {
    hide ReadRecord, ValidateRecord, ValidateRequest, ValidateResponse, RequiredPart, Says, Bounded, Storable;
    RequiredPartSays(r);
    var m := RequiredPart(r)[Name.LastError := Null];
    assert m - {Name.LastError} == RequiredPart(r);
    SaysIgnoresLastError(m, r);
    ValidIsBounded(r, sha);
    SaidIsRead(m, r, sha);
  }

  lemma SomeNullLastErrorIsDropped(sha: Digest) returns (v: WireValue)
    requires IsHex(sha)
    ensures RecordFromValue(v, sha).Ok? && RecordToValue(RecordFromValue(v, sha).value) != v
  {
    hide IsSha256, ValidateRecord, RecordFromValue, RecordToValue;
    var active, _ := RecordsExist(sha);
    ActiveIsStorable(active, sha);
    NullLastErrorIsDropped(active, sha);
    v := Object(RequiredPart(active)[Name.LastError := Null]);
  }

  lemma ActiveIsStorable(r: HostRecord, sha: Digest)
    requires ValidateRecord(r, sha).Ok? && r.state == ACTIVE && r.lastError.None?
    ensures Storable(r)
  {
    hide ValidateRequest, IsSha256, IsIdentity;
  }

  // ---- What a record binds --------------------------------------------------------------

  /** The response of a valid record answers that record's request and no other. */
  lemma ResponseAnswersThisRequest(r: HostRecord, q: HostRequest, sha: Digest)
    requires ValidateRecord(r, sha).Ok? && r.response.Some? && ValidateRequest(q, sha).Ok?
    requires NoCollision(sha, RequestBody(q), RequestBody(r.request))
    ensures q.requestDigest == r.response.value.requestDigest <==> q == r.request
  {
    hide NonBlank, Utf8Len, IsSha256, RequestBody;
    RequestDigestIdentifies(q, r.request, sha);
  }

  /** Records with the same id belong to the same checkpoint and the same request. */
  lemma RecordIdIdentifies(r: HostRecord, s: HostRecord, sha: Digest)
    requires ValidateRecord(r, sha).Ok? && ValidateRecord(s, sha).Ok?
    requires NoCollision(sha, RequestBody(r.request), RequestBody(s.request))
    requires NoCollision(sha, RecordIdentity(r.checkpointKey, r.request), RecordIdentity(s.checkpointKey, s.request))
    ensures r.recordId == s.recordId <==> r.checkpointKey == s.checkpointKey && r.request == s.request
  {
    hide NonBlank, Utf8Len, IsSha256, RequestBody, ValidateRequest;
    RequestDigestIdentifies(r.request, s.request, sha);
    if r.recordId == s.recordId {
      var m, n := RecordIdentity(r.checkpointKey, r.request).fields, RecordIdentity(s.checkpointKey, s.request).fields;
      assert m[Name.CheckpointKey] == n[Name.CheckpointKey] && m[Name.RequestDigest] == n[Name.RequestDigest];
    }
  }

  /** The record with its response's operation and tool call replaced and the response resealed. */
  function Redirected(r: HostRecord, operationId: string, toolCallId: string, sha: Digest): HostRecord
    requires r.response.Some?
  {
    var p := Sealed(r.response.value.(operationId := operationId, toolCallId := toolCallId), sha);
    r.(response := Some(p), responseDigest := Some(p.responseDigest))
  }

  /**
   The operation and the tool call of the response are not tied to the request's: any other
   pair of identities gives a record that is just as valid.
   */
  lemma ResponseOperationIsFree(r: HostRecord, operationId: string, toolCallId: string, sha: Digest)
    requires IsHex(sha) && ValidateRecord(r, sha).Ok? && r.response.Some?
    ensures ValidateRecord(Redirected(r, operationId, toolCallId, sha), sha).Ok? <==> IsIdentity(operationId) && IsIdentity(toolCallId)
  {
    hide NonBlank, Utf8Len, IsSha256, ValidateRequest, ResponseToValue, RecordIdFor;
    var open := r.response.value.(operationId := operationId, toolCallId := toolCallId);
    var p := Sealed(open, sha);
    ResponseBodyIgnoresDigest(open, p.responseDigest);
  }

  // ---- Refusals of the wrong shape -----------------------------------------------------------

  /** A value that is not an object, or misses a field, or has one too many, is refused with the code of its codec. */
  lemma RecordShapeRefusals(v: WireValue, sha: Digest)
    ensures !v.Object? || !(RECORD_FIELDS <= v.fields.Keys <= RECORD_FIELDS + {Name.LastError}) ==>
              RecordFromValue(v, sha) == Err("host_interaction_fields_invalid")
  {
  }
}

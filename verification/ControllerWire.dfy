/**
 Wire values and field checks of the controller codecs (checkpoint/controller.rs).

 Errors carry the source's error code.  A digest is a parameter: the lowercase
 SHA-256 of the canonical text of a value, as a function of the value.
 */
module ControllerWire {
  import opened Common
  import opened Json
  import opened Unicode

  /** The field names the codecs know, and any other text. */
  datatype Name =
    | SchemaVersion | Kind | Handle | CheckpointKey | RunId | TraceId
    | InteractionId | LogicalCycle | OperationId | ToolCallId | RequestDigest | Prompt
    | Role | Content | CommandId | Response | ResponseDigest
    | CommandDigest | ResumeAttempt | ExpectedRevision | Command
    | ResultingRevision | ResultingStatus | OutboxState | OutboxAction | OutboxDestination | OutboxAttempt
    | Action | Destination | ClaimMode | Receipt | Wake | Error
    | RecordId | Request | State | Attempt | ClaimToken | LeaseExpiresAtMs
    | ResolvedRevision | ConsumedRevision | LastError
    | OtherName(text: string)

  type WireValue = Tree<Name>

  type Fields = map<Name, WireValue>

  type Digest = WireValue -> string

  /** What is known of a digest without looking inside it. */
  ghost predicate IsHex(sha: Digest) {
    forall v :: IsSha256(sha(v))
  }

  const FIELDS_INVALID := "host_interaction_fields_invalid"
  const CONTENT_TOO_LARGE := "host_interaction_content_too_large"
  const RESPONSE_MISSING := "host_interaction_response_missing"
  const INVALID_STATE := "controller_command_invalid_state"
  const DIGEST_INVALID := "controller_command_digest_invalid"
  const NOT_I_JSON := "checkpoint_definition_not_i_json"

  const IDENTITY_BYTES: nat := 512
  const CONTENT_BYTES: nat := 65_536

  predicate IsIdentity(s: string) {
    NonBlank(s) && Utf8Len(s) <= IDENTITY_BYTES
  }

  predicate IsContent(s: string) {
    NonBlank(s) && Utf8Len(s) <= CONTENT_BYTES
  }

  /** A lowercase SHA-256 digest is 64 bytes long and not blank. */
  lemma DigestsAreIdentities(s: string)
    requires IsSha256(s)
    ensures IsIdentity(s) && Utf8Len(s) == 64
  {
    assert !IsWhitespace(s[0]);
    AsciiLength(s);
  }

  function ObjectOf(v: WireValue, code: string): Result<Fields> {
    if v.Object? then Ok(v.fields) else Err(code)
  }

  /** As many fields as expected, and every expected one: the same set of names. */
  function ExactFields(m: Fields, expected: set<Name>, code: string): Result<()> {
    if m.Keys == expected then Ok(()) else Err(code)
  }

  function FieldsWithOptional(m: Fields, required: set<Name>, optional: set<Name>, code: string): Result<()> {
    if required <= m.Keys <= required + optional then Ok(()) else Err(code)
  }

  function RequiredString(m: Fields, f: Name, code: string): Result<string> {
    if f in m && m[f].Text? then Ok(m[f].s) else Err(code)
  }

  function NonEmptyString(m: Fields, f: Name, maxBytes: nat, code: string): Result<string> {
    var s :- RequiredString(m, f, code);
    if NonBlank(s) && Utf8Len(s) <= maxBytes then Ok(s) else Err(code)
  }

  function IdentityField(m: Fields, f: Name, code: string): Result<string> {
    NonEmptyString(m, f, IDENTITY_BYTES, code)
  }

  predicate IntegerFits(n: int, positive: bool) {
    0 <= n && WireInteger(n) && (positive ==> n > 0)
  }

  function RequiredInteger(m: Fields, f: Name, positive: bool): Result<nat> {
    if f in m && m[f].Integer? && IntegerFits(m[f].n, positive) then Ok(m[f].n) else Err(FIELDS_INVALID)
  }

  function RequiredDigest(m: Fields, f: Name): Result<string> {
    var s :- NonEmptyString(m, f, 64, FIELDS_INVALID);
    if IsSha256(s) then Ok(s) else Err(FIELDS_INVALID)
  }

  function OptionalString(m: Fields, f: Name, maxBytes: nat, code: string): Result<Option<string>> {
    if f !in m || m[f].Null? then Ok(None)
    else if m[f].Text? && Utf8Len(m[f].s) <= maxBytes then Ok(Some(m[f].s))
    else Err(code)
  }

  function OptionalInteger(m: Fields, f: Name, code: string): Result<Option<nat>> {
    if f !in m || m[f].Null? then Ok(None)
    else if m[f].Integer? && IntegerFits(m[f].n, false) then Ok(Some(m[f].n))
    else Err(code)
  }

  function OptionalText(s: Option<string>): WireValue {
    if s.Some? then Text(s.value) else Null
  }

  function OptionalNumber(n: Option<nat>): WireValue {
    if n.Some? then Integer(n.value) else Null
  }

  function Check(ok: bool, code: string): Result<()> {
    if ok then Ok(()) else Err(code)
  }

  /** `canonical_digest`: the digest of an object without its own digest field. */
  function DigestWithout(m: Fields, f: Name, sha: Digest): string {
    sha(Object(m - {f}))
  }

  lemma DigestFieldIff(m: Fields, f: Name)
    ensures RequiredDigest(m, f).Ok? <==> f in m && m[f].Text? && IsSha256(m[f].s)
    ensures RequiredDigest(m, f).Ok? ==> RequiredDigest(m, f).value == m[f].s
  {
    if f in m && m[f].Text? && IsSha256(m[f].s) { DigestsAreIdentities(m[f].s); }
  }

  lemma OptionalTextIsRead(m: Fields, f: Name, s: Option<string>, maxBytes: nat, code: string)
    requires f in m && m[f] == OptionalText(s)
    ensures OptionalString(m, f, maxBytes, code) == if s.Some? && Utf8Len(s.value) > maxBytes then Err(code) else Ok(s)
  {
  }

  lemma OptionalNumberIsRead(m: Fields, f: Name, n: Option<nat>, code: string)
    requires f in m && m[f] == OptionalNumber(n)
    ensures OptionalInteger(m, f, code) == if n.Some? && n.value > MAX_WIRE_INTEGER then Err(code) else Ok(n)
  {
  }
}

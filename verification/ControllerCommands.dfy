/** Controller commands, receipts and resolutions (checkpoint/controller_command.rs). */
module ControllerCommands {
  import opened Common
  import opened Json
  import opened Unicode
  import opened ControllerWire
  import opened HostInteraction

  const COMMAND_SCHEMA := "vv-agent.controller-command.v1"
  const RECEIPT_SCHEMA := "vv-agent.controller-command-receipt.v1"
  const RESOLUTION_SCHEMA := "vv-agent.controller-command-resolution.v1"

  // ---- Command variant ----------------------------------------------------------------

  datatype Variant =
    | Respond(interactionId: string, logicalCycle: nat, operationId: string, toolCallId: string,
              requestDigest: string, response: HostMessage)
    | Suspend
    | Resume
    | Cancel
    | Abort

  const RESPOND_KIND := "host_interaction_response"
  const SUSPEND_KIND := "suspend"
  const RESUME_KIND := "resume"
  const CANCEL_KIND := "cancel"
  const ABORT_KIND := "abort"

  function KindOf(c: Variant): string {
    match c
    case Respond(_, _, _, _, _, _) => RESPOND_KIND
    case Suspend => SUSPEND_KIND
    case Resume => RESUME_KIND
    case Cancel => CANCEL_KIND
    case Abort => ABORT_KIND
  }

  lemma KindsDiffer(c: Variant, d: Variant)
    requires KindOf(c) == KindOf(d)
    ensures (c.Respond? && d.Respond?) || (!c.Respond? && c == d)
  {
    assert KindOf(c)[0] == KindOf(d)[0];
  }

  function VariantToValue(c: Variant): WireValue {
    if c.Respond? then
      Object(map[Name.Kind := Text(RESPOND_KIND), Name.InteractionId := Text(c.interactionId),
                 Name.LogicalCycle := Integer(c.logicalCycle), Name.OperationId := Text(c.operationId),
                 Name.ToolCallId := Text(c.toolCallId), Name.RequestDigest := Text(c.requestDigest),
                 Name.Response := MessageToValue(c.response)])
    else Object(map[Name.Kind := Text(KindOf(c))])
  }

  const RESPOND_FIELDS := {Name.Kind, Name.InteractionId, Name.LogicalCycle, Name.OperationId, Name.ToolCallId,
                           Name.RequestDigest, Name.Response}

  function RespondFromFields(m: Fields): Result<Variant> {
    var _ :- ExactFields(m, RESPOND_FIELDS, INVALID_STATE);
    var response :- MessageFromValue(m[Name.Response]);
    var interactionId :- IdentityField(m, Name.InteractionId, INVALID_STATE);
    var logicalCycle :- RequiredInteger(m, Name.LogicalCycle, true);
    var operationId :- IdentityField(m, Name.OperationId, INVALID_STATE);
    var toolCallId :- IdentityField(m, Name.ToolCallId, INVALID_STATE);
    var requestDigest :- RequiredDigest(m, Name.RequestDigest);
    Ok(Respond(interactionId, logicalCycle, operationId, toolCallId, requestDigest, response))
  }

  function PlainFromFields(m: Fields, c: Variant): Result<Variant> {
    var _ :- ExactFields(m, {Name.Kind}, INVALID_STATE);
    Ok(c)
  }

  function VariantFromValue(v: WireValue): Result<Variant> {
    var m :- ObjectOf(v, INVALID_STATE);
    var kind :- RequiredString(m, Name.Kind, INVALID_STATE);
    if kind == RESPOND_KIND then RespondFromFields(m)
    else if kind == SUSPEND_KIND then PlainFromFields(m, Suspend)
    else if kind == RESUME_KIND then PlainFromFields(m, Resume)
    else if kind == CANCEL_KIND then PlainFromFields(m, Cancel)
    else if kind == ABORT_KIND then PlainFromFields(m, Abort)
    else Err(INVALID_STATE)
  }

  function ValidateVariant(c: Variant): Result<()> {
    if !c.Respond? then Ok(())
    else
      var _ :- Check(IsIdentity(c.interactionId) && IsIdentity(c.operationId) && IsIdentity(c.toolCallId), INVALID_STATE);
      var _ :- Check(IntegerFits(c.logicalCycle, true), INVALID_STATE);
      var _ :- Check(IsSha256(c.requestDigest), INVALID_STATE);
      ValidateMessage(c.response)
  }

  lemma RespondExact(m: Fields)
    requires Name.Kind in m && m[Name.Kind] == Text(RESPOND_KIND)
    ensures var r := RespondFromFields(m);
            r.Ok? ==> r.value.Respond? && ValidateVariant(r.value).Ok? && VariantToValue(r.value) == Object(m)
  {
    hide NonBlank, Utf8Len, IsSha256, MessageFromValue, MessageToValue, ValidateMessage, RequiredDigest;
    if RespondFromFields(m).Ok? {
      MessageExact(m[Name.Response]);
      DigestFieldIff(m, Name.RequestDigest);
    }
  }

  lemma VariantExact(v: WireValue)
    ensures var r := VariantFromValue(v); r.Ok? ==> ValidateVariant(r.value).Ok? && VariantToValue(r.value) == v
  {
    hide RespondFromFields;
    if v.Object? && Name.Kind in v.fields && v.fields[Name.Kind] == Text(RESPOND_KIND) {
      RespondExact(v.fields);
    }
  }

  lemma VariantRoundTrip(c: Variant)
    ensures VariantFromValue(VariantToValue(c)) == Ok(c) <==> ValidateVariant(c).Ok?
  {
    hide NonBlank, Utf8Len, IsSha256, MessageFromValue, MessageToValue, ValidateMessage, RequiredDigest, RespondFromFields;
    var m := VariantToValue(c).fields;
    if c.Respond? {
      RespondRoundTrip(c);
    } else {
      forall d: Variant | d.Respond? ensures KindOf(c) != KindOf(d) { if KindOf(c) == KindOf(d) { KindsDiffer(c, d); } }
      assert KindOf(Respond("", 0, "", "", "", HostMessage("", ""))) == RESPOND_KIND;
      if KindOf(c) == KindOf(Suspend) { KindsDiffer(c, Suspend); }
      if KindOf(c) == KindOf(Resume) { KindsDiffer(c, Resume); }
      if KindOf(c) == KindOf(Cancel) { KindsDiffer(c, Cancel); }
      assert m.Keys == {Name.Kind};
    }
  }

  lemma RespondRoundTrip(c: Variant)
    requires c.Respond?
    ensures RespondFromFields(VariantToValue(c).fields) == Ok(c) <==> ValidateVariant(c).Ok?
  {
    hide NonBlank, Utf8Len, IsSha256, MessageFromValue, MessageToValue, ValidateMessage, RequiredDigest;
    var m := VariantToValue(c).fields;
    MessageRoundTrip(c.response);
    DigestFieldIff(m, Name.RequestDigest);
  }

  // ---- Command ------------------------------------------------------------------------

  datatype ControllerCommand = ControllerCommand(
    schemaVersion: string, commandId: string, commandDigest: string, handle: ControllerHandle,
    resumeAttempt: nat, expectedRevision: nat, command: Variant)

  function CommandToValue(c: ControllerCommand): WireValue {
    Object(map[Name.SchemaVersion := Text(c.schemaVersion), Name.CommandId := Text(c.commandId),
               Name.CommandDigest := Text(c.commandDigest), Name.Handle := HandleToValue(c.handle),
               Name.ResumeAttempt := Integer(c.resumeAttempt), Name.ExpectedRevision := Integer(c.expectedRevision),
               Name.Command := VariantToValue(c.command)])
  }

  function CommandBody(c: ControllerCommand): WireValue {
    Object(CommandToValue(c).fields - {Name.CommandDigest})
  }

  function CommandDigestOf(c: ControllerCommand, sha: Digest): string {
    DigestWithout(CommandToValue(c).fields, Name.CommandDigest, sha)
  }

  function ValidateCommand(c: ControllerCommand, sha: Digest): Result<()> {
    var _ :- Check(c.schemaVersion == COMMAND_SCHEMA, DIGEST_INVALID);
    var _ :- Check(IsIdentity(c.commandId), DIGEST_INVALID);
    var _ :- ValidateHandle(c.handle);
    var _ :- Check(IntegerFits(c.resumeAttempt, true) && IntegerFits(c.expectedRevision, false), DIGEST_INVALID);
    var _ :- ValidateVariant(c.command);
    var _ :- Check(IsSha256(c.commandDigest), DIGEST_INVALID);
    Check(CommandDigestOf(c, sha) == c.commandDigest, DIGEST_INVALID)
  }

  const COMMAND_FIELDS := {Name.SchemaVersion, Name.CommandId, Name.CommandDigest, Name.Handle, Name.ResumeAttempt,
                           Name.ExpectedRevision, Name.Command}

  function CommandFromValue(v: WireValue, sha: Digest): Result<ControllerCommand> {
    var m :- ObjectOf(v, DIGEST_INVALID);
    var _ :- ExactFields(m, COMMAND_FIELDS, DIGEST_INVALID);
    var schemaVersion :- RequiredString(m, Name.SchemaVersion, DIGEST_INVALID);
    var commandId :- IdentityField(m, Name.CommandId, DIGEST_INVALID);
    var commandDigest :- RequiredDigest(m, Name.CommandDigest);
    var handle :- HandleFromValue(m[Name.Handle]);
    var resumeAttempt :- RequiredInteger(m, Name.ResumeAttempt, true);
    var expectedRevision :- RequiredInteger(m, Name.ExpectedRevision, false);
    var command :- VariantFromValue(m[Name.Command]);
    var c := ControllerCommand(schemaVersion, commandId, commandDigest, handle, resumeAttempt, expectedRevision, command);
    var _ :- ValidateCommand(c, sha);
    Ok(c)
  }

  lemma CommandExact(v: WireValue, sha: Digest)
    ensures var r := CommandFromValue(v, sha); r.Ok? ==> ValidateCommand(r.value, sha).Ok? && CommandToValue(r.value) == v
  {
    hide NonBlank, Utf8Len, IsSha256, HandleFromValue, HandleToValue, VariantFromValue, VariantToValue, ValidateCommand, RequiredDigest;
    if CommandFromValue(v, sha).Ok? {
      HandleExact(v.fields[Name.Handle]);
      VariantExact(v.fields[Name.Command]);
      DigestFieldIff(v.fields, Name.CommandDigest);
    }
  }

  lemma CommandRoundTrip(c: ControllerCommand, sha: Digest)
    ensures CommandFromValue(CommandToValue(c), sha) == Ok(c) <==> ValidateCommand(c, sha).Ok?
  {
    hide NonBlank, Utf8Len, IsSha256, HandleFromValue, HandleToValue, VariantFromValue, VariantToValue, RequiredDigest,
         ValidateHandle, ValidateVariant;
    HandleRoundTrip(c.handle);
    VariantRoundTrip(c.command);
    DigestFieldIff(CommandToValue(c).fields, Name.CommandDigest);
  }

  lemma CommandBodyAndDigest(c: ControllerCommand)
    ensures CommandToValue(c) == Object(CommandBody(c).fields[Name.CommandDigest := Text(c.commandDigest)])
    ensures Name.CommandDigest !in CommandBody(c).fields
  {
    hide HandleToValue, VariantToValue;
  }

  /** Valid commands with the same digest are the same command. */
  lemma CommandDigestIdentifies(c: ControllerCommand, d: ControllerCommand, sha: Digest)
    requires ValidateCommand(c, sha).Ok? && ValidateCommand(d, sha).Ok?
    requires NoCollision(sha, CommandBody(c), CommandBody(d))
    ensures c.commandDigest == d.commandDigest <==> c == d
  {
    hide NonBlank, Utf8Len, IsSha256, CommandToValue, CommandFromValue;
    if c.commandDigest == d.commandDigest {
      CommandBodyAndDigest(c);
      CommandBodyAndDigest(d);
      CommandRoundTrip(c, sha);
      CommandRoundTrip(d, sha);
    }
  }

  lemma CommandBodyIgnoresDigest(c: ControllerCommand, s: string)
    ensures CommandBody(c.(commandDigest := s)) == CommandBody(c)
  {
    hide HandleToValue, VariantToValue;
  }

  /** `canonical_json_bytes` refuses integers beyond the JSON-safe range. */
  predicate CommandIsIJson(c: ControllerCommand) {
    c.resumeAttempt <= MAX_WIRE_INTEGER && c.expectedRevision <= MAX_WIRE_INTEGER
    && (c.command.Respond? ==> c.command.logicalCycle <= MAX_WIRE_INTEGER)
  }

  function NewCommand(commandId: string, handle: ControllerHandle, resumeAttempt: nat, expectedRevision: nat,
                      command: Variant, sha: Digest): Result<ControllerCommand> {
    var blank := ControllerCommand(COMMAND_SCHEMA, commandId, "", handle, resumeAttempt, expectedRevision, command);
    var _ :- Check(CommandIsIJson(blank), NOT_I_JSON);
    var c := blank.(commandDigest := CommandDigestOf(blank, sha));
    var _ :- ValidateCommand(c, sha);
    Ok(c)
  }

  /** The constructor succeeds on all parts within their bounds, and what it makes can be sent. */
  lemma NewCommandIff(commandId: string, handle: ControllerHandle, resumeAttempt: nat, expectedRevision: nat,
                      command: Variant, sha: Digest)
    requires IsHex(sha)
    ensures var r := NewCommand(commandId, handle, resumeAttempt, expectedRevision, command, sha);
            && (r.Ok? <==> IsIdentity(commandId) && ValidateHandle(handle).Ok? && ValidateVariant(command).Ok?
                           && IntegerFits(resumeAttempt, true) && IntegerFits(expectedRevision, false))
            && (r.Ok? ==> CommandFromValue(CommandToValue(r.value), sha) == r)
  {
    hide NonBlank, Utf8Len, IsSha256, CommandFromValue, CommandToValue, ValidateHandle;
    var blank := ControllerCommand(COMMAND_SCHEMA, commandId, "", handle, resumeAttempt, expectedRevision, command);
    var c := blank.(commandDigest := CommandDigestOf(blank, sha));
    CommandBodyIgnoresDigest(blank, c.commandDigest);
    CommandRoundTrip(c, sha);
  }

  // ---- Receipt ------------------------------------------------------------------------

  datatype CommandReceipt = CommandReceipt(
    schemaVersion: string, commandId: string, commandDigest: string, handle: ControllerHandle,
    resumeAttempt: nat, expectedRevision: nat, resultingRevision: nat, resultingStatus: string,
    outboxState: string, outboxAction: string, outboxDestination: Option<string>, outboxAttempt: nat)

  const NONE := "none"
  const RECOVERY_DISPATCH := "recovery_dispatch"
  const DISTRIBUTED_ADVANCE := "distributed_advance"
  const PENDING := "pending"
  const CLAIMED := "claimed"
  const DELIVERED := "delivered"
  const AMBIGUOUS := "ambiguous"

  predicate IsOutboxState(s: string) {
    s == PENDING || s == CLAIMED || s == DELIVERED || s == AMBIGUOUS
  }

  /** Nothing to do goes nowhere; a recovery goes to the distributed driver. */
  predicate IsOutboxPair(action: string, destination: Option<string>) {
    || (action == NONE && destination.None?)
    || (action == RECOVERY_DISPATCH && destination == Some(DISTRIBUTED_ADVANCE))
  }

  function ValidateReceipt(r: CommandReceipt): Result<()> {
    var _ :- Check(r.schemaVersion == RECEIPT_SCHEMA, INVALID_STATE);
    var _ :- Check(IsIdentity(r.commandId), INVALID_STATE);
    var _ :- Check(IsSha256(r.commandDigest), INVALID_STATE);
    var _ :- ValidateHandle(r.handle);
    var _ :- Check(&& IntegerFits(r.resumeAttempt, true) && IntegerFits(r.expectedRevision, false)
                   && IntegerFits(r.resultingRevision, false) && IntegerFits(r.outboxAttempt, false), INVALID_STATE);
    var _ :- Check(IsOutboxState(r.outboxState), INVALID_STATE);
    var _ :- Check(IsIdentity(r.resultingStatus), INVALID_STATE);
    var _ :- Check(r.outboxDestination.Some? ==> Utf8Len(r.outboxDestination.value) <= IDENTITY_BYTES, INVALID_STATE);
    var _ :- Check(IsOutboxPair(r.outboxAction, r.outboxDestination), INVALID_STATE);
    Check(r.outboxAction == NONE ==> r.outboxState == DELIVERED, INVALID_STATE)
  }

  /** What a valid receipt is, field by field: only a recovery has somewhere to go and may still be under way. */
  lemma ValidReceiptIff(r: CommandReceipt)
    ensures ValidateReceipt(r).Ok? <==>
            && r.schemaVersion == "vv-agent.controller-command-receipt.v1"
            && IsIdentity(r.commandId) && IsSha256(r.commandDigest) && ValidateHandle(r.handle).Ok? && IsIdentity(r.resultingStatus)
            && 0 < r.resumeAttempt <= MAX_WIRE_INTEGER && r.expectedRevision <= MAX_WIRE_INTEGER
            && r.resultingRevision <= MAX_WIRE_INTEGER && r.outboxAttempt <= MAX_WIRE_INTEGER
            && (|| (r.outboxAction == "none" && r.outboxDestination.None? && r.outboxState == "delivered")
                || (&& r.outboxAction == "recovery_dispatch" && r.outboxDestination == Some("distributed_advance")
                    && (r.outboxState == "pending" || r.outboxState == "claimed" || r.outboxState == "delivered" || r.outboxState == "ambiguous")))
  {
    hide IsIdentity, IsSha256, ValidateHandle, Utf8Len;
    DestinationFits();
    assert NONE[0] != RECOVERY_DISPATCH[0];
  }

  function ReceiptToValue(r: CommandReceipt): WireValue {
    Object(map[Name.SchemaVersion := Text(r.schemaVersion), Name.CommandId := Text(r.commandId),
               Name.CommandDigest := Text(r.commandDigest), Name.Handle := HandleToValue(r.handle),
               Name.ResumeAttempt := Integer(r.resumeAttempt), Name.ExpectedRevision := Integer(r.expectedRevision),
               Name.ResultingRevision := Integer(r.resultingRevision), Name.ResultingStatus := Text(r.resultingStatus),
               Name.OutboxState := Text(r.outboxState), Name.OutboxAction := Text(r.outboxAction),
               Name.OutboxDestination := OptionalText(r.outboxDestination), Name.OutboxAttempt := Integer(r.outboxAttempt)])
  }

  const RECEIPT_FIELDS := {Name.SchemaVersion, Name.CommandId, Name.CommandDigest, Name.Handle, Name.ResumeAttempt,
                           Name.ExpectedRevision, Name.ResultingRevision, Name.ResultingStatus, Name.OutboxState,
                           Name.OutboxAction, Name.OutboxDestination, Name.OutboxAttempt}

  function ReceiptFromValue(v: WireValue): Result<CommandReceipt> {
    var m :- ObjectOf(v, INVALID_STATE);
    var _ :- ExactFields(m, RECEIPT_FIELDS, INVALID_STATE);
    var schemaVersion :- RequiredString(m, Name.SchemaVersion, INVALID_STATE);
    var commandId :- IdentityField(m, Name.CommandId, INVALID_STATE);
    var commandDigest :- RequiredDigest(m, Name.CommandDigest);
    var handle :- HandleFromValue(m[Name.Handle]);
    var resumeAttempt :- RequiredInteger(m, Name.ResumeAttempt, true);
    var expectedRevision :- RequiredInteger(m, Name.ExpectedRevision, false);
    var resultingRevision :- RequiredInteger(m, Name.ResultingRevision, false);
    var resultingStatus :- RequiredString(m, Name.ResultingStatus, INVALID_STATE);
    var outboxState :- RequiredString(m, Name.OutboxState, INVALID_STATE);
    var outboxAction :- RequiredString(m, Name.OutboxAction, INVALID_STATE);
    var outboxDestination :- OptionalString(m, Name.OutboxDestination, IDENTITY_BYTES, INVALID_STATE);
    var outboxAttempt :- RequiredInteger(m, Name.OutboxAttempt, false);
    var r := CommandReceipt(schemaVersion, commandId, commandDigest, handle, resumeAttempt, expectedRevision,
                            resultingRevision, resultingStatus, outboxState, outboxAction, outboxDestination, outboxAttempt);
    var _ :- ValidateReceipt(r);
    Ok(r)
  }

  lemma ReceiptExact(v: WireValue)
    ensures var r := ReceiptFromValue(v); r.Ok? ==> ValidateReceipt(r.value).Ok? && ReceiptToValue(r.value) == v
  {
    hide NonBlank, Utf8Len, IsSha256, HandleFromValue, HandleToValue, RequiredDigest, ValidateReceipt;
    if ReceiptFromValue(v).Ok? {
      HandleExact(v.fields[Name.Handle]);
      DigestFieldIff(v.fields, Name.CommandDigest);
    }
  }

  lemma ReceiptRoundTrip(r: CommandReceipt)
    ensures ReceiptFromValue(ReceiptToValue(r)) == Ok(r) <==> ValidateReceipt(r).Ok?
  {
    hide NonBlank, Utf8Len, IsSha256, HandleFromValue, HandleToValue, RequiredDigest, ValidateHandle, IsOutboxState, IsOutboxPair,
         ReceiptToValue;
    HandleRoundTrip(r.handle);
    ReceiptFields(r);
    DigestFieldIff(ReceiptToValue(r).fields, Name.CommandDigest);
  }

  lemma ReceiptKeys(r: CommandReceipt)
    ensures ReceiptToValue(r).Object? && ReceiptToValue(r).fields.Keys == RECEIPT_FIELDS
  {
    hide HandleToValue, OptionalText;
  }

  lemma ReceiptFields(r: CommandReceipt)
    ensures ReceiptToValue(r).Object?
    ensures var m := ReceiptToValue(r).fields;
            && m.Keys == RECEIPT_FIELDS
            && m[Name.SchemaVersion] == Text(r.schemaVersion) && m[Name.CommandId] == Text(r.commandId)
            && m[Name.CommandDigest] == Text(r.commandDigest) && m[Name.Handle] == HandleToValue(r.handle)
            && m[Name.ResumeAttempt] == Integer(r.resumeAttempt) && m[Name.ExpectedRevision] == Integer(r.expectedRevision)
            && m[Name.ResultingRevision] == Integer(r.resultingRevision) && m[Name.ResultingStatus] == Text(r.resultingStatus)
            && m[Name.OutboxState] == Text(r.outboxState) && m[Name.OutboxAction] == Text(r.outboxAction)
            && m[Name.OutboxDestination] == OptionalText(r.outboxDestination) && m[Name.OutboxAttempt] == Integer(r.outboxAttempt)
  {
    hide HandleToValue, OptionalText;
    ReceiptKeys(r);
  }

  // ---- Wake ---------------------------------------------------------------------------

  datatype CommandWake = CommandWake(action: string, destination: Option<string>, logicalCycle: nat, claimMode: string)

  const RECOVERY := "recovery"

  const WAKE_NONE := CommandWake(NONE, None, 0, NONE)

  function WakeForRecovery(logicalCycle: nat): CommandWake {
    CommandWake(RECOVERY_DISPATCH, Some(DISTRIBUTED_ADVANCE), logicalCycle, RECOVERY)
  }

  function ValidateWake(w: CommandWake): Result<()> {
    Check(|| (w.action == NONE && w.destination.None? && w.claimMode == NONE)
          || (w.action == RECOVERY_DISPATCH && w.destination == Some(DISTRIBUTED_ADVANCE) && w.claimMode == RECOVERY
              && w.logicalCycle > 0), INVALID_STATE)
  }

  /** There are two kinds of valid wake: none, and a recovery of a positive cycle. */
  lemma ValidWakeIff(w: CommandWake)
    ensures ValidateWake(w).Ok? <==>
            || w == CommandWake("none", None, w.logicalCycle, "none")
            || (w == CommandWake("recovery_dispatch", Some("distributed_advance"), w.logicalCycle, "recovery") && w.logicalCycle > 0)
  {
  }

  function WakeToValue(w: CommandWake): WireValue {
    Object(map[Name.Action := Text(w.action), Name.Destination := OptionalText(w.destination),
               Name.LogicalCycle := Integer(w.logicalCycle), Name.ClaimMode := Text(w.claimMode)])
  }

  function WakeFromValue(v: WireValue): Result<CommandWake> {
    var m :- ObjectOf(v, INVALID_STATE);
    var _ :- ExactFields(m, {Name.Action, Name.Destination, Name.LogicalCycle, Name.ClaimMode}, INVALID_STATE);
    var action :- RequiredString(m, Name.Action, INVALID_STATE);
    var destination :- OptionalString(m, Name.Destination, IDENTITY_BYTES, INVALID_STATE);
    var logicalCycle :- RequiredInteger(m, Name.LogicalCycle, false);
    var claimMode :- RequiredString(m, Name.ClaimMode, INVALID_STATE);
    var w := CommandWake(action, destination, logicalCycle, claimMode);
    var _ :- ValidateWake(w);
    Ok(w)
  }

  lemma WakeExact(v: WireValue)
    ensures var r := WakeFromValue(v); r.Ok? ==>
              ValidateWake(r.value).Ok? && r.value.logicalCycle <= MAX_WIRE_INTEGER && WakeToValue(r.value) == v
  {
    hide Utf8Len;
  }

  lemma DestinationFits()
    ensures Utf8Len(DISTRIBUTED_ADVANCE) <= IDENTITY_BYTES
  {
    hide Utf8Len;
    Utf8Bound(DISTRIBUTED_ADVANCE);
  }

  /** The validator does not bound the cycle: a valid wake can be read back exactly when its cycle is JSON-safe. */
  lemma WakeRoundTrip(w: CommandWake)
    ensures WakeFromValue(WakeToValue(w)) == Ok(w) <==> ValidateWake(w).Ok? && w.logicalCycle <= MAX_WIRE_INTEGER
    ensures ValidateWake(WAKE_NONE).Ok?
    ensures forall n: nat :: ValidateWake(WakeForRecovery(n)).Ok? <==> n > 0
  {
    hide Utf8Len;
    DestinationFits();
    assert NONE[0] != RECOVERY_DISPATCH[0];
  }

  /** A recovery wake for the first cycle beyond the JSON-safe range is valid and is not read back. */
  lemma LateWakeIsNotReadable()
    ensures var w := WakeForRecovery(MAX_WIRE_INTEGER + 1);
            ValidateWake(w).Ok? && WakeFromValue(WakeToValue(w)) != Ok(w)
  {
    hide WakeFromValue, WakeToValue;
    WakeRoundTrip(WakeForRecovery(MAX_WIRE_INTEGER + 1));
  }

  // ---- Resolution ---------------------------------------------------------------------

  datatype CommandResolution =
    | Applied(receipt: CommandReceipt, wake: CommandWake)
    | Replayed(receipt: CommandReceipt, wake: CommandWake)
    | Rejected(error: string)

  const APPLIED := "applied"
  const REPLAYED := "replayed"
  const REJECTED := "rejected"

  function ResolutionKind(r: CommandResolution): string {
    match r
    case Applied(_, _) => APPLIED
    case Replayed(_, _) => REPLAYED
    case Rejected(_) => REJECTED
  }

  function ResolutionToValue(r: CommandResolution): WireValue {
    var head := map[Name.SchemaVersion := Text(RESOLUTION_SCHEMA), Name.Kind := Text(ResolutionKind(r))];
    Object(if r.Rejected? then head[Name.Error := Text(r.error)]
           else head[Name.Receipt := ReceiptToValue(r.receipt)][Name.Wake := WakeToValue(r.wake)])
  }

  function ResolutionFromValue(v: WireValue): Result<CommandResolution> {
    var m :- ObjectOf(v, INVALID_STATE);
    var kind :- RequiredString(m, Name.Kind, INVALID_STATE);
    if kind == APPLIED || kind == REPLAYED then
      var _ :- ExactFields(m, {Name.SchemaVersion, Name.Kind, Name.Receipt, Name.Wake}, INVALID_STATE);
      var schemaVersion :- RequiredString(m, Name.SchemaVersion, INVALID_STATE);
      var _ :- Check(schemaVersion == RESOLUTION_SCHEMA, INVALID_STATE);
      var receipt :- ReceiptFromValue(m[Name.Receipt]);
      var wake :- WakeFromValue(m[Name.Wake]);
      Ok(if kind == APPLIED then Applied(receipt, wake) else Replayed(receipt, wake))
    else if kind == REJECTED then
      var _ :- ExactFields(m, {Name.SchemaVersion, Name.Kind, Name.Error}, INVALID_STATE);
      var schemaVersion :- RequiredString(m, Name.SchemaVersion, INVALID_STATE);
      var _ :- Check(schemaVersion == RESOLUTION_SCHEMA, INVALID_STATE);
      var error :- NonEmptyString(m, Name.Error, CONTENT_BYTES, INVALID_STATE);
      Ok(Rejected(error))
    else Err(INVALID_STATE)
  }

  predicate ReadableResolution(r: CommandResolution) {
    if r.Rejected? then IsContent(r.error)
    else ValidateReceipt(r.receipt).Ok? && ValidateWake(r.wake).Ok? && r.wake.logicalCycle <= MAX_WIRE_INTEGER
  }

  lemma ResolutionKindsDiffer()
    ensures APPLIED != REPLAYED && APPLIED != REJECTED && REPLAYED != REJECTED
  {
    assert APPLIED[0] != REPLAYED[0] && APPLIED[0] != REJECTED[0] && REPLAYED[2] != REJECTED[2];
  }

  lemma ResolutionExact(v: WireValue)
    ensures var r := ResolutionFromValue(v); r.Ok? ==> ReadableResolution(r.value) && ResolutionToValue(r.value) == v
  {
    hide NonBlank, Utf8Len, ReceiptFromValue, ReceiptToValue, WakeFromValue, WakeToValue;
    var r := ResolutionFromValue(v);
    if r.Ok? && !r.value.Rejected? {
      ReceiptExact(v.fields[Name.Receipt]);
      WakeExact(v.fields[Name.Wake]);
    }
  }

  lemma ResolutionRoundTrip(r: CommandResolution)
    ensures ResolutionFromValue(ResolutionToValue(r)) == Ok(r) <==> ReadableResolution(r)
  {
    hide NonBlank, Utf8Len, ReceiptFromValue, ReceiptToValue, WakeFromValue, WakeToValue, ValidateReceipt, ValidateWake;
    ResolutionKindsDiffer();
    var m := ResolutionToValue(r).fields;
    if r.Rejected? {
      assert m.Keys == {Name.SchemaVersion, Name.Kind, Name.Error};
    } else {
      assert m.Keys == {Name.SchemaVersion, Name.Kind, Name.Receipt, Name.Wake};
      ReceiptRoundTrip(r.receipt);
      WakeRoundTrip(r.wake);
    }
  }

  // ---- Refusals ---------------------------------------------------------------------------

  /** A value that is not an object, or misses a field, or has one too many, is refused with the code of its codec. */
  lemma ShapeRefusals(v: WireValue, sha: Digest)
    ensures !v.Object? || v.fields.Keys != COMMAND_FIELDS ==> CommandFromValue(v, sha) == Err("controller_command_digest_invalid")
    ensures !v.Object? || v.fields.Keys != RECEIPT_FIELDS ==> ReceiptFromValue(v) == Err("controller_command_invalid_state")
    ensures !v.Object? || v.fields.Keys != {Name.Action, Name.Destination, Name.LogicalCycle, Name.ClaimMode} ==>
              WakeFromValue(v) == Err("controller_command_invalid_state")
    ensures !v.Object? || Name.Kind !in v.fields ==>
              && VariantFromValue(v) == Err("controller_command_invalid_state")
              && ResolutionFromValue(v) == Err("controller_command_invalid_state")
  {
  }

  /**
   Why a command is refused: a bad handle or variant has its own code, and everything else,
   the digest above all, the code of an invalid digest.
   */
  lemma CommandRefusals(c: ControllerCommand, sha: Digest)
    ensures var r := ValidateCommand(c, sha);
            r.Err? ==>
              if c.schemaVersion != "vv-agent.controller-command.v1" || !IsIdentity(c.commandId) then
                r.error == "controller_command_digest_invalid"
              else if ValidateHandle(c.handle).Err? then r.error == "controller_command_invalid_state"
              else if c.resumeAttempt == 0 || c.resumeAttempt > MAX_WIRE_INTEGER || c.expectedRevision > MAX_WIRE_INTEGER then
                r.error == "controller_command_digest_invalid"
              else if ValidateVariant(c.command).Err? then r.error == ValidateVariant(c.command).error
              else r.error == "controller_command_digest_invalid"
  {
    hide IsIdentity, IsSha256, ValidateVariant;
  }

  /** Every invalid receipt and wake carries the code of an invalid state. */
  lemma StateRefusals(r: CommandReceipt, w: CommandWake)
    ensures ValidateReceipt(r).Err? ==> ValidateReceipt(r).error == "controller_command_invalid_state"
    ensures ValidateWake(w).Err? ==> ValidateWake(w).error == "controller_command_invalid_state"
  {
    hide IsIdentity, IsSha256, IsOutboxState, IsOutboxPair, Utf8Len;
  }
}

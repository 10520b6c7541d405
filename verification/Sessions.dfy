/**
 Conversation sessions (sessions.rs): a list per session in memory, and one SQLite
 table shared by all sessions.

 SQL statements are functions of the table: rows are keyed by the AUTOINCREMENT
 `item_index`, which is never reused.  Operations run one at a time.
 */
module Sessions {
  import opened Common
  import Json

  // ---- Items and their wire form ------------------------------------------------

  datatype Role = System | User | Assistant | Tool

  datatype ToolCall = ToolCall(id: string, name: string, arguments: map<string, Json.Value>, extraContent: Option<Json.Value>)

  datatype ArtifactRef = ArtifactRef(path: string, mediaType: string, encoding: string, sizeBytes: nat, sha256: string)

  datatype Message = Message(
    role: Role,
    content: string,
    name: Option<string>,
    toolCallId: Option<string>,
    toolCalls: seq<ToolCall>,
    reasoningContent: Option<string>,
    imageUrl: Option<string>,
    metadata: map<string, Json.Value>,
    artifactRef: Option<ArtifactRef>)

  datatype SessionItem =
    | UserItem(content: string)
    | AssistantItem(content: string)
    | SystemItem(content: string)
    | ToolItem(content: string, toolCallId: string)
    | MessageItem(message: Message)

  function Plain(role: Role, content: string, toolCallId: Option<string>): Message {
    Message(role, content, None, toolCallId, [], None, None, map[], None)
  }

  function ToMessage(item: SessionItem): Message {
    match item
    case UserItem(c) => Plain(User, c, None)
    case AssistantItem(c) => Plain(Assistant, c, None)
    case SystemItem(c) => Plain(System, c, None)
    case ToolItem(c, id) => Plain(Tool, c, Some(id))
    case MessageItem(m) => m
  }

  function FromMessage(m: Message): SessionItem {
    var unrepresentableToolCallId := if m.role.Tool? then m.toolCallId.None? else m.toolCallId.Some?;
    if unrepresentableToolCallId || m.name.Some? || m.toolCalls != [] || m.reasoningContent.Some?
       || m.imageUrl.Some? || m.metadata != map[] || m.artifactRef.Some?
    then MessageItem(m)
    else
      match m.role
      case System => SystemItem(m.content)
      case User => UserItem(m.content)
      case Assistant => AssistantItem(m.content)
      case Tool => ToolItem(m.content, if m.toolCallId.Some? then m.toolCallId.value else "")
  }

  /** Nothing of a message is lost in the compact item. */
  lemma MessageRoundTrip(m: Message)
    ensures ToMessage(FromMessage(m)) == m
  {
    assert m.toolCalls == [] && m.metadata == map[] ==> Plain(m.role, m.content, m.toolCallId) == m.(name := None, reasoningContent := None, imageUrl := None, artifactRef := None);
  }

  /** The fields of the JSON object; an absent optional field is its default here. */
  datatype Wire = Wire(
    role: string,
    content: string,
    name: Option<string>,
    toolCallId: Option<string>,
    toolCalls: seq<WireCall>,
    reasoningContent: Option<string>,
    imageUrl: Option<string>,
    metadata: map<string, Json.Value>,
    artifactRef: Option<ArtifactRef>)

  /** `arguments` is the value that the arguments text denotes. */
  datatype WireCall = WireCall(id: string, kind: string, name: string, arguments: Json.Value, extraContent: Option<Json.Value>)

  /** Checks and the digest that live in other files; some payloads have no canonical text and so no digest. */
  datatype Env = Env(
    compactionOk: map<string, Json.Value> -> bool,
    artifactOk: ArtifactRef -> bool,
    digest: seq<Wire> -> Result<string>)

  function RoleName(role: Role): string {
    match role
    case System => "system"
    case User => "user"
    case Assistant => "assistant"
    case Tool => "tool"
  }

  function RoleOf(name: string): Option<Role> {
    if name == "system" then Some(System)
    else if name == "user" then Some(User)
    else if name == "assistant" then Some(Assistant)
    else if name == "tool" then Some(Tool)
    else None
  }

  function EncodeCalls(calls: seq<ToolCall>): seq<WireCall> {
    if calls == [] then []
    else [WireCall(calls[0].id, "function", calls[0].name, Json.Object(calls[0].arguments), calls[0].extraContent)]
         + EncodeCalls(calls[1..])
  }

  function DecodeCall(w: WireCall): Option<ToolCall> {
    if !NonBlank(w.id) || w.kind != "function" || !NonBlank(w.name) || !w.arguments.Object?
       || (w.extraContent.Some? && !w.extraContent.value.Object?)
    then None
    else Some(ToolCall(w.id, w.name, w.arguments.fields, w.extraContent))
  }

  function DecodeCalls(calls: seq<WireCall>): Option<seq<ToolCall>> {
    if calls == [] then Some([])
    else
      var first, rest := DecodeCall(calls[0]), DecodeCalls(calls[1..]);
      if first.None? || rest.None? then None else Some([first.value] + rest.value)
  }

  function Encode(env: Env, m: Message): Option<Wire> {
    if !env.compactionOk(m.metadata) then None
    else Some(Wire(RoleName(m.role), m.content, m.name, m.toolCallId, EncodeCalls(m.toolCalls),
                   m.reasoningContent, m.imageUrl, m.metadata, m.artifactRef))
  }

  function Decode(env: Env, w: Wire): Option<SessionItem> {
    var role, calls := RoleOf(w.role), DecodeCalls(w.toolCalls);
    if role.None? || calls.None? || (w.artifactRef.Some? && !env.artifactOk(w.artifactRef.value)) || !env.compactionOk(w.metadata)
    then None
    else Some(FromMessage(Message(role.value, w.content, w.name, w.toolCallId, calls.value,
                                  w.reasoningContent, w.imageUrl, w.metadata, w.artifactRef)))
  }

  /** What the decoder asks of a tool call that the encoder does not. */
  predicate CallOk(c: ToolCall) {
    NonBlank(c.id) && NonBlank(c.name) && (c.extraContent.Some? ==> c.extraContent.value.Object?)
  }

  predicate Portable(env: Env, m: Message) {
    && env.compactionOk(m.metadata)
    && (forall i :: 0 <= i < |m.toolCalls| ==> CallOk(m.toolCalls[i]))
    && (m.artifactRef.Some? ==> env.artifactOk(m.artifactRef.value))
  }

  lemma {:induction false} CallsRoundTrip(calls: seq<ToolCall>)
    ensures DecodeCalls(EncodeCalls(calls)) ==
            if forall i :: 0 <= i < |calls| ==> CallOk(calls[i]) then Some(calls) else None
  {
    if calls != [] {
      CallsRoundTrip(calls[1..]);
      assert EncodeCalls(calls)[1..] == EncodeCalls(calls[1..]);
      assert DecodeCall(EncodeCalls(calls)[0]) == if CallOk(calls[0]) then Some(calls[0]) else None;
      assert [calls[0]] + calls[1..] == calls;
      assert (forall i :: 0 <= i < |calls| ==> CallOk(calls[i])) <==>
             CallOk(calls[0]) && (forall i :: 0 <= i < |calls[1..]| ==> CallOk(calls[1..][i])) by {
        assert forall i :: 1 <= i < |calls| ==> calls[i] == calls[1..][i - 1];
      }
    }
  }

  /** A written message reads back as itself exactly when it is portable; otherwise reading fails. */
  lemma WireRoundTrip(env: Env, m: Message)
    requires Encode(env, m).Some?
    ensures var back := Decode(env, Encode(env, m).value);
            if Portable(env, m) then back.Some? && ToMessage(back.value) == m else back.None?
  {
    CallsRoundTrip(m.toolCalls);
    MessageRoundTrip(m);
  }

  // ---- Operations ---------------------------------------------------------------

  datatype Outcome = Committed | Replayed

  datatype Op =
    | Get(limit: Option<nat>)
    | Add(items: seq<SessionItem>)
    | AddOnce(commitId: string, payloadDigest: string, items: seq<SessionItem>)
    | Pop
    | Clear

  datatype Out =
    | Items(items: seq<SessionItem>)
    | Done
    | Appended(outcome: Outcome)
    | Popped(item: Option<SessionItem>)
    | Failed(error: string)

  const CONFLICT := "session_commit_identity_conflict: commit_id has a different payload"

  function EncodeAll(env: Env, items: seq<SessionItem>): Option<seq<Wire>> {
    if items == [] then Some([])
    else
      var first, rest := Encode(env, ToMessage(items[0])), EncodeAll(env, items[1..]);
      if first.None? || rest.None? then None else Some([first.value] + rest.value)
  }

  /** `validate_session_commit`; the source panics where an item has no wire form. */
  function CommitError(env: Env, commitId: string, payloadDigest: string, items: seq<SessionItem>): Option<string> {
    if !NonBlank(commitId) then Some("session_commit_identity_invalid: commit_id must be non-empty")
    else if !IsSha256(payloadDigest) then Some("session_commit_payload_digest_invalid: payload_digest must be lowercase SHA-256")
    else if EncodeAll(env, items).None? then Some("session commit payload cannot be serialized")
    else
      match env.digest(EncodeAll(env, items).value)
      case Err(error) => Some(error)
      case Ok(digest) =>
        if digest != payloadDigest then Some("session_commit_payload_digest_mismatch: payload_digest does not match items")
        else None
  }

  /** The wire forms of the items, one by one. */
  predicate WireForms(env: Env, items: seq<SessionItem>, wires: seq<Wire>) {
    |wires| == |items| && forall i :: 0 <= i < |items| ==> Encode(env, ToMessage(items[i])) == Some(wires[i])
  }

  lemma {:induction false} EncodedAre(env: Env, items: seq<SessionItem>)
    ensures EncodeAll(env, items).Some? ==> WireForms(env, items, EncodeAll(env, items).value)
    ensures forall wires :: WireForms(env, items, wires) ==> EncodeAll(env, items) == Some(wires)
  {
    hide Encode, ToMessage;
    if items != [] {
      var rest := items[1..];
      EncodedAre(env, rest);
      assert forall i :: 1 <= i < |items| ==> items[i] == rest[i - 1];
      forall wires | WireForms(env, items, wires) ensures EncodeAll(env, items) == Some(wires) {
        assert forall i :: 1 <= i < |wires| ==> wires[i] == wires[1..][i - 1];
        assert WireForms(env, rest, wires[1..]);
        assert wires == [wires[0]] + wires[1..];
      }
    }
  }

  /** A commit is valid: it has an id, and its digest is the digest of its items. */
  ghost predicate ValidCommit(env: Env, commitId: string, payloadDigest: string, items: seq<SessionItem>) {
    && NonBlank(commitId) && IsSha256(payloadDigest)
    && exists wires :: WireForms(env, items, wires) && env.digest(wires) == Ok(payloadDigest)
  }

  /** The validator passes exactly the valid commits, and reports the first thing wrong with any other. */
  lemma CommitErrorIff(env: Env, commitId: string, payloadDigest: string, items: seq<SessionItem>)
    ensures CommitError(env, commitId, payloadDigest, items).None? <==> ValidCommit(env, commitId, payloadDigest, items)
    ensures !NonBlank(commitId) ==>
              CommitError(env, commitId, payloadDigest, items) == Some("session_commit_identity_invalid: commit_id must be non-empty")
    ensures NonBlank(commitId) && !IsSha256(payloadDigest) ==>
              CommitError(env, commitId, payloadDigest, items)
              == Some("session_commit_payload_digest_invalid: payload_digest must be lowercase SHA-256")
    ensures forall wires :: NonBlank(commitId) && IsSha256(payloadDigest) && WireForms(env, items, wires) ==>
              CommitError(env, commitId, payloadDigest, items) ==
              match env.digest(wires)
              case Err(error) => Some(error)
              case Ok(digest) =>
                if digest == payloadDigest then None
                else Some("session_commit_payload_digest_mismatch: payload_digest does not match items")
  {
    hide NonBlank, IsSha256, EncodeAll, WireForms;
    EncodedAre(env, items);
  }

  // ---- In memory ------------------------------------------------------------------

  datatype MemoryLog = MemoryLog(items: seq<SessionItem>, commits: map<string, string>)

  const EMPTY_LOG := MemoryLog([], map[])

  function Last<T>(s: seq<T>, n: nat): seq<T> {
    if n >= |s| then s else s[|s| - n..]
  }

  function MemoryStep(env: Env, log: MemoryLog, op: Op): (MemoryLog, Out) {
    match op
    case Get(limit) => (log, Items(if limit.None? then log.items else Last(log.items, limit.value)))
    case Add(items) => (log.(items := log.items + items), Done)
    case AddOnce(id, digest, items) =>
      var error := CommitError(env, id, digest, items);
      if error.Some? then (log, Failed(error.value))
      else if id in log.commits then
        (log, if log.commits[id] != digest then Failed(CONFLICT) else Appended(Replayed))
      else (MemoryLog(log.items + items, log.commits[id := digest]), Appended(Committed))
    case Pop =>
      if log.items == [] then (log, Popped(None))
      else (log.(items := log.items[..|log.items| - 1]), Popped(Some(log.items[|log.items| - 1])))
    case Clear => (EMPTY_LOG, Done)
  }

  /** A session in memory is a list: adding appends, a limit takes the newest, popping undoes one append, clearing forgets all. */
  lemma ListLaws(env: Env, log: MemoryLog, op: Op)
    ensures var (log', out) := MemoryStep(env, log, op);
            match op
            case Get(limit) =>
              && log' == log && out.Items?
              && (limit.None? ==> out.items == log.items)
              && (limit.Some? ==> && |out.items| == (if limit.value < |log.items| then limit.value else |log.items|)
                                  && out.items == log.items[|log.items| - |out.items|..])
            case Add(items) => log'.items == log.items + items && log'.commits == log.commits && out == Done
            case Pop =>
              && log'.commits == log.commits && out.Popped?
              && (if log.items == [] then log'.items == [] && out.item.None?
                  else out.item.Some? && log'.items + [out.item.value] == log.items)
            case Clear => log'.items == [] && log'.commits == map[] && out == Done
            case AddOnce(_, _, _) => true
  {
  }

  // ---- The shared table -------------------------------------------------------------

  datatype Row = Row(session: string, payload: Wire)

  datatype Table = Table(rows: map<nat, Row>, nextIndex: nat, commits: map<(string, string), string>)

  const EMPTY_TABLE := Table(map[], 1, map[])

  /** `WHERE session_id = ? ORDER BY item_index ASC`, over the indices below `hi`. */
  function SelectAscending(rows: map<nat, Row>, session: string, hi: nat): seq<Wire> {
    if hi == 0 then []
    else SelectAscending(rows, session, hi - 1)
         + if hi - 1 in rows && rows[hi - 1].session == session then [rows[hi - 1].payload] else []
  }

  /** `WHERE session_id = ? ORDER BY item_index DESC LIMIT ?`. */
  function SelectDescending(rows: map<nat, Row>, session: string, hi: nat, limit: nat): seq<Wire>
    decreases hi
  {
    if hi == 0 || limit == 0 then []
    else if hi - 1 in rows && rows[hi - 1].session == session then
      [rows[hi - 1].payload] + SelectDescending(rows, session, hi - 1, limit - 1)
    else SelectDescending(rows, session, hi - 1, limit)
  }

  /** The index of the newest row of a session. */
  function NewestIndex(rows: map<nat, Row>, session: string, hi: nat): Option<nat> {
    if hi == 0 then None
    else if hi - 1 in rows && rows[hi - 1].session == session then Some(hi - 1)
    else NewestIndex(rows, session, hi - 1)
  }

  function Reverse<T>(s: seq<T>): seq<T> {
    if s == [] then [] else Reverse(s[1..]) + [s[0]]
  }

  function DecodeAll(env: Env, payloads: seq<Wire>): Option<seq<SessionItem>> {
    if payloads == [] then Some([])
    else
      var first, rest := Decode(env, payloads[0]), DecodeAll(env, payloads[1..]);
      if first.None? || rest.None? then None else Some([first.value] + rest.value)
  }

  function InsertRow(t: Table, session: string, payload: Wire): Table {
    t.(rows := t.rows[t.nextIndex := Row(session, payload)], nextIndex := t.nextIndex + 1)
  }

  /** Insert payloads in order; SQLite refuses an index past the largest 64-bit integer. */
  function InsertAll(t: Table, session: string, payloads: seq<Wire>): Option<Table>
    decreases |payloads|
  {
    if payloads == [] then Some(t)
    else if t.nextIndex > I64_MAX then None
    else InsertAll(InsertRow(t, session, payloads[0]), session, payloads[1..])
  }

  const JSON_ERROR := "invalid session payload"

  const FULL := "database or disk is full"

  /** The transaction of `add_items`: write and insert the items one by one. */
  function AddAll(env: Env, t: Table, session: string, items: seq<SessionItem>): Result<Table>
    decreases |items|
  {
    if items == [] then Ok(t)
    else if Encode(env, ToMessage(items[0])).None? then Err(JSON_ERROR)
    else if t.nextIndex > I64_MAX then Err(FULL)
    else AddAll(env, InsertRow(t, session, Encode(env, ToMessage(items[0])).value), session, items[1..])
  }

  function SqliteStep(env: Env, t: Table, session: string, op: Op): (Table, Out) {
    match op
    case Get(limit) =>
      var payloads :=
        if limit.None? then SelectAscending(t.rows, session, t.nextIndex)
        else Reverse(SelectDescending(t.rows, session, t.nextIndex, if limit.value <= I64_MAX then limit.value else I64_MAX));
      var items := DecodeAll(env, payloads);
      (t, if items.None? then Failed(JSON_ERROR) else Items(items.value))
    case Add(items) =>
      var t' := AddAll(env, t, session, items);
      if t'.Err? then (t, Failed(t'.error)) else (t'.value, Done)
    case AddOnce(id, digest, items) =>
      var error := CommitError(env, id, digest, items);
      if error.Some? then (t, Failed(error.value))
      else if (session, id) in t.commits then
        (t, if t.commits[(session, id)] != digest then Failed(CONFLICT) else Appended(Replayed))
      else
        var t' := InsertAll(t, session, EncodeAll(env, items).value);
        if t'.None? then (t, Failed(FULL))
        else (t'.value.(commits := t.commits[(session, id) := digest]), Appended(Committed))
    case Pop =>
      var newest := NewestIndex(t.rows, session, t.nextIndex);
      if newest.None? then (t, Popped(None))
      else
        var item := if newest.value in t.rows then Decode(env, t.rows[newest.value].payload) else None;
        if item.None? then (t, Failed(JSON_ERROR))
        else (t.(rows := t.rows - {newest.value}), Popped(item))
    case Clear =>
      (t.(rows := map i | i in t.rows && t.rows[i].session != session :: t.rows[i],
          commits := map k | k in t.commits && k.0 != session :: t.commits[k]), Done)
  }

  /** An operation that fails changes neither store. */
  lemma FailuresChangeNothing(env: Env, t: Table, log: MemoryLog, session: string, op: Op)
    ensures SqliteStep(env, t, session, op).1.Failed? ==> SqliteStep(env, t, session, op).0 == t
    ensures MemoryStep(env, log, op).1.Failed? ==> MemoryStep(env, log, op).0 == log
  {
  }

  /** A commit that is reported as made is on record under its id, with its digest, in the store that made it. */
  lemma CommittedIsRecorded(env: Env, t: Table, log: MemoryLog, session: string, id: string, digest: string, items: seq<SessionItem>)
    ensures var (t', out) := SqliteStep(env, t, session, AddOnce(id, digest, items));
            out == Appended(Committed) ==> (session, id) !in t.commits && t'.commits == t.commits[(session, id) := digest]
    ensures var (log', out) := MemoryStep(env, log, AddOnce(id, digest, items));
            out == Appended(Committed) ==> id !in log.commits && log'.commits == log.commits[id := digest]
  {
  }

  // ---- What the SQL statements return -------------------------------------------------

  lemma {:induction false} ReverseAppend<T>(s: seq<T>, x: T)
    ensures Reverse([x] + s) == Reverse(s) + [x]
  {
    assert ([x] + s)[1..] == s;
  }

  lemma LastGrows<T>(s: seq<T>, x: T, n: nat)
    ensures Last(s, n) + [x] == Last(s + [x], n + 1)
  {
  }

  lemma TailStep<T>(newer: seq<T>, older: seq<T>, x: T, n: nat)
    requires Reverse(newer) == Last(older, n)
    ensures Reverse([x] + newer) == Last(older + [x], n + 1)
  {
    ReverseAppend(newer, x);
    LastGrows(older, x, n);
  }

  /** Newest first with a limit, turned round, is the tail of oldest first. */
  lemma {:induction false} LimitedIsTail(rows: map<nat, Row>, session: string, hi: nat, limit: nat)
    ensures Reverse(SelectDescending(rows, session, hi, limit)) == Last(SelectAscending(rows, session, hi), limit)
    decreases hi
  {
    hide Reverse, Last;
    if hi == 0 || limit == 0 {
      NoTail(SelectAscending(rows, session, hi), limit);
    } else if hi - 1 in rows && rows[hi - 1].session == session {
      LimitedIsTail(rows, session, hi - 1, limit - 1);
      var newer, older := SelectDescending(rows, session, hi - 1, limit - 1), SelectAscending(rows, session, hi - 1);
      TailStep(newer, older, rows[hi - 1].payload, limit - 1);
    } else {
      LimitedIsTail(rows, session, hi - 1, limit);
      var older := SelectAscending(rows, session, hi - 1);
      assert older + [] == older;
    }
  }

  lemma NoTail<T>(s: seq<T>, limit: nat)
    requires s == [] || limit == 0
    ensures Reverse<T>([]) == [] == Last(s, limit)
  {
  }

  /** A selection sees only the rows of its session below the bound. */
  lemma {:induction false} SelectionFrame(rows: map<nat, Row>, rows': map<nat, Row>, session: string, hi: nat)
    requires forall i :: 0 <= i < hi ==>
               ((i in rows && rows[i].session == session) <==> (i in rows' && rows'[i].session == session))
               && (i in rows && rows[i].session == session ==> rows[i] == rows'[i])
    ensures SelectAscending(rows, session, hi) == SelectAscending(rows', session, hi)
  {
    if hi != 0 {
      SelectionFrame(rows, rows', session, hi - 1);
    }
  }

  lemma {:induction false} SelectionOfNothing(rows: map<nat, Row>, session: string, hi: nat)
    requires forall i :: i in rows ==> rows[i].session != session
    ensures SelectAscending(rows, session, hi) == []
  {
    if hi != 0 {
      SelectionOfNothing(rows, session, hi - 1);
    }
  }

  lemma {:induction false} InsertAppends(t: Table, session: string, payloads: seq<Wire>, other: string)
    requires t.nextIndex + |payloads| <= I64_MAX + 1
    ensures var t' := InsertAll(t, session, payloads);
            && t'.Some? && t'.value.nextIndex == t.nextIndex + |payloads| && t'.value.commits == t.commits
            && SelectAscending(t'.value.rows, other, t'.value.nextIndex) ==
               SelectAscending(t.rows, other, t.nextIndex) + if other == session then payloads else []
    decreases |payloads|
  {
    hide SelectAscending;
    var before := SelectAscending(t.rows, other, t.nextIndex);
    if payloads == [] {
      assert before + [] == before;
    } else {
      InsertAppends(InsertRow(t, session, payloads[0]), session, payloads[1..], other);
      OneRowAppends(t, session, payloads[0], other);
      if other == session {
        assert (before + [payloads[0]]) + payloads[1..] == before + payloads;
      } else {
        assert before + [] == before;
      }
    }
  }

  lemma OneRowAppends(t: Table, session: string, payload: Wire, other: string)
    ensures var t1 := InsertRow(t, session, payload);
            SelectAscending(t1.rows, other, t1.nextIndex) ==
            SelectAscending(t.rows, other, t.nextIndex) + if other == session then [payload] else []
  {
    SelectionFrame(t.rows, InsertRow(t, session, payload).rows, other, t.nextIndex);
  }

  lemma {:induction false} AddAllInsertsPayloads(env: Env, t: Table, session: string, items: seq<SessionItem>)
    requires EncodeAll(env, items).Some?
    ensures var t' := InsertAll(t, session, EncodeAll(env, items).value);
            AddAll(env, t, session, items) == if t'.Some? then Ok(t'.value) else Err(FULL)
    decreases |items|
  {
    if items != [] {
      assert EncodeAll(env, items).value[1..] == EncodeAll(env, items[1..]).value;
      AddAllInsertsPayloads(env, InsertRow(t, session, Encode(env, ToMessage(items[0])).value), session, items[1..]);
    }
  }

  /** Deleting the newest row of a session drops the last payload of that session only. */
  lemma {:induction false} NewestIsLast(rows: map<nat, Row>, session: string, hi: nat, other: string)
    ensures var newest, all := NewestIndex(rows, session, hi), SelectAscending(rows, session, hi);
            if newest.None? then all == []
            else && newest.value < hi && newest.value in rows && rows[newest.value].session == session
                 && all != [] && rows[newest.value].payload == all[|all| - 1]
                 && SelectAscending(rows - {newest.value}, other, hi) ==
                    if other == session then all[..|all| - 1] else SelectAscending(rows, other, hi)
  {
    if hi != 0 {
      NewestIsLast(rows, session, hi - 1, other);
      var newest := NewestIndex(rows, session, hi);
      if newest.Some? {
        if newest.value == hi - 1 {
          SelectionFrame(rows, rows - {hi - 1}, other, hi - 1);
        } else {
          SelectionFrame(rows - {newest.value}, rows - {newest.value}, other, hi - 1);
        }
      }
    }
  }

  // ---- Refinement -----------------------------------------------------------------------

  type Family = map<string, MemoryLog>

  function LogOf(f: Family, session: string): MemoryLog {
    if session in f then f[session] else EMPTY_LOG
  }

  predicate AllPortable(env: Env, items: seq<SessionItem>) {
    forall i :: 0 <= i < |items| ==> Portable(env, ToMessage(items[i]))
  }

  /** The payload is the written form of the item, and can be read back. */
  predicate Written(env: Env, item: SessionItem, payload: Wire) {
    Portable(env, ToMessage(item)) && Encode(env, ToMessage(item)) == Some(payload)
  }

  predicate WrittenAs(env: Env, items: seq<SessionItem>, payloads: seq<Wire>) {
    && |payloads| == |items|
    && forall i :: 0 <= i < |items| ==> Written(env, items[i], payloads[i])
  }

  /** The table holds, for a session, exactly the written form of its list, and its commits. */
  ghost predicate RefinesSession(env: Env, t: Table, log: MemoryLog, session: string) {
    && WrittenAs(env, log.items, SelectAscending(t.rows, session, t.nextIndex))
    && (forall id :: (session, id) in t.commits <==> id in log.commits)
    && (forall id :: id in log.commits ==> t.commits[(session, id)] == log.commits[id])
  }

  ghost predicate Refines(env: Env, t: Table, f: Family) {
    forall session :: RefinesSession(env, t, LogOf(f, session), session)
  }

  predicate SameItems(a: seq<SessionItem>, b: seq<SessionItem>) {
    |a| == |b| && forall i :: 0 <= i < |a| ==> ToMessage(a[i]) == ToMessage(b[i])
  }

  /** The same answer, items being compared as messages. */
  predicate SameOut(a: Out, b: Out) {
    match (a, b)
    case (Items(x), Items(y)) => SameItems(x, y)
    case (Popped(Some(x)), Popped(Some(y))) => ToMessage(x) == ToMessage(y)
    case _ => a == b
  }

  /** The same answers, call by call. */
  predicate SameOuts(a: seq<Out>, b: seq<Out>) {
    |a| == |b| && forall i :: 0 <= i < |a| ==> SameOut(a[i], b[i])
  }

  function OpItems(op: Op): seq<SessionItem> {
    match op
    case Add(items) => items
    case AddOnce(_, _, items) => items
    case _ => []
  }

  lemma {:induction false} PortableItemsEncode(env: Env, items: seq<SessionItem>)
    requires AllPortable(env, items)
    ensures EncodeAll(env, items).Some? && WrittenAs(env, items, EncodeAll(env, items).value)
  {
    if items != [] {
      assert Portable(env, ToMessage(items[0]));
      assert forall i :: 1 <= i < |items| ==> items[i] == items[1..][i - 1];
      PortableItemsEncode(env, items[1..]);
    }
  }

  lemma {:induction false} WrittenItemsDecode(env: Env, items: seq<SessionItem>, payloads: seq<Wire>)
    requires WrittenAs(env, items, payloads)
    ensures DecodeAll(env, payloads).Some? && SameItems(DecodeAll(env, payloads).value, items)
  {
    hide Decode, Encode, ToMessage, Portable;
    if items != [] {
      HeadDecodes(env, items, payloads);
      assert forall i :: 1 <= i < |items| ==> items[i] == items[1..][i - 1] && payloads[i] == payloads[1..][i - 1];
      WrittenItemsDecode(env, items[1..], payloads[1..]);
      SameItemsCons(Decode(env, payloads[0]).value, DecodeAll(env, payloads[1..]).value, items);
    }
  }

  lemma HeadDecodes(env: Env, items: seq<SessionItem>, payloads: seq<Wire>)
    requires WrittenAs(env, items, payloads) && items != []
    ensures Decode(env, payloads[0]).Some? && ToMessage(Decode(env, payloads[0]).value) == ToMessage(items[0])
  {
    hide Decode, Encode, ToMessage;
    WireRoundTrip(env, ToMessage(items[0]));
  }

  lemma SameItemsCons(x: SessionItem, rest: seq<SessionItem>, items: seq<SessionItem>)
    requires items != [] && ToMessage(x) == ToMessage(items[0]) && SameItems(rest, items[1..])
    ensures SameItems([x] + rest, items)
  {
    hide ToMessage;
    var all := [x] + rest;
    forall i | 0 <= i < |all| ensures ToMessage(all[i]) == ToMessage(items[i]) {
      if i > 0 { assert all[i] == rest[i - 1] && items[i] == items[1..][i - 1]; }
    }
  }

  lemma WrittenTail(env: Env, items: seq<SessionItem>, payloads: seq<Wire>, n: nat)
    requires WrittenAs(env, items, payloads)
    ensures WrittenAs(env, Last(items, n), Last(payloads, n))
  {
    if n < |items| {
      var d := |items| - n;
      assert forall i :: 0 <= i < n ==> items[d..][i] == items[d + i] && payloads[d..][i] == payloads[d + i];
    }
  }

  lemma {:induction false} SelectionIsShort(rows: map<nat, Row>, session: string, hi: nat)
    ensures |SelectAscending(rows, session, hi)| <= hi
  {
    if hi != 0 {
      SelectionIsShort(rows, session, hi - 1);
    }
  }

  lemma GetAgrees(env: Env, t: Table, log: MemoryLog, session: string, limit: Option<nat>)
    requires RefinesSession(env, t, log, session) && t.nextIndex <= I64_MAX
    ensures SameOut(SqliteStep(env, t, session, Get(limit)).1, MemoryStep(env, log, Get(limit)).1)
  {
    var all := SelectAscending(t.rows, session, t.nextIndex);
    if limit.Some? {
      var n := if limit.value <= I64_MAX then limit.value else I64_MAX;
      LimitedIsTail(t.rows, session, t.nextIndex, n);
      WrittenTail(env, log.items, all, n);
      WrittenItemsDecode(env, Last(log.items, n), Last(all, n));
      SelectionIsShort(t.rows, session, t.nextIndex);
    } else {
      WrittenItemsDecode(env, log.items, all);
    }
  }

  /** Appending rows refines appending to the list of that session and leaves the others alone. */
  lemma InsertRefines(env: Env, t: Table, log: MemoryLog, session: string, items: seq<SessionItem>, other: string)
    requires RefinesSession(env, t, log, other) && AllPortable(env, items)
    requires t.nextIndex + |items| <= I64_MAX
    ensures EncodeAll(env, items).Some?
    ensures var t' := InsertAll(t, session, EncodeAll(env, items).value);
            && t'.Some? && t'.value.nextIndex == t.nextIndex + |items| && t'.value.commits == t.commits
            && AddAll(env, t, session, items) == Ok(t'.value)
            && RefinesSession(env, t'.value, if other == session then log.(items := log.items + items) else log, other)
  {
    PortableItemsEncode(env, items);
    AddAllInsertsPayloads(env, t, session, items);
    var payloads := EncodeAll(env, items).value;
    InsertAppends(t, session, payloads, other);
    WrittenAppend(env, log.items, SelectAscending(t.rows, other, t.nextIndex), items, payloads);
  }

  lemma WrittenAppend(env: Env, a: seq<SessionItem>, pa: seq<Wire>, b: seq<SessionItem>, pb: seq<Wire>)
    requires WrittenAs(env, a, pa) && WrittenAs(env, b, pb)
    ensures WrittenAs(env, a + b, pa + pb)
  {
  }

  lemma PopAnswers(env: Env, t: Table, log: MemoryLog, session: string)
    requires RefinesSession(env, t, log, session)
    ensures var newest := NewestIndex(t.rows, session, t.nextIndex);
            if log.items == [] then newest.None?
            else && newest.Some? && newest.value in t.rows && Decode(env, t.rows[newest.value].payload).Some?
                 && ToMessage(Decode(env, t.rows[newest.value].payload).value) == ToMessage(log.items[|log.items| - 1])
  {
    NewestIsLast(t.rows, session, t.nextIndex, session);
    if log.items != [] {
      WireRoundTrip(env, ToMessage(log.items[|log.items| - 1]));
    }
  }

  lemma PopRefines(env: Env, t: Table, log: MemoryLog, session: string, other: string, otherLog: MemoryLog)
    requires RefinesSession(env, t, log, session) && RefinesSession(env, t, otherLog, other)
    requires other == session ==> otherLog == log
    ensures RefinesSession(env, SqliteStep(env, t, session, Pop).0,
                           if other == session then MemoryStep(env, log, Pop).0 else otherLog, other)
  {
    PopAnswers(env, t, log, session);
    NewestIsLast(t.rows, session, t.nextIndex, other);
  }

  lemma ClearRefines(env: Env, t: Table, session: string, other: string, otherLog: MemoryLog)
    requires RefinesSession(env, t, otherLog, other)
    ensures RefinesSession(env, SqliteStep(env, t, session, Clear).0, if other == session then EMPTY_LOG else otherLog, other)
  {
    var t' := SqliteStep(env, t, session, Clear).0;
    if other == session {
      SelectionOfNothing(t'.rows, other, t.nextIndex);
    } else {
      SelectionFrame(t.rows, t'.rows, other, t.nextIndex);
    }
  }

  /** One operation: the same answer, and every session still refined. */
  lemma StepRefines(env: Env, t: Table, f: Family, session: string, op: Op)
    requires Refines(env, t, f) && AllPortable(env, OpItems(op)) && t.nextIndex + |OpItems(op)| <= I64_MAX
    ensures var (t', out), (log', out') := SqliteStep(env, t, session, op), MemoryStep(env, LogOf(f, session), op);
            && SameOut(out, out')
            && Refines(env, t', f[session := log'])
            && t'.nextIndex <= t.nextIndex + |OpItems(op)|
  {
    var log := LogOf(f, session);
    var (t', out) := SqliteStep(env, t, session, op);
    var (log', out') := MemoryStep(env, log, op);
    assert RefinesSession(env, t, log, session);
    AnswerAgrees(env, t, log, session, op);
    var f' := f[session := log'];
    forall other ensures RefinesSession(env, t', LogOf(f', other), other) {
      assert RefinesSession(env, t, LogOf(f, other), other);
      StateAgrees(env, t, log, session, op, other, LogOf(f, other));
    }
  }

  lemma AnswerAgrees(env: Env, t: Table, log: MemoryLog, session: string, op: Op)
    requires RefinesSession(env, t, log, session) && AllPortable(env, OpItems(op)) && t.nextIndex + |OpItems(op)| <= I64_MAX
    ensures SameOut(SqliteStep(env, t, session, op).1, MemoryStep(env, log, op).1)
    ensures SqliteStep(env, t, session, op).0.nextIndex <= t.nextIndex + |OpItems(op)|
  {
    match op
    case Get(limit) => GetAgrees(env, t, log, session, limit);
    case Add(items) => InsertRefines(env, t, log, session, items, session);
    case AddOnce(id, digest, items) => AddOnceAnswers(env, t, log, session, id, digest, items);
    case Pop => PopAnswers(env, t, log, session);
    case Clear =>
  }

  lemma AddOnceAnswers(env: Env, t: Table, log: MemoryLog, session: string, id: string, digest: string, items: seq<SessionItem>)
    requires RefinesSession(env, t, log, session) && AllPortable(env, items) && t.nextIndex + |items| <= I64_MAX
    ensures SqliteStep(env, t, session, AddOnce(id, digest, items)).1 == MemoryStep(env, log, AddOnce(id, digest, items)).1
    ensures SqliteStep(env, t, session, AddOnce(id, digest, items)).0.nextIndex <= t.nextIndex + |items|
  {
    InsertRefines(env, t, log, session, items, session);
    assert (session, id) in t.commits <==> id in log.commits;
  }

  lemma StateAgrees(env: Env, t: Table, log: MemoryLog, session: string, op: Op, other: string, otherLog: MemoryLog)
    requires RefinesSession(env, t, log, session) && RefinesSession(env, t, otherLog, other)
    requires other == session ==> otherLog == log
    requires AllPortable(env, OpItems(op)) && t.nextIndex + |OpItems(op)| <= I64_MAX
    ensures RefinesSession(env, SqliteStep(env, t, session, op).0,
                           if other == session then MemoryStep(env, log, op).0 else otherLog, other)
  {
    hide RefinesSession;
    match op
    case Get(_) =>
    case Add(items) => InsertRefines(env, t, otherLog, session, items, other);
    case AddOnce(id, digest, items) => AddOnceRefines(env, t, log, session, id, digest, items, other, otherLog);
    case Pop => PopRefines(env, t, log, session, other, otherLog);
    case Clear => ClearRefines(env, t, session, other, otherLog);
  }

  lemma AddOnceRefines(env: Env, t: Table, log: MemoryLog, session: string, id: string, digest: string, items: seq<SessionItem>,
                       other: string, otherLog: MemoryLog)
    requires RefinesSession(env, t, log, session) && RefinesSession(env, t, otherLog, other)
    requires other == session ==> otherLog == log
    requires AllPortable(env, items) && t.nextIndex + |items| <= I64_MAX
    ensures var op := AddOnce(id, digest, items);
            RefinesSession(env, SqliteStep(env, t, session, op).0,
                           if other == session then MemoryStep(env, log, op).0 else otherLog, other)
  {
    hide RefinesSession, SqliteStep, MemoryStep, CommitError, InsertAll, EncodeAll;
    SameCommits(env, t, log, session, id);
    InsertRefines(env, t, otherLog, session, items, other);
    CommitRefines(env, InsertAll(t, session, EncodeAll(env, items).value).value, session, id, digest, other,
                  if other == session then otherLog.(items := otherLog.items + items) else otherLog);
    CommitSteps(env, t, log, session, id, digest, items);
  }

  lemma SameCommits(env: Env, t: Table, log: MemoryLog, session: string, id: string)
    requires RefinesSession(env, t, log, session)
    ensures (session, id) in t.commits <==> id in log.commits
  {
  }

  /** What an idempotent add does to the two stores when the rows fit. */
  lemma CommitSteps(env: Env, t: Table, log: MemoryLog, session: string, id: string, digest: string, items: seq<SessionItem>)
    requires EncodeAll(env, items).Some? && InsertAll(t, session, EncodeAll(env, items).value).Some?
    requires (session, id) in t.commits <==> id in log.commits
    ensures var op, t' := AddOnce(id, digest, items), InsertAll(t, session, EncodeAll(env, items).value).value;
            if CommitError(env, id, digest, items).None? && id !in log.commits
            then && SqliteStep(env, t, session, op).0 == t'.(commits := t.commits[(session, id) := digest])
                 && MemoryStep(env, log, op).0 == MemoryLog(log.items + items, log.commits[id := digest])
            else SqliteStep(env, t, session, op).0 == t && MemoryStep(env, log, op).0 == log
  {
    hide CommitError, InsertAll, EncodeAll;
  }

  lemma CommitRefines(env: Env, t: Table, session: string, id: string, digest: string, other: string, log: MemoryLog)
    requires RefinesSession(env, t, log, other)
    ensures RefinesSession(env, t.(commits := t.commits[(session, id) := digest]),
                           if other == session then log.(commits := log.commits[id := digest]) else log, other)
  {
  }

  // ---- Runs --------------------------------------------------------------------------------

  datatype Call = Call(session: string, op: Op)

  function RunMemory(env: Env, f: Family, calls: seq<Call>): seq<Out>
    decreases |calls|
  {
    if calls == [] then []
    else
      var (log, out) := MemoryStep(env, LogOf(f, calls[0].session), calls[0].op);
      [out] + RunMemory(env, f[calls[0].session := log], calls[1..])
  }

  function RunSqlite(env: Env, t: Table, calls: seq<Call>): seq<Out>
    decreases |calls|
  {
    if calls == [] then []
    else
      var (t', out) := SqliteStep(env, t, calls[0].session, calls[0].op);
      [out] + RunSqlite(env, t', calls[1..])
  }

  function ItemsAdded(calls: seq<Call>): nat {
    if calls == [] then 0 else |OpItems(calls[0].op)| + ItemsAdded(calls[1..])
  }

  predicate PortableCalls(env: Env, calls: seq<Call>) {
    forall i :: 0 <= i < |calls| ==> AllPortable(env, OpItems(calls[i].op))
  }

  /**
   The table shared by all sessions answers every run of gets, adds, idempotent adds,
   pops and clears, over any mix of sessions, as one independent list per session does.
   */
  lemma {:induction false} StoresAgree(env: Env, t: Table, f: Family, calls: seq<Call>)
    requires Refines(env, t, f) && PortableCalls(env, calls) && t.nextIndex + ItemsAdded(calls) <= I64_MAX
    ensures SameOuts(RunSqlite(env, t, calls), RunMemory(env, f, calls))
    decreases |calls|
  {
    if calls != [] {
      var c := calls[0];
      StepRefines(env, t, f, c.session, c.op);
      var (t', out) := SqliteStep(env, t, c.session, c.op);
      var (log', out') := MemoryStep(env, LogOf(f, c.session), c.op);
      assert forall i :: 1 <= i < |calls| ==> calls[i] == calls[1..][i - 1];
      StoresAgree(env, t', f[c.session := log'], calls[1..]);
      SameOutsCons(out, out', RunSqlite(env, t', calls[1..]), RunMemory(env, f[c.session := log'], calls[1..]));
    }
  }

  lemma SameOutsCons(x: Out, y: Out, a: seq<Out>, b: seq<Out>)
    requires SameOut(x, y) && SameOuts(a, b)
    ensures SameOuts([x] + a, [y] + b)
  {
  }

  lemma FreshStoresAgree(env: Env, calls: seq<Call>)
    requires PortableCalls(env, calls) && 1 + ItemsAdded(calls) <= I64_MAX
    ensures SameOuts(RunSqlite(env, EMPTY_TABLE, calls), RunMemory(env, map[], calls))
  {
    forall session ensures RefinesSession(env, EMPTY_TABLE, LogOf(map[], session), session) {
      SelectionOfNothing(map[], session, 1);
    }
    StoresAgree(env, EMPTY_TABLE, map[], calls);
  }

  /** Portability is exactly what agreement needs: storing one item and reading it back tells. */
  lemma AgreeIffPortable(env: Env, session: string, item: SessionItem)
    ensures var calls := AddThenGet(session, item);
            SameOuts(RunSqlite(env, EMPTY_TABLE, calls), RunMemory(env, map[], calls)) <==> Portable(env, ToMessage(item))
  {
    hide Portable, RunSqlite, RunMemory, SameOuts;
    if Portable(env, ToMessage(item)) {
      OneItemAdded(session, item);
      OneItemPortable(env, session, item);
      FreshStoresAgree(env, AddThenGet(session, item));
    } else {
      NotPortableDisagrees(env, session, item);
      AddThenGetAnswers(env, session, item);
    }
  }

  function AddThenGet(session: string, item: SessionItem): seq<Call> {
    [Call(session, Add([item])), Call(session, Get(None))]
  }

  lemma OneItemAdded(session: string, item: SessionItem)
    ensures ItemsAdded(AddThenGet(session, item)) == 1
  {
    var calls := AddThenGet(session, item);
    assert calls[1..] == [calls[1]] && [calls[1]][1..] == [];
    assert ItemsAdded([calls[1]]) == 0;
  }

  lemma OneItemPortable(env: Env, session: string, item: SessionItem)
    requires Portable(env, ToMessage(item))
    ensures PortableCalls(env, AddThenGet(session, item))
  {
    hide Portable;
  }

  /** The answers differ as soon as one of the table's two answers is a failure. */
  lemma AddThenGetAnswers(env: Env, session: string, item: SessionItem)
    ensures var (t, out) := SqliteStep(env, EMPTY_TABLE, session, Add([item]));
            var calls := AddThenGet(session, item);
            out.Failed? || SqliteStep(env, t, session, Get(None)).1.Failed? ==>
              !SameOuts(RunSqlite(env, EMPTY_TABLE, calls), RunMemory(env, map[], calls))
  {
    hide SqliteStep;
    var add, get := Call(session, Add([item])), Call(session, Get(None));
    var calls := AddThenGet(session, item);
    assert calls[1..] == [get] && [get][1..] == [];
    var (t, out) := SqliteStep(env, EMPTY_TABLE, session, add.op);
    assert RunSqlite(env, t, [get]) == [SqliteStep(env, t, session, get.op).1];
    var log := MemoryStep(env, EMPTY_LOG, add.op).0;
    var f: Family := map[session := log];
    assert RunMemory(env, f, [get]) == [Items(log.items)];
    var a, b := RunSqlite(env, EMPTY_TABLE, calls), RunMemory(env, map[], calls);
    assert a == [out, SqliteStep(env, t, session, get.op).1] && b == [Done, Items(log.items)];
    assert a[0].Failed? ==> !SameOut(a[0], b[0]);
    assert a[1].Failed? ==> !SameOut(a[1], b[1]);
  }

  lemma NotPortableDisagrees(env: Env, session: string, item: SessionItem)
    requires !Portable(env, ToMessage(item))
    ensures var (t, out) := SqliteStep(env, EMPTY_TABLE, session, Add([item]));
            out.Failed? || SqliteStep(env, t, session, Get(None)).1.Failed?
  {
    var payload := Encode(env, ToMessage(item));
    assert [item][1..] == [];
    if payload.Some? {
      assert EncodeAll(env, []) == Some([]) && [payload.value] + [] == [payload.value];
      assert EncodeAll(env, [item]) == Some([payload.value]);
      AddAllInsertsPayloads(env, EMPTY_TABLE, session, [item]);
      WireRoundTrip(env, ToMessage(item));
      InsertAppends(EMPTY_TABLE, session, [payload.value], session);
      SelectionOfNothing(map[], session, 1);
      var t := InsertAll(EMPTY_TABLE, session, [payload.value]).value;
      assert SelectAscending(t.rows, session, t.nextIndex) == [payload.value];
      assert DecodeAll(env, [payload.value]).None?;
    }
  }

  /** A message whose one tool call has no id. */
  const BLANK_CALL := MessageItem(Message(Assistant, "", None, None, [ToolCall("", "", map[], None)], None, None, map[], None))

  /** Whatever the checks of other files accept, this item can be stored by one store and not read back from the other. */
  lemma BlankCallIdDisagrees(env: Env, session: string)
    ensures !Portable(env, ToMessage(BLANK_CALL))
    ensures var calls := AddThenGet(session, BLANK_CALL);
            !SameOuts(RunSqlite(env, EMPTY_TABLE, calls), RunMemory(env, map[], calls))
  {
    assert !CallOk(ToMessage(BLANK_CALL).toolCalls[0]);
    AgreeIffPortable(env, session, BLANK_CALL);
  }
}

/**
 Requests from the server to its clients (app_server/outgoing.rs).

 Every locked section, every use of the id counter and every firing of a callback
 is one atomic step; sends, replies, timeouts and disconnects interleave freely
 between them.  A request is correlated with its
 reply by id (section 5 of the JSON-RPC 2.0 specification); `Token` is the
 identity of its one-shot callback channel.
 */
module Outgoing {
  import opened Common

  type Connection = nat

  type Token = nat

  datatype RequestId = Text(text: string) | Integer(number: int) | Null

  datatype ConnectionState = ConnectionState(readyForNotifications: bool, optOut: set<string>)

  const DEFAULT_CONNECTION := ConnectionState(false, {})

  datatype Pending = Pending(
    connection: Connection,
    method_: string,
    threadId: Option<string>,
    turnId: Option<string>,
    callback: Token)

  datatype Reply = Answer(value: string) | Failure(message: string)

  const CLIENT_DISCONNECTED := Failure("client_disconnected")

  // ---- The locked sections as functions ---------------------------------------

  function Touch(cs: map<Connection, ConnectionState>, c: Connection): map<Connection, ConnectionState> {
    if c in cs then cs else cs[c := DEFAULT_CONNECTION]
  }

  /** The entries left when every request of a connection is drained. */
  function Drain(pending: map<RequestId, Pending>, c: Connection): map<RequestId, Pending> {
    map id | id in pending && pending[id].connection != c :: pending[id]
  }

  function DrainedIds(pending: map<RequestId, Pending>, c: Connection): set<RequestId> {
    set id | id in pending && pending[id].connection == c
  }

  predicate BoundTo(expected: Option<string>, actual: Option<string>) {
    expected.Some? ==> actual == expected
  }

  /** The reply comes from the connection, method, thread and turn of the request. */
  predicate Matches(p: Pending, c: Connection, method_: Option<string>, thread: Option<string>, turn: Option<string>) {
    && p.connection == c
    && BoundTo(method_, Some(p.method_))
    && BoundTo(thread, p.threadId)
    && BoundTo(turn, p.turnId)
  }

  // ---- The interleaved system ---------------------------------------------------

  /**
   Where a `send_server_request` task stands: its entry is inserted and it is about
   to look up the connection; it is handing the message to the channel; it is about
   to remove its entry after a failure; its receiver is awaited; its timer elapsed
   and it is about to remove its entry; it returned.
   */
  datatype Phase = Checking | Sending | Failing | Awaiting | TimedOut | Finished

  datatype Task = Task(connection: Connection, id: RequestId, timed: bool, phase: Phase, inbox: Option<Reply>)

  /** Why an entry left the pending map; the last two name the sender that removed it. */
  datatype Cause =
    | Responded(value: string)
    | Errored(message: string)
    | Disconnected
    | TimeoutRemoval(remover: Token)
    | FailedSendRemoval(remover: Token)

  datatype World = World(
    connections: map<Connection, ConnectionState>,
    pending: map<RequestId, Pending>,
    nextId: nat,
    tasks: map<Token, Task>,
    /** The connections of unregistrations that are between their two locked sections. */
    leaving: multiset<Connection>,
    /** Numbers taken from the counter and not used yet. */
    taken: set<nat>,
    exits: map<Token, seq<Cause>>,
    /** Callbacks taken out of the map and not fired yet, with what they will be given. */
    unfired: map<Token, Reply>,
    fired: map<Token, seq<Reply>>)

  const INITIAL := World(map[], map[], 1, map[], multiset{}, {}, map[], map[], map[])

  datatype Step =
    | Register(c: Connection)
    | Configure(c: Connection, optOut: set<string>)
    | MarkReady(c: Connection)
    | UnregisterBegin(c: Connection)
    | UnregisterFinish(c: Connection)
    | SendWithId(t: Token, c: Connection, id: RequestId, method_: string, thread: Option<string>, turn: Option<string>, timed: bool)
    | TakeId
    | SendGenerated(t: Token, number: nat, c: Connection, method_: string, thread: Option<string>, turn: Option<string>, timed: bool)
    | CheckConnection(t: Token)
    | ChannelSend(t: Token, accepted: bool)
    | CleanupFailedSend(t: Token)
    | TimerElapsed(t: Token)
    | CleanupTimeout(t: Token)
    | ReceiverReturns(t: Token)
    | Respond(c: Connection, boundMethod: Option<string>, boundThread: Option<string>, boundTurn: Option<string>, id: RequestId, value: string)
    | RespondError(c: Connection, id: RequestId, message: string)
    | Fire(t: Token)

  function CausesOf(w: World, t: Token): seq<Cause> {
    if t in w.exits then w.exits[t] else []
  }

  function UnfiredOf(w: World, t: Token): seq<Reply> {
    if t in w.unfired then [w.unfired[t]] else []
  }

  function FiredOf(w: World, t: Token): seq<Reply> {
    if t in w.fired then w.fired[t] else []
  }

  predicate ReceiverAlive(task: Task) {
    task.phase.Checking? || task.phase.Sending? || task.phase.Failing? || task.phase.Awaiting?
  }

  /** What a cause gives the callback; a cleanup drops it instead. */
  function Owed(cause: Cause): seq<Reply> {
    match cause
    case Responded(v) => [Answer(v)]
    case Errored(m) => [Failure(m)]
    case Disconnected => [CLIENT_DISCONNECTED]
    case _ => []
  }

  /** Remove one entry, if present, for the given cause; its callback is to be fired, or is dropped. */
  function Remove(w: World, id: RequestId, cause: Cause): World {
    if id !in w.pending then w
    else
      var t := w.pending[id].callback;
      w.(pending := w.pending - {id},
         exits := w.exits[t := CausesOf(w, t) + [cause]],
         unfired := if Owed(cause) == [] then w.unfired else w.unfired[t := Owed(cause)[0]])
  }

  function DrainedTokens(w: World, c: Connection): set<Token> {
    set id | id in DrainedIds(w.pending, c) :: w.pending[id].callback
  }

  function DrainAll(w: World, c: Connection): World {
    var gone := DrainedTokens(w, c);
    w.(pending := Drain(w.pending, c),
       exits := map t | t in w.exits.Keys + gone :: if t in gone then CausesOf(w, t) + [Disconnected] else w.exits[t],
       unfired := map t | t in w.unfired.Keys + gone :: if t in gone then CLIENT_DISCONNECTED else w.unfired[t])
  }

  /** `callback.send`: the one-shot channel takes the value when its receiver still exists. */
  function FireCallback(w: World, t: Token): World
    requires t in w.unfired
  {
    var reply := w.unfired[t];
    w.(unfired := w.unfired - {t},
       fired := w.fired[t := FiredOf(w, t) + [reply]],
       tasks := if t in w.tasks && ReceiverAlive(w.tasks[t]) then w.tasks[t := w.tasks[t].(inbox := Some(reply))] else w.tasks)
  }

  function Insert(w: World, t: Token, c: Connection, id: RequestId, m: string, th: Option<string>, tu: Option<string>, timed: bool): World {
    if id.Null? || id in w.pending then w
    else w.(pending := w.pending[id := Pending(c, m, th, tu, t)],
            tasks := w.tasks[t := Task(c, id, timed, Checking, None)])
  }

  function GoTo(w: World, t: Token, phase: Phase): World
    requires t in w.tasks
  {
    w.(tasks := w.tasks[t := w.tasks[t].(phase := phase)])
  }

  function Digit(n: nat): char
    requires n < 10
  {
    "0123456789"[n]
  }

  function Decimal(n: nat): string {
    if n < 10 then [Digit(n)] else Decimal(n / 10) + [Digit(n % 10)]
  }

  function GeneratedId(n: nat): RequestId {
    Text("srvreq_" + Decimal(n))
  }

  /** The token of a send is new: each send makes its own callback channel. */
  predicate Enabled(w: World, s: Step) {
    match s
    case SendWithId(t, _, _, _, _, _, _) => t !in w.tasks && t !in w.exits
    case SendGenerated(t, n, _, _, _, _, _) => t !in w.tasks && t !in w.exits && n in w.taken
    case Fire(t) => t in w.unfired
    case UnregisterFinish(c) => c in w.leaving
    case CheckConnection(t) => t in w.tasks && w.tasks[t].phase == Checking
    case ChannelSend(t, _) => t in w.tasks && w.tasks[t].phase == Sending
    case CleanupFailedSend(t) => t in w.tasks && w.tasks[t].phase == Failing
    case TimerElapsed(t) =>
      t in w.tasks && w.tasks[t].phase == Awaiting && w.tasks[t].timed && w.tasks[t].inbox.None?
    case CleanupTimeout(t) => t in w.tasks && w.tasks[t].phase == TimedOut
    case ReceiverReturns(t) =>
      // a timed wait ends with a reply or a dropped callback; an untimed receiver may also be dropped by its owner
      t in w.tasks && w.tasks[t].phase == Awaiting && (w.tasks[t].timed ==> !IsPending(w, t) && t !in w.unfired)
    case _ => true
  }

  function Apply(w: World, s: Step): World
    requires Enabled(w, s)
  {
    match s
    case Register(c) => w.(connections := Touch(w.connections, c))
    case Configure(c, optOut) =>
      var cs := Touch(w.connections, c);
      w.(connections := cs[c := cs[c].(optOut := optOut)])
    case MarkReady(c) =>
      var cs := Touch(w.connections, c);
      w.(connections := cs[c := cs[c].(readyForNotifications := true)])
    case UnregisterBegin(c) => w.(connections := w.connections - {c}, leaving := w.leaving + multiset{c})
    case UnregisterFinish(c) => DrainAll(w, c).(leaving := w.leaving - multiset{c})
    case SendWithId(t, c, id, m, th, tu, timed) => Insert(w, t, c, id, m, th, tu, timed)
    case TakeId => w.(taken := w.taken + {w.nextId}, nextId := w.nextId + 1)
    case SendGenerated(t, n, c, m, th, tu, timed) =>
      Insert(w, t, c, GeneratedId(n), m, th, tu, timed).(taken := w.taken - {n})
    case CheckConnection(t) => GoTo(w, t, if w.tasks[t].connection in w.connections then Sending else Failing)
    case ChannelSend(t, accepted) => GoTo(w, t, if accepted then Awaiting else Failing)
    case CleanupFailedSend(t) => GoTo(Remove(w, w.tasks[t].id, FailedSendRemoval(t)), t, Finished)
    case TimerElapsed(t) => GoTo(w, t, TimedOut)
    case CleanupTimeout(t) => GoTo(Remove(w, w.tasks[t].id, TimeoutRemoval(t)), t, Finished)
    case ReceiverReturns(t) => GoTo(w, t, Finished)
    case Respond(c, m, th, tu, id, value) =>
      if id in w.pending && Matches(w.pending[id], c, m, th, tu) then Remove(w, id, Responded(value)) else w
    case RespondError(c, id, message) =>
      if id in w.pending && w.pending[id].connection == c then Remove(w, id, Errored(message)) else w
    case Fire(t) => FireCallback(w, t)
  }

  predicate Legal(w: World, steps: seq<Step>)
    decreases |steps|
  {
    steps == [] || (Enabled(w, steps[0]) && Legal(Apply(w, steps[0]), steps[1..]))
  }

  function Run(w: World, steps: seq<Step>): World
    requires Legal(w, steps)
    decreases |steps|
  {
    if steps == [] then w else Run(Apply(w, steps[0]), steps[1..])
  }

  // ---- Safety -------------------------------------------------------------------

  predicate IsPending(w: World, t: Token)
    requires t in w.tasks
  {
    w.tasks[t].id in w.pending && w.pending[w.tasks[t].id].callback == t
  }

  /**
   Each pending entry belongs to its own sender, and its connection is registered,
   or an unregistration of it is between its two phases, or its sender has yet to
   look the connection up or to clean up after a failed send.
   */
  predicate EntryOk(w: World, id: RequestId)
    requires id in w.pending
  {
    var p := w.pending[id];
    && p.callback in w.tasks
    && w.tasks[p.callback].id == id
    && w.tasks[p.callback].connection == p.connection
    && (|| p.connection in w.connections
        || p.connection in w.leaving
        || w.tasks[p.callback].phase.Checking?
        || w.tasks[p.callback].phase.Failing?)
  }

  /**
   A request is pending, or left for exactly one cause; what its callback was given and
   has yet to be given is exactly what that cause owes; a live receiver holds what the
   callback was given, and one whose time was up holds nothing; a timed request that
   returned has left.
   */
  predicate TaskOk(w: World, t: Token)
    requires t in w.tasks
  {
    var task, causes := w.tasks[t], CausesOf(w, t);
    && (if IsPending(w, t) then causes == [] else |causes| == 1)
    && FiredOf(w, t) + UnfiredOf(w, t) == (if causes == [] then [] else Owed(causes[0]))
    && (task.inbox.Some? ==> FiredOf(w, t) == [task.inbox.value])
    && (ReceiverAlive(task) && FiredOf(w, t) != [] ==> task.inbox.Some?)
    && (task.timed && task.phase.Finished? ==> !IsPending(w, t))
    && (task.phase.TimedOut? ==> task.inbox.None?)
  }

  predicate Known(w: World, t: Token) {
    t in w.exits || t in w.unfired || t in w.fired ==> t in w.tasks
  }

  ghost predicate Invariant(w: World) {
    && (forall id :: id in w.pending ==> EntryOk(w, id))
    && (forall t :: t in w.tasks ==> TaskOk(w, t))
    && (forall t :: Known(w, t))
  }

  lemma RemoveKeepsTask(w: World, id: RequestId, cause: Cause, t: Token)
    requires id in w.pending && EntryOk(w, id) && t in w.tasks && TaskOk(w, t)
    ensures TaskOk(Remove(w, id, cause), t)
  {
  }

  lemma RemoveKeepsEntry(w: World, id: RequestId, cause: Cause, j: RequestId)
    requires j in w.pending && EntryOk(w, j) && j in Remove(w, id, cause).pending
    ensures EntryOk(Remove(w, id, cause), j)
  {
  }

  lemma RemoveKeepsInvariant(w: World, id: RequestId, cause: Cause)
    requires Invariant(w)
    ensures Invariant(Remove(w, id, cause))
    ensures Remove(w, id, cause).tasks == w.tasks && id !in Remove(w, id, cause).pending
  {
    hide TaskOk;
    if id in w.pending {
      var w' := Remove(w, id, cause);
      assert EntryOk(w, id);
      forall j | j in w'.pending ensures EntryOk(w', j) {
        assert EntryOk(w, j);
        RemoveKeepsEntry(w, id, cause, j);
      }
      forall t | t in w'.tasks ensures TaskOk(w', t) {
        assert TaskOk(w, t);
        RemoveKeepsTask(w, id, cause, t);
      }
      forall t ensures Known(w', t) {
        assert Known(w, t);
      }
    }
  }

  function Drained(w: World, c: Connection): World {
    DrainAll(w, c).(leaving := w.leaving - multiset{c})
  }

  lemma DrainedExactly(w: World, c: Connection, t: Token)
    requires Invariant(w)
    ensures t in DrainedTokens(w, c) <==> t in w.tasks && IsPending(w, t) && w.tasks[t].connection == c
  {
    hide TaskOk;
    if t in DrainedTokens(w, c) {
      var id :| id in DrainedIds(w.pending, c) && w.pending[id].callback == t;
      assert EntryOk(w, id);
    }
    if t in w.tasks && IsPending(w, t) && w.tasks[t].connection == c {
      assert EntryOk(w, w.tasks[t].id);
      assert w.tasks[t].id in DrainedIds(w.pending, c);
    }
  }

  lemma DrainKeepsEntry(w: World, c: Connection, id: RequestId)
    requires id in w.pending && EntryOk(w, id) && w.pending[id].connection != c
    ensures EntryOk(Drained(w, c), id)
  {
    hide DrainedTokens;
  }

  lemma DrainKeepsTask(w: World, c: Connection, t: Token)
    requires t in w.tasks && TaskOk(w, t) && (IsPending(w, t) ==> EntryOk(w, w.tasks[t].id))
    requires t in DrainedTokens(w, c) <==> IsPending(w, t) && w.tasks[t].connection == c
    ensures TaskOk(Drained(w, c), t)
  {
    hide DrainedTokens;
  }

  lemma DrainKeepsInvariant(w: World, c: Connection)
    requires Invariant(w)
    ensures Invariant(Drained(w, c))
  {
    hide TaskOk, EntryOk, DrainedTokens;
    var w' := Drained(w, c);
    forall id | id in w'.pending ensures EntryOk(w', id) {
      assert EntryOk(w, id);
      DrainKeepsEntry(w, c, id);
    }
    forall t | t in w'.tasks ensures TaskOk(w', t) {
      assert TaskOk(w, t);
      DrainedExactly(w, c, t);
      DrainKeepsTask(w, c, t);
    }
    forall t ensures Known(w', t) {
      assert Known(w, t);
      DrainedExactly(w, c, t);
    }
  }

  lemma InsertKeepsInvariant(w: World, t: Token, c: Connection, id: RequestId, m: string, th: Option<string>, tu: Option<string>, timed: bool)
    requires Invariant(w) && t !in w.tasks && t !in w.exits
    ensures Invariant(Insert(w, t, c, id, m, th, tu, timed))
  {
    hide TaskOk;
    var w' := Insert(w, t, c, id, m, th, tu, timed);
    assert Known(w, t);
    if !id.Null? && id !in w.pending {
      forall j | j in w'.pending ensures EntryOk(w', j) {
        if j != id { assert EntryOk(w, j); }
      }
      forall u | u in w'.tasks ensures TaskOk(w', u) {
        assert u != t ==> TaskOk(w, u);
        InsertKeepsTask(w, t, c, id, m, th, tu, timed, u);
      }
      forall u ensures Known(w', u) {
        assert Known(w, u);
      }
    }
  }

  lemma InsertKeepsTask(w: World, t: Token, c: Connection, id: RequestId, m: string, th: Option<string>, tu: Option<string>, timed: bool, u: Token)
    requires t !in w.tasks && Known(w, t) && !id.Null? && id !in w.pending
    requires u != t ==> u in w.tasks && TaskOk(w, u)
    ensures u in Insert(w, t, c, id, m, th, tu, timed).tasks && TaskOk(Insert(w, t, c, id, m, th, tu, timed), u)
  {
  }

  /** A task may move on when its entry stays covered and a timed task returns only without one. */
  lemma GoToKeepsInvariant(w: World, t: Token, phase: Phase)
    requires Invariant(w) && t in w.tasks
    requires ReceiverAlive(w.tasks[t].(phase := phase)) ==> ReceiverAlive(w.tasks[t])
    requires w.tasks[t].phase.Checking? || w.tasks[t].phase.Failing? ==>
               phase.Checking? || phase.Failing? || w.tasks[t].connection in w.connections || !IsPending(w, t)
    requires phase.Finished? && w.tasks[t].timed ==> !IsPending(w, t)
    requires phase.TimedOut? ==> w.tasks[t].inbox.None?
    ensures Invariant(GoTo(w, t, phase))
  {
    hide TaskOk;
    var w' := GoTo(w, t, phase);
    forall id | id in w'.pending ensures EntryOk(w', id) {
      assert EntryOk(w, id);
    }
    forall u | u in w'.tasks ensures TaskOk(w', u) {
      assert TaskOk(w, u);
      GoToKeepsTask(w, t, phase, u);
    }
    forall u ensures Known(w', u) {
      assert Known(w, u);
    }
  }

  lemma GoToKeepsTask(w: World, t: Token, phase: Phase, u: Token)
    requires t in w.tasks && u in w.tasks && TaskOk(w, u)
    requires ReceiverAlive(w.tasks[t].(phase := phase)) ==> ReceiverAlive(w.tasks[t])
    requires phase.Finished? && w.tasks[t].timed ==> !IsPending(w, t)
    requires phase.TimedOut? ==> w.tasks[t].inbox.None?
    ensures TaskOk(GoTo(w, t, phase), u)
  {
  }

  /** Changing only the connections and the counter keeps the invariant if each dropped connection is marked as leaving. */
  lemma ConnectionsKeepInvariant(w: World, w': World)
    requires Invariant(w)
    requires w' == w.(connections := w'.connections, leaving := w'.leaving, nextId := w'.nextId, taken := w'.taken)
    requires forall c :: c in w.connections || c in w.leaving ==> c in w'.connections || c in w'.leaving
    ensures Invariant(w')
  {
    forall id | id in w'.pending ensures EntryOk(w', id) {
      assert EntryOk(w, id);
    }
    forall t | t in w'.tasks ensures TaskOk(w', t) {
      assert TaskOk(w, t);
    }
    forall t ensures Known(w', t) {
      assert Known(w, t);
    }
  }

  lemma CleanupKeepsInvariant(w: World, t: Token, cause: Cause)
    requires Invariant(w) && t in w.tasks
    ensures Invariant(GoTo(Remove(w, w.tasks[t].id, cause), t, Finished))
  {
    hide Invariant;
    RemoveKeepsInvariant(w, w.tasks[t].id, cause);
    GoToKeepsInvariant(Remove(w, w.tasks[t].id, cause), t, Finished);
  }

  lemma FireKeepsTask(w: World, t: Token, u: Token)
    requires t in w.unfired && t in w.tasks && TaskOk(w, t) && u in w.tasks && TaskOk(w, u)
    ensures TaskOk(FireCallback(w, t), u)
  {
    if u == t {
      assert |Owed(CausesOf(w, t)[0])| <= 1;
      assert FiredOf(w, t) == [];
    }
  }

  lemma FireKeepsInvariant(w: World, t: Token)
    requires Invariant(w) && t in w.unfired
    ensures Invariant(FireCallback(w, t))
  {
    hide TaskOk;
    var w' := FireCallback(w, t);
    assert Known(w, t);
    assert TaskOk(w, t);
    forall id | id in w'.pending ensures EntryOk(w', id) {
      assert EntryOk(w, id);
    }
    forall u | u in w'.tasks ensures TaskOk(w', u) {
      assert TaskOk(w, u);
      FireKeepsTask(w, t, u);
    }
    forall u ensures Known(w', u) {
      assert Known(w, u);
    }
  }

  lemma StepKeepsInvariant(w: World, s: Step)
    requires Invariant(w) && Enabled(w, s)
    ensures Invariant(Apply(w, s))
  {
    hide Invariant, Remove, DrainAll, Insert, FireCallback, GoTo, Matches;
    match s
    case Register(c) => ConnectionsKeepInvariant(w, Apply(w, s));
    case Configure(c, _) => ConnectionsKeepInvariant(w, Apply(w, s));
    case MarkReady(c) => ConnectionsKeepInvariant(w, Apply(w, s));
    case UnregisterBegin(c) => ConnectionsKeepInvariant(w, Apply(w, s));
    case UnregisterFinish(c) => DrainKeepsInvariant(w, c);
    case SendWithId(t, c, id, m, th, tu, timed) => InsertKeepsInvariant(w, t, c, id, m, th, tu, timed);
    case TakeId => ConnectionsKeepInvariant(w, Apply(w, s));
    case SendGenerated(t, n, c, m, th, tu, timed) =>
      InsertKeepsInvariant(w, t, c, GeneratedId(n), m, th, tu, timed);
      ConnectionsKeepInvariant(Insert(w, t, c, GeneratedId(n), m, th, tu, timed), Apply(w, s));
    case CheckConnection(t) => GoToKeepsInvariant(w, t, if w.tasks[t].connection in w.connections then Sending else Failing);
    case ChannelSend(t, accepted) => GoToKeepsInvariant(w, t, if accepted then Awaiting else Failing);
    case CleanupFailedSend(t) => CleanupKeepsInvariant(w, t, FailedSendRemoval(t));
    case TimerElapsed(t) => GoToKeepsInvariant(w, t, TimedOut);
    case CleanupTimeout(t) => CleanupKeepsInvariant(w, t, TimeoutRemoval(t));
    case ReceiverReturns(t) => GoToKeepsInvariant(w, t, Finished);
    case Respond(c, m, th, tu, id, value) => RemoveKeepsInvariant(w, id, Responded(value));
    case RespondError(c, id, message) => RemoveKeepsInvariant(w, id, Errored(message));
    case Fire(t) => FireKeepsInvariant(w, t);
  }

  /** Every interleaving keeps the invariant, with or without reused request ids. */
  lemma {:induction false} RunKeepsInvariant(w: World, steps: seq<Step>)
    requires Invariant(w) && Legal(w, steps)
    ensures Invariant(Run(w, steps))
    decreases |steps|
  {
    hide Invariant, Apply;
    if steps != [] {
      StepKeepsInvariant(w, steps[0]);
      RunKeepsInvariant(Apply(w, steps[0]), steps[1..]);
    }
  }

  predicate AtRest(w: World) {
    && w.leaving == multiset{}
    && forall t :: t in w.tasks ==> w.tasks[t].phase.Awaiting? || w.tasks[t].phase.Finished?
  }

  /** At rest, no request is pending on a departed connection. */
  lemma NothingPendsOnADepartedConnection(steps: seq<Step>, id: RequestId)
    requires Legal(INITIAL, steps)
    ensures var w := Run(INITIAL, steps);
            AtRest(w) && id in w.pending ==> w.pending[id].connection in w.connections
  {
    RunKeepsInvariant(INITIAL, steps);
    var w := Run(INITIAL, steps);
    if id in w.pending {
      assert EntryOk(w, id);
    }
  }

  /**
   Every request that was accepted is pending or has left for exactly one cause; its
   callback fires at most once, with what that cause owes, and a receiver holds nothing else.
   */
  lemma RequestsLeaveExactlyOnce(steps: seq<Step>, t: Token)
    requires Legal(INITIAL, steps)
    ensures var w := Run(INITIAL, steps);
            t in w.tasks ==>
              && (if IsPending(w, t) then CausesOf(w, t) == [] else |CausesOf(w, t)| == 1)
              && |FiredOf(w, t)| <= 1
              && (FiredOf(w, t) != [] ==> CausesOf(w, t) != [] && FiredOf(w, t) == Owed(CausesOf(w, t)[0]))
              && (t !in w.unfired && CausesOf(w, t) != [] ==> FiredOf(w, t) == Owed(CausesOf(w, t)[0]))
              && (w.tasks[t].inbox.Some? ==> FiredOf(w, t) == [w.tasks[t].inbox.value])
              && (ReceiverAlive(w.tasks[t]) && FiredOf(w, t) != [] ==> w.tasks[t].inbox.Some?)
              && (w.tasks[t].phase.TimedOut? ==> w.tasks[t].inbox.None?)
              && (w.tasks[t].timed && w.tasks[t].phase.Finished? ==> !IsPending(w, t))
  {
    RunKeepsInvariant(INITIAL, steps);
    var w := Run(INITIAL, steps);
    if t in w.tasks {
      assert TaskOk(w, t);
    }
  }

  /** The request of `t` is pending under `id`. */
  predicate PendsUnder(w: World, id: RequestId, t: Token) {
    id in w.pending && w.pending[id].callback == t
  }

  /** The cause a step adds to a request, if any. */
  function NewCauses(w: World, s: Step, t: Token): seq<Cause>
    requires Enabled(w, s)
  {
    match s
    case UnregisterFinish(c) => if t in DrainedTokens(w, c) then [Disconnected] else []
    case CleanupFailedSend(u) => if PendsUnder(w, w.tasks[u].id, t) then [FailedSendRemoval(u)] else []
    case CleanupTimeout(u) => if PendsUnder(w, w.tasks[u].id, t) then [TimeoutRemoval(u)] else []
    case Respond(c, m, th, tu, id, value) =>
      if PendsUnder(w, id, t) && Matches(w.pending[id], c, m, th, tu) then [Responded(value)] else []
    case RespondError(c, id, message) =>
      if PendsUnder(w, id, t) && w.pending[id].connection == c then [Errored(message)] else []
    case _ => []
  }

  lemma RemoveCauses(w: World, id: RequestId, cause: Cause, t: Token)
    ensures CausesOf(Remove(w, id, cause), t) == CausesOf(w, t) + if PendsUnder(w, id, t) then [cause] else []
  {
  }

  lemma DrainCauses(w: World, c: Connection, t: Token)
    ensures CausesOf(DrainAll(w, c), t) == CausesOf(w, t) + if t in DrainedTokens(w, c) then [Disconnected] else []
  {
    hide DrainedTokens;
  }

  /** The steps that take no entry out. */
  predicate TakesNothing(s: Step) {
    !s.UnregisterFinish? && !s.CleanupFailedSend? && !s.CleanupTimeout? && !s.Respond? && !s.RespondError?
  }

  lemma TakesNoCause(w: World, s: Step)
    requires Enabled(w, s) && TakesNothing(s)
    ensures Apply(w, s).exits == w.exits
  {
    hide GeneratedId;
  }

  lemma StepCauses(w: World, s: Step, t: Token)
    requires Enabled(w, s)
    ensures CausesOf(Apply(w, s), t) == CausesOf(w, t) + NewCauses(w, s, t)
  {
    if TakesNothing(s) {
      TakesNoCause(w, s);
    } else {
      EntriesTakenOut(w, s, t);
    }
  }

  lemma EntriesTakenOut(w: World, s: Step, t: Token)
    requires Enabled(w, s) && !TakesNothing(s)
    ensures CausesOf(Apply(w, s), t) == CausesOf(w, t) + NewCauses(w, s, t)
  {
    hide Remove, DrainAll, DrainedTokens, Matches, PendsUnder;
    match s
    case UnregisterFinish(c) => DrainCauses(w, c, t);
    case CleanupFailedSend(u) => RemoveCauses(w, w.tasks[u].id, FailedSendRemoval(u), t);
    case CleanupTimeout(u) => RemoveCauses(w, w.tasks[u].id, TimeoutRemoval(u), t);
    case Respond(_, _, _, _, id, value) => RemoveCauses(w, id, Responded(value), t); NothingPendsUnder(w, id, t);
    case RespondError(_, id, message) => RemoveCauses(w, id, Errored(message), t); NothingPendsUnder(w, id, t);
  }

  lemma NothingPendsUnder(w: World, id: RequestId, t: Token)
    ensures PendsUnder(w, id, t) ==> id in w.pending
  {
  }

  /** A cause, once recorded, is never rewritten. */
  lemma {:induction false} CausesArePermanent(w: World, steps: seq<Step>, t: Token)
    requires Legal(w, steps)
    ensures CausesOf(w, t) <= CausesOf(Run(w, steps), t)
    decreases |steps|
  {
    hide Apply, CausesOf, NewCauses;
    if steps != [] {
      StepCauses(w, steps[0], t);
      CausesArePermanent(Apply(w, steps[0]), steps[1..], t);
    }
  }

  /** A reply changes something exactly when it names a pending request of that connection, method, thread and turn. */
  lemma ForeignRepliesChangeNothing(w: World, c: Connection, m: Option<string>, th: Option<string>, tu: Option<string>, id: RequestId, value: string)
    requires Invariant(w)
    ensures var w' := Apply(w, Respond(c, m, th, tu, id, value));
            if id in w.pending && w.pending[id].connection == c && (m.Some? ==> m.value == w.pending[id].method_)
               && (th.Some? ==> w.pending[id].threadId == th) && (tu.Some? ==> w.pending[id].turnId == tu)
            then TakenOut(w, w', id, Responded(value))
            else w' == w
    ensures var w' := Apply(w, RespondError(c, id, value));
            if id in w.pending && w.pending[id].connection == c
            then TakenOut(w, w', id, Errored(value))
            else w' == w
  {
    hide Invariant, TakenOut, Remove;
    if id in w.pending {
      RemovedIsTakenOut(w, id, Responded(value));
      RemovedIsTakenOut(w, id, Errored(value));
    }
  }

  /** Exactly the request under `id` left, for this cause, and its callback is to be fired with what the cause owes. */
  ghost predicate TakenOut(w: World, w': World, id: RequestId, cause: Cause)
    requires id in w.pending
  {
    var t := w.pending[id].callback;
    && w'.pending == w.pending - {id}
    && CausesOf(w', t) == [cause] && UnfiredOf(w', t) == Owed(cause)
    && (forall u :: u != t ==> CausesOf(w', u) == CausesOf(w, u) && UnfiredOf(w', u) == UnfiredOf(w, u))
    && w' == w.(pending := w'.pending, exits := w'.exits, unfired := w'.unfired)
  }

  lemma RemovedIsTakenOut(w: World, id: RequestId, cause: Cause)
    requires Invariant(w) && id in w.pending && Owed(cause) != []
    ensures TakenOut(w, Remove(w, id, cause), id, cause)
  {
    var t, w' := w.pending[id].callback, Remove(w, id, cause);
    EntryHasNoCause(w, id);
    forall u ensures CausesOf(w', u) == CausesOf(w, u) + if u == t then [cause] else [] {
      RemoveCauses(w, id, cause, u);
    }
    hide Invariant, CausesOf;
    assert |Owed(cause)| == 1;
  }

  lemma EntryHasNoCause(w: World, id: RequestId)
    requires Invariant(w) && id in w.pending
    ensures CausesOf(w, w.pending[id].callback) == []
  {
    assert EntryOk(w, id);
    assert TaskOk(w, w.pending[id].callback);
  }

  // ---- Whose removal was it? --------------------------------------------------------

  /** The removals a task makes after a failed send or a timeout hit only its own entry. */
  ghost predicate OwnRemovals(w: World) {
    forall t :: OwnCauses(CausesOf(w, t), t)
  }

  predicate UniqueIds(w: World) {
    forall t, u :: t in w.tasks && u in w.tasks && t != u ==> w.tasks[t].id != w.tasks[u].id
  }

  function IdOf(s: Step): RequestId
    requires s.SendWithId? || s.SendGenerated?
  {
    if s.SendWithId? then s.id else GeneratedId(s.number)
  }

  /** No send reuses an id that an earlier accepted send used. */
  predicate FreshIds(w: World, steps: seq<Step>)
    requires Legal(w, steps)
    decreases |steps|
  {
    steps == [] ||
    (&& (steps[0].SendWithId? || steps[0].SendGenerated? ==>
           forall t :: t in w.tasks ==> w.tasks[t].id != IdOf(steps[0]))
     && FreshIds(Apply(w, steps[0]), steps[1..]))
  }

  /** Steps never drop a task or change its id or connection, and only a send adds one. */
  lemma TasksAfter(w: World, s: Step, t: Token)
    requires Enabled(w, s)
    ensures t in w.tasks ==>
              && t in Apply(w, s).tasks && Apply(w, s).tasks[t].id == w.tasks[t].id
              && Apply(w, s).tasks[t].connection == w.tasks[t].connection && Apply(w, s).tasks[t].timed == w.tasks[t].timed
    ensures t in Apply(w, s).tasks && t !in w.tasks ==>
              (s.SendWithId? || s.SendGenerated?) && t == s.t && Apply(w, s).tasks[t].id == IdOf(s)
  {
    hide GeneratedId, Matches, DrainedTokens, Drain;
  }

  /** A cleanup names the sender that made it, and removes only an entry under that sender's id. */
  lemma CausesAfter(w: World, s: Step, t: Token)
    requires Enabled(w, s)
    ensures forall i :: 0 <= i < |NewCauses(w, s, t)| ==>
              match NewCauses(w, s, t)[i]
              case TimeoutRemoval(u) => u in w.tasks && PendsUnder(w, w.tasks[u].id, t)
              case FailedSendRemoval(u) => u in w.tasks && PendsUnder(w, w.tasks[u].id, t)
              case _ => true
  {
  }

  predicate OwnCauses(causes: seq<Cause>, t: Token) {
    forall i :: 0 <= i < |causes| ==>
      match causes[i]
      case TimeoutRemoval(remover) => remover == t
      case FailedSendRemoval(remover) => remover == t
      case _ => true
  }

  lemma StepKeepsOwnCauses(w: World, s: Step, t: Token)
    requires Invariant(w) && UniqueIds(w) && Enabled(w, s) && OwnCauses(CausesOf(w, t), t)
    ensures OwnCauses(CausesOf(Apply(w, s), t), t)
  {
    hide Apply, Enabled, Invariant, NewCauses, CausesOf;
    StepCauses(w, s, t);
    CausesAfter(w, s, t);
    UniqueIdsMeanOwnEntry(w, t);
  }

  lemma StepKeepsUniqueIds(w: World, s: Step)
    requires UniqueIds(w) && Enabled(w, s)
    requires s.SendWithId? || s.SendGenerated? ==> forall t :: t in w.tasks ==> w.tasks[t].id != IdOf(s)
    ensures UniqueIds(Apply(w, s))
  {
    hide Apply, Enabled;
    var w' := Apply(w, s);
    forall t, u | t in w'.tasks && u in w'.tasks && t != u ensures w'.tasks[t].id != w'.tasks[u].id {
      TasksAfter(w, s, t);
      TasksAfter(w, s, u);
    }
  }

  lemma UniqueIdsMeanOwnEntry(w: World, t: Token)
    requires Invariant(w) && UniqueIds(w)
    ensures forall u :: u in w.tasks && PendsUnder(w, w.tasks[u].id, t) ==> u == t
  {
    hide TaskOk;
    forall u | u in w.tasks && PendsUnder(w, w.tasks[u].id, t) ensures u == t {
      assert EntryOk(w, w.tasks[u].id);
    }
  }

  /** With fresh ids every request leaves by its own response, error, disconnect, timeout or failed send. */
  lemma {:induction false} FreshIdsMeanOwnRemovals(w: World, steps: seq<Step>)
    requires Invariant(w) && OwnRemovals(w) && UniqueIds(w)
    requires Legal(w, steps) && FreshIds(w, steps)
    ensures OwnRemovals(Run(w, steps))
    decreases |steps|
  {
    hide Apply, Invariant, UniqueIds, CausesOf, OwnCauses;
    if steps != [] {
      StepKeepsInvariant(w, steps[0]);
      StepKeepsUniqueIds(w, steps[0]);
      forall t ensures OwnCauses(CausesOf(Apply(w, steps[0]), t), t) {
        StepKeepsOwnCauses(w, steps[0], t);
      }
      FreshIdsMeanOwnRemovals(Apply(w, steps[0]), steps[1..]);
    }
  }

  /** A cleanup removes another task's entry exactly when that task reused the id and is pending on it. */
  lemma ForeignRemovalIffIdReused(w: World, t: Token, cause: Cause)
    requires Invariant(w) && t in w.tasks
    ensures (exists u :: u != t && CausesOf(Remove(w, w.tasks[t].id, cause), u) != CausesOf(w, u)) <==>
            (exists u :: u in w.tasks && u != t && w.tasks[u].id == w.tasks[t].id && IsPending(w, u))
  {
    hide TaskOk, Remove, CausesOf;
    var id := w.tasks[t].id;
    forall u ensures CausesOf(Remove(w, id, cause), u) != CausesOf(w, u) <==> PendsUnder(w, id, u) {
      RemoveCauses(w, id, cause, u);
    }
    if id in w.pending {
      var u := w.pending[id].callback;
      assert EntryOk(w, id) && PendsUnder(w, id, u);
      assert u != t ==> IsPending(w, u);
    }
  }

  /** A timed request is sent on connection 1 and its timer elapses. */
  function SentAndExpired(id: RequestId): seq<Step> {
    [Register(1), SendWithId(0, 1, id, "m", None, None, true), CheckConnection(0), ChannelSend(0, true), TimerElapsed(0)]
  }

  /** Its answer arrives late, and the id is reused before it cleans up after the timeout. */
  function AnsweredLateAndReused(id: RequestId): seq<Step> {
    [Respond(1, None, None, None, id, "late"), SendWithId(1, 1, id, "m", None, None, true), CleanupTimeout(0)]
  }

  function InPhase(id: RequestId, phase: Phase): World {
    World(map[1 := DEFAULT_CONNECTION], map[id := Pending(1, "m", None, None, 0)], 1,
          map[0 := Task(1, id, true, phase, None)], multiset{}, {}, map[], map[], map[])
  }

  lemma MovesOn(id: RequestId, phase: Phase, s: Step, phase': Phase, rest: seq<Step>)
    requires Enabled(InPhase(id, phase), s) && Apply(InPhase(id, phase), s) == GoTo(InPhase(id, phase), 0, phase')
    requires Legal(InPhase(id, phase'), rest)
    ensures Legal(InPhase(id, phase), [s] + rest)
    ensures Run(InPhase(id, phase), [s] + rest) == Run(InPhase(id, phase'), rest)
  {
    assert GoTo(InPhase(id, phase), 0, phase').tasks == InPhase(id, phase').tasks;
    LegalCons(InPhase(id, phase), s, rest);
  }

  lemma FirstExpires(id: RequestId)
    requires !id.Null?
    ensures Legal(INITIAL, SentAndExpired(id))
    ensures Run(INITIAL, SentAndExpired(id)) == InPhase(id, TimedOut)
  {
    var steps := SentAndExpired(id);
    SentIsAwaited(id);
    FirstIsSent(id);
    hide Enabled, Apply;
    LegalCons(Apply(INITIAL, steps[0]), steps[1], steps[2..]);
    LegalCons(INITIAL, steps[0], steps[1..]);
  }

  lemma SentIsAwaited(id: RequestId)
    requires !id.Null?
    ensures Legal(InPhase(id, Checking), SentAndExpired(id)[2..])
    ensures Run(InPhase(id, Checking), SentAndExpired(id)[2..]) == InPhase(id, TimedOut)
  {
    var steps := SentAndExpired(id);
    MovesOn(id, Awaiting, steps[4], TimedOut, []);
    MovesOn(id, Sending, steps[3], Awaiting, steps[4..]);
    MovesOn(id, Checking, steps[2], Sending, steps[3..]);
  }

  lemma FirstIsSent(id: RequestId)
    requires !id.Null?
    ensures var s0, s1 := SentAndExpired(id)[0], SentAndExpired(id)[1];
            && Enabled(INITIAL, s0) && Enabled(Apply(INITIAL, s0), s1)
            && Apply(Apply(INITIAL, s0), s1) == InPhase(id, Checking)
  {
  }

  /** With a reused id, the late cleanup of one request removes another that is still being sent. */
  lemma ReusedIdLosesARequest(id: RequestId)
    requires !id.Null?
    ensures Legal(INITIAL, SentAndExpired(id)) && Legal(Run(INITIAL, SentAndExpired(id)), AnsweredLateAndReused(id))
    ensures var w := Run(Run(INITIAL, SentAndExpired(id)), AnsweredLateAndReused(id));
            && 1 in w.tasks && w.tasks[1].phase == Checking && w.tasks[1].connection in w.connections
            && id !in w.pending && CausesOf(w, 1) == [TimeoutRemoval(0)]
  {
    FirstExpires(id);
    var w0, steps := Run(INITIAL, SentAndExpired(id)), AnsweredLateAndReused(id);
    var w1 := Apply(w0, steps[0]);
    assert id !in w1.pending;
    var w2 := Apply(w1, steps[1]);
    LegalCons(w2, steps[2], []);
    LegalCons(w1, steps[1], steps[2..]);
    LegalCons(w0, steps[0], steps[1..]);
  }

  lemma LegalCons(w: World, s: Step, rest: seq<Step>)
    requires Enabled(w, s) && Legal(Apply(w, s), rest)
    ensures Legal(w, [s] + rest) && Run(w, [s] + rest) == Run(Apply(w, s), rest)
  {
    assert ([s] + rest)[1..] == rest;
  }

  // ---- Generated ids are fresh ----------------------------------------------------------

  function DigitValue(c: char): int {
    c as int - '0' as int
  }

  function Parse(s: string): int {
    if s == [] then 0 else 10 * Parse(s[..|s| - 1]) + DigitValue(s[|s| - 1])
  }

  lemma {:induction false} ParseDecimal(n: nat)
    ensures Parse(Decimal(n)) == n
  {
    if n < 10 {
      assert Parse([Digit(n)]) == 10 * Parse([]) + DigitValue(Digit(n));
    } else {
      ParseDecimal(n / 10);
      var s := Decimal(n);
      assert s[..|s| - 1] == Decimal(n / 10);
    }
  }

  lemma GeneratedIdsDiffer(m: nat, n: nat)
    requires GeneratedId(m) == GeneratedId(n)
    ensures m == n
  {
    var p := "srvreq_";
    assert Decimal(m) == (p + Decimal(m))[|p|..] == (p + Decimal(n))[|p|..] == Decimal(n);
    ParseDecimal(m);
    ParseDecimal(n);
  }

  /** Numbers are taken once: every id in use has a number below the counter that is no longer to be used. */
  ghost predicate NumbersUsedOnce(w: World) {
    && (forall n :: n in w.taken ==> n < w.nextId)
    && (forall t :: t in w.tasks ==> exists m: nat :: m < w.nextId && m !in w.taken && w.tasks[t].id == GeneratedId(m))
  }

  lemma TakenIsFresh(w: World, n: nat)
    requires NumbersUsedOnce(w) && n in w.taken
    ensures forall t :: t in w.tasks ==> w.tasks[t].id != GeneratedId(n)
  {
    hide GeneratedId;
    forall t | t in w.tasks ensures w.tasks[t].id != GeneratedId(n) {
      var m: nat :| m < w.nextId && m !in w.taken && w.tasks[t].id == GeneratedId(m);
      if GeneratedId(m) == GeneratedId(n) { GeneratedIdsDiffer(m, n); }
    }
  }

  lemma StepUsesNumbersOnce(w: World, s: Step)
    requires NumbersUsedOnce(w) && Enabled(w, s) && !s.SendWithId?
    ensures NumbersUsedOnce(Apply(w, s))
  {
    hide GeneratedId;
    var w' := Apply(w, s);
    CounterAfter(w, s);
    hide Apply;
    forall t | t in w'.tasks ensures exists m: nat :: m < w'.nextId && m !in w'.taken && w'.tasks[t].id == GeneratedId(m) {
      TasksAfter(w, s, t);
      if t in w.tasks {
        var m: nat :| m < w.nextId && m !in w.taken && w.tasks[t].id == GeneratedId(m);
        assert m < w'.nextId && m !in w'.taken;
      } else {
        assert s.number < w'.nextId && s.number !in w'.taken;
      }
    }
  }

  lemma CounterAfter(w: World, s: Step)
    requires Enabled(w, s)
    ensures Apply(w, s).nextId == w.nextId + (if s.TakeId? then 1 else 0)
    ensures Apply(w, s).taken == if s.TakeId? then w.taken + {w.nextId} else if s.SendGenerated? then w.taken - {s.number} else w.taken
  {
  }

  /** A run whose sends all let the server choose the id never reuses one. */
  lemma {:induction false} GeneratedIdsAreFresh(w: World, steps: seq<Step>)
    requires Legal(w, steps) && forall s :: s in steps ==> !s.SendWithId?
    requires NumbersUsedOnce(w)
    ensures FreshIds(w, steps)
    decreases |steps|
  {
    hide NumbersUsedOnce, Apply, GeneratedId;
    if steps != [] {
      if steps[0].SendGenerated? { TakenIsFresh(w, steps[0].number); }
      StepUsesNumbersOnce(w, steps[0]);
      GeneratedIdsAreFresh(Apply(w, steps[0]), steps[1..]);
    }
  }

  // ---- Requests sent to a connection that came back -------------------------------------------

  predicate NoUnregistration(steps: seq<Step>, c: Connection) {
    forall i :: 0 <= i < |steps| ==> steps[i] != UnregisterBegin(c)
  }

  lemma DisconnectsAfter(w: World, s: Step, t: Token)
    requires Invariant(w) && Enabled(w, s) && t in w.tasks && Disconnected !in CausesOf(w, t)
    ensures t in Apply(w, s).tasks && Apply(w, s).tasks[t].connection == w.tasks[t].connection
    ensures Disconnected in CausesOf(Apply(w, s), t) <==> s == UnregisterFinish(w.tasks[t].connection) && IsPending(w, t)
  {
    hide Invariant, Apply, DrainedTokens, CausesOf, Matches, PendsUnder;
    TasksAfter(w, s, t);
    StepCauses(w, s, t);
    if s.UnregisterFinish? { DrainedExactly(w, s.c, t); }
  }

  lemma LeavingAfter(w: World, s: Step, c: Connection)
    requires Enabled(w, s) && c !in w.leaving && s != UnregisterBegin(c)
    ensures c !in Apply(w, s).leaving
  {
  }

  /** With no unregistration of its connection in progress and none begun, a request is not disconnected. */
  lemma {:induction false} NotDisconnected(w: World, steps: seq<Step>, t: Token)
    requires Invariant(w) && Legal(w, steps) && t in w.tasks && Disconnected !in CausesOf(w, t)
    requires w.tasks[t].connection !in w.leaving && NoUnregistration(steps, w.tasks[t].connection)
    ensures Disconnected !in CausesOf(Run(w, steps), t)
    decreases |steps|
  {
    hide Invariant, Apply, CausesOf;
    if steps != [] {
      DisconnectsAfter(w, steps[0], t);
      LeavingAfter(w, steps[0], w.tasks[t].connection);
      StepKeepsInvariant(w, steps[0]);
      NotDisconnected(Apply(w, steps[0]), steps[1..], t);
    }
  }

  /** The run disconnects the request, and begins no unregistration of its connection. */
  ghost predicate StrayDisconnect(w: World, steps: seq<Step>, t: Token)
    requires t in w.tasks
  {
    Legal(w, steps) && NoUnregistration(steps, w.tasks[t].connection) && Disconnected in CausesOf(Run(w, steps), t)
  }

  /**
   A pending request can be disconnected although no unregistration of its connection begins
   any more, exactly when one is still between its two sections.
   */
  lemma StrayDisconnectIff(w: World, t: Token)
    requires Invariant(w) && t in w.tasks && IsPending(w, t)
    ensures (exists steps :: StrayDisconnect(w, steps, t)) <==> w.tasks[t].connection in w.leaving
  {
    hide Invariant, StrayDisconnect;
    if w.tasks[t].connection in w.leaving {
      FinishDisconnects(w, t);
    } else {
      forall steps ensures !StrayDisconnect(w, steps, t) {
        NeverStray(w, steps, t);
      }
    }
  }

  lemma NeverStray(w: World, steps: seq<Step>, t: Token)
    requires Invariant(w) && t in w.tasks && IsPending(w, t) && w.tasks[t].connection !in w.leaving
    ensures !StrayDisconnect(w, steps, t)
  {
    PendingHasNoCause(w, t);
    hide Invariant, Apply, Enabled, CausesOf, IsPending;
    if Legal(w, steps) && NoUnregistration(steps, w.tasks[t].connection) {
      NotDisconnected(w, steps, t);
    }
  }

  lemma PendingHasNoCause(w: World, t: Token)
    requires Invariant(w) && t in w.tasks && IsPending(w, t)
    ensures CausesOf(w, t) == []
  {
    assert TaskOk(w, t);
  }

  lemma FinishDisconnects(w: World, t: Token)
    requires Invariant(w) && t in w.tasks && IsPending(w, t) && w.tasks[t].connection in w.leaving
    ensures StrayDisconnect(w, [UnregisterFinish(w.tasks[t].connection)], t)
  {
    PendingHasNoCause(w, t);
    hide Invariant, Apply, Enabled, CausesOf, IsPending;
    var s := UnregisterFinish(w.tasks[t].connection);
    FinishIsEnabled(w, s.c);
    LegalCons(w, s, []);
    assert [s] == [s] + [];
    DisconnectsAfter(w, s, t);
  }

  lemma FinishIsEnabled(w: World, c: Connection)
    requires c in w.leaving
    ensures Enabled(w, UnregisterFinish(c))
  {
  }

  /** The connection comes back, and is sent a request, between the two sections of its unregistration. */
  function ReturnedTooEarly(id: RequestId): seq<Step> {
    [UnregisterBegin(1), Register(1), SendWithId(0, 1, id, "m", None, None, true), UnregisterFinish(1)]
  }

  /** A request sent after its connection came back is disconnected while the connection is registered. */
  lemma ReturnedConnectionLosesARequest(id: RequestId)
    requires !id.Null?
    ensures Legal(INITIAL, ReturnedTooEarly(id))
    ensures var w := Run(INITIAL, ReturnedTooEarly(id));
            1 in w.connections && 0 in w.tasks && CausesOf(w, 0) == [Disconnected]
  {
    var steps := ReturnedTooEarly(id);
    SentAfterReturning(id);
    var w3 := Returned(id);
    assert id in DrainedIds(w3.pending, 1);
    LegalCons(w3, steps[3], []);
    assert CausesOf(Apply(w3, steps[3]), 0) == [Disconnected];
    hide Enabled, Apply;
    var w1 := Apply(INITIAL, steps[0]);
    var w2 := Apply(w1, steps[1]);
    LegalCons(w2, steps[2], steps[3..]);
    LegalCons(w1, steps[1], steps[2..]);
    LegalCons(INITIAL, steps[0], steps[1..]);
  }

  function Returned(id: RequestId): World {
    InPhase(id, Checking).(leaving := multiset{1})
  }

  lemma SentAfterReturning(id: RequestId)
    requires !id.Null?
    ensures var s0, s1, s2 := ReturnedTooEarly(id)[0], ReturnedTooEarly(id)[1], ReturnedTooEarly(id)[2];
            && Enabled(INITIAL, s0) && Enabled(Apply(INITIAL, s0), s1) && Enabled(Apply(Apply(INITIAL, s0), s1), s2)
            && Apply(Apply(Apply(INITIAL, s0), s1), s2) == Returned(id)
  {
  }

  // ---- The tables in place -------------------------------------------------------------------

  class OutgoingMessageSender {
    var connections: map<Connection, ConnectionState>
    var pendingServerRequests: map<RequestId, Pending>
    var nextServerRequestId: nat

    constructor ()
      ensures connections == INITIAL.connections && pendingServerRequests == INITIAL.pending
      ensures nextServerRequestId == INITIAL.nextId
    {
      connections, pendingServerRequests, nextServerRequestId := map[], map[], 1;
    }

    method RegisterConnection(c: Connection)
      modifies this`connections
      ensures c in old(connections) ==> connections == old(connections)
      ensures c !in old(connections) ==> connections == old(connections)[c := ConnectionState(false, {})]
      ensures connections == Touch(old(connections), c)
    {
      if c !in connections {
        connections := connections[c := DEFAULT_CONNECTION];
      }
    }

    method MarkReadyForNotifications(c: Connection)
      modifies this`connections
      ensures connections.Keys == old(connections.Keys) + {c} && connections[c].readyForNotifications
      ensures connections[c].optOut == if c in old(connections) then old(connections)[c].optOut else {}
      ensures forall d :: d in old(connections) && d != c ==> connections[d] == old(connections)[d]
      ensures connections == Touch(old(connections), c)[c := Touch(old(connections), c)[c].(readyForNotifications := true)]
    {
      RegisterConnection(c);
      connections := connections[c := connections[c].(readyForNotifications := true)];
    }

    method ConfigureConnection(c: Connection, optOut: set<string>)
      modifies this`connections
      ensures connections.Keys == old(connections.Keys) + {c} && connections[c].optOut == optOut
      ensures connections[c].readyForNotifications <==> c in old(connections) && old(connections)[c].readyForNotifications
      ensures forall d :: d in old(connections) && d != c ==> connections[d] == old(connections)[d]
      ensures connections == Touch(old(connections), c)[c := Touch(old(connections), c)[c].(optOut := optOut)]
    {
      RegisterConnection(c);
      connections := connections[c := connections[c].(optOut := optOut)];
    }

    /** The second locked section of `unregister_connection`: collect the ids, then remove them one by one. */
    method DrainConnection(c: Connection) returns (ids: seq<RequestId>, drained: seq<Pending>)
      modifies this`pendingServerRequests
      ensures pendingServerRequests == Drain(old(pendingServerRequests), c)
      ensures |drained| == |ids| && (set id | id in ids) == DrainedIds(old(pendingServerRequests), c)
      ensures forall i, j :: 0 <= i < j < |ids| ==> ids[i] != ids[j]
      ensures forall i :: 0 <= i < |ids| ==> ids[i] in old(pendingServerRequests) && drained[i] == old(pendingServerRequests)[ids[i]]
    {
      ghost var before := pendingServerRequests;
      var left := set id | id in pendingServerRequests && pendingServerRequests[id].connection == c;
      ids, drained := [], [];
      while left != {}
        invariant left <= DrainedIds(before, c)
        invariant forall id :: id in ids <==> id in DrainedIds(before, c) && id !in left
        invariant pendingServerRequests == map id | id in before && id !in ids :: before[id]
        invariant |drained| == |ids|
        invariant forall i, j :: 0 <= i < j < |ids| ==> ids[i] != ids[j]
        invariant forall i :: 0 <= i < |ids| ==> ids[i] in before && drained[i] == before[ids[i]]
        decreases |left|
      {
        var id :| id in left;
        drained := drained + [pendingServerRequests[id]];
        ids := ids + [id];
        pendingServerRequests := pendingServerRequests - {id};
        left := left - {id};
      }
    }

    /** The locked section of `send_server_request_with_id`. */
    method InsertPending(id: RequestId, p: Pending) returns (accepted: bool)
      modifies this`pendingServerRequests
      ensures accepted == (!id.Null? && id !in old(pendingServerRequests))
      ensures pendingServerRequests == if accepted then old(pendingServerRequests)[id := p] else old(pendingServerRequests)
    {
      accepted := !id.Null? && id !in pendingServerRequests;
      if accepted {
        pendingServerRequests := pendingServerRequests[id := p];
      }
    }

    /** The locked section of `resolve_server_response_bound`: take the entry only when everything named agrees. */
    method TakeResponse(c: Connection, m: Option<string>, th: Option<string>, tu: Option<string>, id: RequestId)
      returns (taken: Option<Pending>)
      modifies this`pendingServerRequests
      ensures taken.Some? <==> id in old(pendingServerRequests) && Matches(old(pendingServerRequests)[id], c, m, th, tu)
      ensures taken.Some? ==> taken.value == old(pendingServerRequests)[id]
      ensures pendingServerRequests ==
              if taken.Some? then old(pendingServerRequests) - {id} else old(pendingServerRequests)
    {
      taken := None;
      if id in pendingServerRequests {
        var p := pendingServerRequests[id];
        if p.connection == c && (m.None? || m.value == p.method_)
           && (th.None? || p.threadId == th) && (tu.None? || p.turnId == tu) {
          taken := Some(p);
          pendingServerRequests := pendingServerRequests - {id};
        }
      }
    }

    method NextRequestId() returns (id: RequestId)
      modifies this`nextServerRequestId
      ensures id == GeneratedId(old(nextServerRequestId)) && nextServerRequestId == old(nextServerRequestId) + 1
    {
      id := GeneratedId(nextServerRequestId);
      nextServerRequestId := nextServerRequestId + 1;
    }
  }
}

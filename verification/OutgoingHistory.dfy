/**
 What the history of a run says about connections and requests (app_server/outgoing.rs):
 every setting, phase and cause is traced back to the calls that made it so.
 */
module OutgoingHistory {
  import opened Common
  import opened History
  import opened Outgoing

  /** The state before step `k` of a run, and the run as its last step after the others. */
  lemma {:induction false} LastStep(w: World, steps: seq<Step>)
    requires Legal(w, steps) && steps != []
    ensures var n := |steps| - 1;
            && Legal(w, steps[..n]) && Enabled(Run(w, steps[..n]), steps[n])
            && Run(w, steps) == Apply(Run(w, steps[..n]), steps[n])
    decreases |steps|
  {
    hide Apply, Enabled;
    var n := |steps| - 1;
    if n == 0 {
      assert steps[..0] == [] && steps[1..] == [];
    } else {
      LastStep(Apply(w, steps[0]), steps[1..]);
      assert steps[1..][..n - 1] == steps[..n][1..];
    }
  }

  // ---- Connections --------------------------------------------------------------------

  /** The calls that make a connection known. */
  function Registers(c: Connection): Step -> Option<()> {
    (s: Step) => if s == Register(c) || s == MarkReady(c) || (s.Configure? && s.c == c) then Some(()) else None
  }

  function Readies(c: Connection): Step -> Option<()> {
    (s: Step) => if s == MarkReady(c) then Some(()) else None
  }

  function OptsOut(c: Connection): Step -> Option<set<string>> {
    (s: Step) => if s.Configure? && s.c == c then Some(s.optOut) else None
  }

  function Departs<V>(c: Connection): (V, Step) -> bool {
    (_, s: Step) => s == UnregisterBegin(c)
  }

  /** The calls on the connection table. */
  predicate OnConnections(s: Step) {
    s.Register? || s.Configure? || s.MarkReady? || s.UnregisterBegin?
  }

  /** Taking entries out touches neither connections nor tasks. */
  lemma TakingKeeps(w: World, id: RequestId, cause: Cause, c: Connection)
    ensures Remove(w, id, cause).connections == w.connections && Remove(w, id, cause).tasks == w.tasks
    ensures DrainAll(w, c).connections == w.connections && DrainAll(w, c).tasks == w.tasks
  {
  }

  lemma TakenKeeps(w: World, s: Step)
    requires Enabled(w, s) && !TakesNothing(s)
    ensures Apply(w, s).connections == w.connections
    ensures Apply(w, s).tasks ==
            if s.CleanupFailedSend? || s.CleanupTimeout? then w.tasks[s.t := w.tasks[s.t].(phase := Finished)] else w.tasks
  {
    hide Remove, DrainAll, Matches;
    match s
    case UnregisterFinish(c) => TakingKeeps(w, Null, Disconnected, c);
    case CleanupFailedSend(t) => TakingKeeps(w, w.tasks[t].id, FailedSendRemoval(t), 0);
    case CleanupTimeout(t) => TakingKeeps(w, w.tasks[t].id, TimeoutRemoval(t), 0);
    case Respond(_, _, _, _, id, value) => TakingKeeps(w, id, Responded(value), 0);
    case RespondError(_, id, message) => TakingKeeps(w, id, Errored(message), 0);
  }

  lemma MovingKeeps(w: World, s: Step)
    requires Enabled(w, s) && TakesNothing(s) && !OnConnections(s)
    ensures Apply(w, s).connections == w.connections
  {
    hide GeneratedId;
  }

  lemma ConnectionsKept(w: World, s: Step)
    requires Enabled(w, s) && !OnConnections(s)
    ensures Apply(w, s).connections == w.connections
  {
    hide Apply;
    if TakesNothing(s) { MovingKeeps(w, s); } else { TakenKeeps(w, s); }
  }

  lemma ConnectionsChanged(w: World, s: Step, c: Connection)
    requires OnConnections(s)
    ensures var cs, cs' := w.connections, Apply(w, s).connections;
            && (c in cs' <==> Registers(c)(s).Some? || (c in cs && s != UnregisterBegin(c)))
            && (c in cs' ==>
                  && (cs'[c].readyForNotifications <==> s == MarkReady(c) || (c in cs && cs[c].readyForNotifications))
                  && cs'[c].optOut == (if s.Configure? && s.c == c then s.optOut else if c in cs then cs[c].optOut else {}))
  {
  }

  lemma ConnectionsAfter(w: World, s: Step, c: Connection)
    requires Enabled(w, s)
    ensures var cs, cs' := w.connections, Apply(w, s).connections;
            && (c in cs' <==> Registers(c)(s).Some? || (c in cs && s != UnregisterBegin(c)))
            && (c in cs' ==>
                  && (cs'[c].readyForNotifications <==> s == MarkReady(c) || (c in cs && cs[c].readyForNotifications))
                  && cs'[c].optOut == (if s.Configure? && s.c == c then s.optOut else if c in cs then cs[c].optOut else {}))
  {
    hide Apply;
    if OnConnections(s) {
      ConnectionsChanged(w, s, c);
    } else {
      ConnectionsKept(w, s);
    }
  }

  /**
   In every run a connection is known exactly when a call made it known since it last began to
   leave; it is ready exactly when it was marked so since, and its opted-out methods are those
   configured last since, or none.
   */
  lemma {:induction false} SettingsAreHeld(steps: seq<Step>, c: Connection)
    requires Legal(INITIAL, steps)
    ensures var cs := Run(INITIAL, steps).connections;
            && (c in cs <==> Held(steps, Registers(c), Departs(c)).Some?)
            && (c !in cs ==> Held(steps, Readies(c), Departs(c)).None? && Held(steps, OptsOut(c), Departs(c)).None?)
            && (c in cs ==>
                  && (cs[c].readyForNotifications <==> Held(steps, Readies(c), Departs(c)).Some?)
                  && cs[c].optOut == (if Held(steps, OptsOut(c), Departs(c)).Some? then Held(steps, OptsOut(c), Departs(c)).value else {}))
  {
    hide Apply, Enabled;
    if steps != [] {
      var n := |steps| - 1;
      LastStep(INITIAL, steps);
      SettingsAreHeld(steps[..n], c);
      ConnectionsAfter(Run(INITIAL, steps[..n]), steps[n], c);
    }
  }

  // ---- Requests -------------------------------------------------------------------------

  predicate Sends(s: Step, t: Token) {
    (s.SendWithId? || s.SendGenerated?) && s.t == t
  }

  /** A send is accepted exactly when its id is not null and not pending. */
  lemma SendAcceptedIff(w: World, s: Step)
    requires Enabled(w, s) && (s.SendWithId? || s.SendGenerated?)
    ensures s.t in Apply(w, s).tasks <==> !IdOf(s).Null? && IdOf(s) !in w.pending
    ensures s.t !in Apply(w, s).tasks ==> Apply(w, s).pending == w.pending && Apply(w, s).tasks == w.tasks
    ensures s.t in Apply(w, s).tasks ==>
              && Apply(w, s).tasks == w.tasks[s.t := Task(s.c, IdOf(s), s.timed, Checking, None)]
              && Apply(w, s).pending == w.pending[IdOf(s) := Pending(s.c, s.method_, s.thread, s.turn, s.t)]
  {
    hide GeneratedId;
  }

  function NextPhase(w: World, s: Step, t: Token): Phase
    requires t in w.tasks
  {
    if s == CheckConnection(t) then (if w.tasks[t].connection in w.connections then Sending else Failing)
    else if s == ChannelSend(t, true) then Awaiting
    else if s == ChannelSend(t, false) then Failing
    else if s == TimerElapsed(t) then TimedOut
    else if s == CleanupFailedSend(t) || s == CleanupTimeout(t) || s == ReceiverReturns(t) then Finished
    else w.tasks[t].phase
  }

  lemma PhaseAfterTaking(w: World, s: Step, t: Token)
    requires Enabled(w, s) && t in w.tasks && !TakesNothing(s)
    ensures t in Apply(w, s).tasks && Apply(w, s).tasks[t].phase == NextPhase(w, s, t)
  {
    TakenKeeps(w, s);
    hide Apply;
  }

  predicate MovesATask(s: Step) {
    s.CheckConnection? || s.ChannelSend? || s.TimerElapsed? || s.ReceiverReturns?
  }

  lemma PhaseAfterMoving(w: World, s: Step, t: Token)
    requires Enabled(w, s) && t in w.tasks && MovesATask(s)
    ensures t in Apply(w, s).tasks && Apply(w, s).tasks[t].phase == NextPhase(w, s, t)
  {
  }

  lemma PhaseKept(w: World, s: Step, t: Token)
    requires Enabled(w, s) && t in w.tasks && TakesNothing(s) && !MovesATask(s)
    ensures t in Apply(w, s).tasks && Apply(w, s).tasks[t].phase == w.tasks[t].phase
  {
    hide GeneratedId;
  }

  /** How a step moves a task. */
  lemma PhaseAfter(w: World, s: Step, t: Token)
    requires Enabled(w, s) && t in w.tasks
    ensures t in Apply(w, s).tasks && Apply(w, s).tasks[t].phase == NextPhase(w, s, t)
  {
    hide Apply;
    if MovesATask(s) {
      PhaseAfterMoving(w, s, t);
    } else if TakesNothing(s) {
      PhaseKept(w, s, t);
    } else {
      PhaseAfterTaking(w, s, t);
    }
  }

  lemma EntriesAfter(w: World, s: Step, id: RequestId)
    requires Enabled(w, s)
    ensures id in Apply(w, s).pending ==>
              || (id in w.pending && Apply(w, s).pending[id] == w.pending[id])
              || ((s.SendWithId? || s.SendGenerated?) && Apply(w, s).pending[id].callback == s.t)
    ensures (s.CleanupFailedSend? || s.CleanupTimeout?) && w.tasks[s.t].id == id ==> id !in Apply(w, s).pending
  {
    if !TakesNothing(s) {
      EntriesAfterTaking(w, s, id);
    } else {
      EntriesAfterMoving(w, s, id);
    }
    hide Apply;
  }

  lemma EntriesAfterTaking(w: World, s: Step, id: RequestId)
    requires Enabled(w, s) && !TakesNothing(s)
    ensures id in Apply(w, s).pending ==> id in w.pending && Apply(w, s).pending[id] == w.pending[id]
    ensures (s.CleanupFailedSend? || s.CleanupTimeout?) && w.tasks[s.t].id == id ==> id !in Apply(w, s).pending
  {
    hide Matches, DrainedTokens, CausesOf, Owed;
  }

  lemma EntriesAfterMoving(w: World, s: Step, id: RequestId)
    requires Enabled(w, s) && TakesNothing(s)
    ensures id in Apply(w, s).pending ==>
              || (id in w.pending && Apply(w, s).pending[id] == w.pending[id])
              || ((s.SendWithId? || s.SendGenerated?) && Apply(w, s).pending[id].callback == s.t)
  {
    hide GeneratedId;
  }

  /** An entry never comes back or changes, and a cleanup leaves none. */
  lemma PendingAfter(w: World, s: Step, t: Token)
    requires Enabled(w, s) && t in w.tasks
    ensures t in Apply(w, s).tasks && Apply(w, s).tasks[t].id == w.tasks[t].id
    ensures IsPending(Apply(w, s), t) ==> IsPending(w, t) && Apply(w, s).pending[w.tasks[t].id] == w.pending[w.tasks[t].id]
    ensures s == CleanupFailedSend(t) || s == CleanupTimeout(t) ==> !IsPending(Apply(w, s), t)
  {
    hide Apply;
    TasksAfter(w, s, t);
    EntriesAfter(w, s, w.tasks[t].id);
  }

  /** Where the history says a task stands. */
  ghost predicate HandOver(steps: seq<Step>, w: World, t: Token) {
    if t !in w.tasks then ChannelSend(t, true) !in steps && ChannelSend(t, false) !in steps
    else
      var phase := w.tasks[t].phase;
      && (phase.Checking? || phase.Sending? ==> ChannelSend(t, true) !in steps && ChannelSend(t, false) !in steps)
      && (phase.Awaiting? || phase.TimedOut? ==> ChannelSend(t, true) in steps)
      && (phase.Failing? ==> ChannelSend(t, true) !in steps)
      && !(ChannelSend(t, true) in steps && ChannelSend(t, false) in steps)
      && (phase.Finished? && ChannelSend(t, true) !in steps ==> !IsPending(w, t))
      && (ChannelSend(t, false) in steps ==> phase.Failing? || phase.Finished?)
  }

  lemma HandOverStep(steps: seq<Step>, w: World, s: Step, t: Token)
    requires Enabled(w, s) && HandOver(steps, w, t)
    ensures HandOver(steps + [s], Apply(w, s), t)
  {
    hide Apply;
    TasksAfter(w, s, t);
    if t in w.tasks {
      PhaseAfter(w, s, t);
      PendingAfter(w, s, t);
    } else if t in Apply(w, s).tasks {
      SendAcceptedIff(w, s);
    }
  }

  /**
   In every run a request is awaited only after its message was handed over, it is handed over or
   refused at most once, and one that was refused, or never handed over, finishes only after
   its entry has left the table, for exactly one cause.
   */
  lemma {:induction false} HandOversAreTrue(steps: seq<Step>, t: Token)
    requires Legal(INITIAL, steps)
    ensures var w := Run(INITIAL, steps);
            && HandOver(steps, w, t)
            && (t in w.tasks && w.tasks[t].phase.Finished? && ChannelSend(t, true) !in steps ==> |CausesOf(w, t)| == 1)
  {
    hide Apply, Enabled, HandOver;
    if steps == [] {
      NothingHandedOver(t);
    } else {
      var n := |steps| - 1;
      LastStep(INITIAL, steps);
      HandOversAreTrue(steps[..n], t);
      HandOverStep(steps[..n], Run(INITIAL, steps[..n]), steps[n], t);
      assert steps[..n] + [steps[n]] == steps;
    }
    RequestsLeaveExactlyOnce(steps, t);
    FinishedHasLeft(steps, Run(INITIAL, steps), t);
  }

  lemma NothingHandedOver(t: Token)
    ensures HandOver([], INITIAL, t)
  {
  }

  lemma FinishedHasLeft(steps: seq<Step>, w: World, t: Token)
    requires HandOver(steps, w, t)
    ensures t in w.tasks && w.tasks[t].phase.Finished? && ChannelSend(t, true) !in steps ==> !IsPending(w, t)
  {
  }

  // ---- Where a request comes from -------------------------------------------------------------

  /** Step `k` sent the request, with the connection, id, method, thread and turn it has. */
  ghost predicate SentAt(steps: seq<Step>, w: World, t: Token, k: nat)
    requires t in w.tasks
  {
    && k < |steps| && Sends(steps[k], t)
    && w.tasks[t].connection == steps[k].c && w.tasks[t].id == IdOf(steps[k]) && w.tasks[t].timed == steps[k].timed
    && (IsPending(w, t) ==>
          w.pending[w.tasks[t].id] == Pending(steps[k].c, steps[k].method_, steps[k].thread, steps[k].turn, t))
  }

  lemma SentAtStep(steps: seq<Step>, w: World, s: Step, t: Token, k: nat)
    requires Enabled(w, s) && t in w.tasks && SentAt(steps, w, t, k)
    ensures t in Apply(w, s).tasks && SentAt(steps + [s], Apply(w, s), t, k)
  {
    hide Apply;
    TasksAfter(w, s, t);
    PendingAfter(w, s, t);
  }

  lemma SentNow(steps: seq<Step>, w: World, s: Step, t: Token)
    requires Enabled(w, s) && t !in w.tasks && t in Apply(w, s).tasks
    ensures SentAt(steps + [s], Apply(w, s), t, |steps|)
  {
    TasksAfter(w, s, t);
    SendAcceptedIff(w, s);
    hide Apply;
  }

  /** In every run each request has its connection, id, method, thread and turn from the call that sent it. */
  lemma {:induction false} RequestsWereSent(steps: seq<Step>, t: Token) returns (k: nat)
    requires Legal(INITIAL, steps) && t in Run(INITIAL, steps).tasks
    ensures SentAt(steps, Run(INITIAL, steps), t, k)
  {
    hide Apply, Enabled, SentAt;
    var n := |steps| - 1;
    LastStep(INITIAL, steps);
    var w := Run(INITIAL, steps[..n]);
    assert steps[..n] + [steps[n]] == steps;
    if t in w.tasks {
      k := RequestsWereSent(steps[..n], t);
      SentAtStep(steps[..n], w, steps[n], t, k);
    } else {
      k := n;
      SentNow(steps[..n], w, steps[n], t);
    }
  }

  // ---- Why a request left -----------------------------------------------------------------------

  /** At step `k` the task looked its connection up, and found it known or not. */
  ghost predicate LookedUpAt(steps: seq<Step>, t: Token, c: Connection, known: bool, k: nat) {
    k < |steps| && steps[k] == CheckConnection(t) && (Held(steps[..k], Registers(c), Departs(c)).Some? <==> known)
  }

  /** A failing task was refused by the channel, or found its connection unknown. */
  ghost predicate HasReasonToFail(steps: seq<Step>, t: Token, c: Connection) {
    ChannelSend(t, false) in steps || exists k: nat :: LookedUpAt(steps, t, c, false, k)
  }

  ghost predicate FoundItsConnection(steps: seq<Step>, t: Token, c: Connection) {
    exists k: nat :: LookedUpAt(steps, t, c, true, k)
  }

  lemma LookedUpStays(steps: seq<Step>, s: Step, t: Token, c: Connection)
    ensures HasReasonToFail(steps, t, c) ==> HasReasonToFail(steps + [s], t, c)
    ensures FoundItsConnection(steps, t, c) ==> FoundItsConnection(steps + [s], t, c)
  {
    var more := steps + [s];
    forall k: nat, known | LookedUpAt(steps, t, c, known, k) ensures LookedUpAt(more, t, c, known, k) {
      assert more[..k] == steps[..k];
    }
  }

  lemma LookedUpNow(steps: seq<Step>, t: Token, c: Connection)
    ensures var more := steps + [CheckConnection(t)];
            if Held(steps, Registers(c), Departs(c)).Some? then FoundItsConnection(more, t, c) else HasReasonToFail(more, t, c)
  {
    var more := steps + [CheckConnection(t)];
    assert more[..|steps|] == steps;
    assert LookedUpAt(more, t, c, Held(steps, Registers(c), Departs(c)).Some?, |steps|);
  }

  /** In every run a message is handed over only for a connection that was known when looked up; a task fails only for a reason. */
  lemma {:induction false} TasksLookUpFirst(steps: seq<Step>, t: Token)
    requires Legal(INITIAL, steps) && t in Run(INITIAL, steps).tasks
    ensures var task := Run(INITIAL, steps).tasks[t];
            && (task.phase.Sending? || task.phase.Awaiting? || task.phase.TimedOut? ==> FoundItsConnection(steps, t, task.connection))
            && (task.phase.Failing? ==> HasReasonToFail(steps, t, task.connection))
  {
    hide Apply, HasReasonToFail, FoundItsConnection;
    var n := |steps| - 1;
    LastStep(INITIAL, steps);
    var w, s := Run(INITIAL, steps[..n]), steps[n];
    assert steps[..n] + [s] == steps;
    TasksAfter(w, s, t);
    if t in w.tasks {
      var c := w.tasks[t].connection;
      TasksLookUpFirst(steps[..n], t);
      PhaseAfter(w, s, t);
      LookedUpStays(steps[..n], s, t, c);
      LookedUpNow(steps[..n], t, c);
      SettingsAreHeld(steps[..n], c);
      RefusalIsAReason(steps, t, c);
    } else {
      SendAcceptedIff(w, s);
    }
  }

  lemma RefusalIsAReason(steps: seq<Step>, t: Token, c: Connection)
    ensures ChannelSend(t, false) in steps ==> HasReasonToFail(steps, t, c)
  {
  }

  /** A reply to the request that `sent` made: same id and connection, and everything it names agrees. */
  predicate Answers(sent: Step, reply: Step)
    requires sent.SendWithId? || sent.SendGenerated?
  {
    && reply.Respond? && reply.id == IdOf(sent) && reply.c == sent.c
    && (reply.boundMethod.Some? ==> reply.boundMethod.value == sent.method_)
    && (reply.boundThread.Some? ==> reply.boundThread == sent.thread)
    && (reply.boundTurn.Some? ==> reply.boundTurn == sent.turn)
  }

  /** The cause is the work of a step of the run, on the request as it was sent. */
  ghost predicate Explained(steps: seq<Step>, t: Token, cause: Cause, j: nat, k: nat) {
    && j < |steps| && k < |steps| && Sends(steps[j], t)
    && match cause
       case Responded(v) => Answers(steps[j], steps[k]) && steps[k].value == v
       case Errored(m) => steps[k] == RespondError(steps[j].c, IdOf(steps[j]), m)
       case Disconnected => steps[k] == UnregisterFinish(steps[j].c)
       case TimeoutRemoval(u) => steps[k] == CleanupTimeout(u)
       case FailedSendRemoval(u) => steps[k] == CleanupFailedSend(u)
  }

  lemma NewCauseIsExplained(steps: seq<Step>, w: World, s: Step, t: Token, j: nat)
    requires Invariant(w) && Enabled(w, s) && t in w.tasks && SentAt(steps, w, t, j)
    ensures forall i :: 0 <= i < |NewCauses(w, s, t)| ==> Explained(steps + [s], t, NewCauses(w, s, t)[i], j, |steps|)
  {
    hide Invariant, DrainedTokens;
    if s.UnregisterFinish? { DrainedExactly(w, s.c, t); }
    if (s.Respond? || s.RespondError?) && PendsUnder(w, s.id, t) { PendsUnderOwnId(w, s.id, t); }
  }

  lemma PendsUnderOwnId(w: World, id: RequestId, t: Token)
    requires Invariant(w) && PendsUnder(w, id, t)
    ensures t in w.tasks && w.tasks[t].id == id && IsPending(w, t)
  {
    assert EntryOk(w, id);
  }

  lemma ExplainedStays(steps: seq<Step>, s: Step, t: Token, cause: Cause, j: nat, k: nat)
    requires Explained(steps, t, cause, j, k)
    ensures Explained(steps + [s], t, cause, j, k)
  {
  }

  lemma NewCauseHasATask(w: World, s: Step, t: Token)
    requires Invariant(w) && Enabled(w, s) && NewCauses(w, s, t) != []
    ensures t in w.tasks && |NewCauses(w, s, t)| == 1
  {
    hide Invariant, DrainedTokens;
    match s
    case UnregisterFinish(c) => DrainedExactly(w, c, t);
    case CleanupFailedSend(u) => PendsUnderOwnId(w, w.tasks[u].id, t);
    case CleanupTimeout(u) => PendsUnderOwnId(w, w.tasks[u].id, t);
    case Respond(_, _, _, _, id, _) => PendsUnderOwnId(w, id, t);
    case RespondError(_, id, _) => PendsUnderOwnId(w, id, t);
  }

  /**
   In every run the cause for which a request left is the work of a call that names it as it was
   sent: a reply from its connection under its id, with every bound it states agreeing; an error
   from its connection under its id; an unregistration of its connection; or a cleanup.
   */
  lemma {:induction false} CausesAreExplained(steps: seq<Step>, t: Token) returns (j: nat, k: nat)
    requires Legal(INITIAL, steps) && CausesOf(Run(INITIAL, steps), t) != []
    ensures Explained(steps, t, CausesOf(Run(INITIAL, steps), t)[0], j, k)
  {
    NoCauseAtFirst(t);
    hide Apply, Enabled, Explained, SentAt, NewCauses, Invariant, CausesOf;
    var n := |steps| - 1;
    LastStep(INITIAL, steps);
    var w, s := Run(INITIAL, steps[..n]), steps[n];
    assert steps[..n] + [s] == steps;
    InitialInvariant();
    RunKeepsInvariant(INITIAL, steps[..n]);
    StepCauses(w, s, t);
    if CausesOf(w, t) != [] {
      j, k := CausesAreExplained(steps[..n], t);
      ExplainedStays(steps[..n], s, t, CausesOf(w, t)[0], j, k);
    } else {
      NewCauseHasATask(w, s, t);
      j := RequestsWereSent(steps[..n], t);
      k := n;
      NewCauseIsExplained(steps[..n], w, s, t, j);
    }
  }

  /** What the callback was given came from such a call: the value answered, the error reported, or the disconnection. */
  ghost predicate ReplyExplained(steps: seq<Step>, t: Token, reply: Reply, j: nat, k: nat) {
    && j < |steps| && k < |steps| && Sends(steps[j], t)
    && match reply
       case Answer(v) => Answers(steps[j], steps[k]) && steps[k].value == v
       case Failure(m) => || steps[k] == RespondError(steps[j].c, IdOf(steps[j]), m)
                          || (steps[k] == UnregisterFinish(steps[j].c) && m == "client_disconnected")
  }

  /** In every run whatever a callback is given is explained that way. */
  lemma RepliesAreExplained(steps: seq<Step>, t: Token) returns (j: nat, k: nat)
    requires Legal(INITIAL, steps) && t in Run(INITIAL, steps).tasks && FiredOf(Run(INITIAL, steps), t) != []
    ensures |FiredOf(Run(INITIAL, steps), t)| == 1 && ReplyExplained(steps, t, FiredOf(Run(INITIAL, steps), t)[0], j, k)
  {
    RequestsLeaveExactlyOnce(steps, t);
    hide Run, Legal, FiredOf, CausesOf;
    j, k := CausesAreExplained(steps, t);
  }

  lemma NoCauseAtFirst(t: Token)
    ensures CausesOf(INITIAL, t) == []
  {
  }

  lemma InitialInvariant()
    ensures Invariant(INITIAL)
  {
  }
}

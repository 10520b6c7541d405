/**
 Live thread state of the app server (app_server/thread_state.rs).

 `Inner` is the set of tables behind the lock.  `View` is what one thread sees of
 them; every run of the tables is proved to be a family of independent views.
 */
module ThreadState {
  import opened Common
  import opened History

  type Thread = string
  type TurnId = string
  type Connection = nat
  type Input = seq<string>

  datatype ActiveTurn = ActiveTurn(turnId: TurnId, owner: Connection)

  datatype PendingApproval = PendingApproval(connection: Connection, turnId: TurnId, requestId: string)

  datatype Inner = Inner(
    subscribers: map<Thread, set<Connection>>,
    activeTurns: map<Thread, ActiveTurn>,
    durableResumes: map<Thread, TurnId>,
    pendingApprovals: map<Thread, PendingApproval>,
    followUps: map<Thread, seq<Input>>,
    closed: set<Thread>)

  const EMPTY := Inner(map[], map[], map[], map[], map[], {})

  /** The locked sections; a snapshot callback either succeeds or fails. */
  datatype Call =
    | Subscribe(thread: Thread, connection: Connection)
    | SubscribeAndSnapshot(thread: Thread, connection: Connection, succeeds: bool)
    | Unsubscribe(thread: Thread, connection: Connection)
    | UnsubscribeConnection(connection: Connection)
    | Reopen(thread: Thread)
    | SetActiveTurn(thread: Thread, turn: ActiveTurn)
    | ClearActiveTurn(thread: Thread, turnId: TurnId)
    | SetDurableResume(thread: Thread, turnId: TurnId)
    | ClearDurableResume(thread: Thread, turnId: TurnId)
    | QueueFollowUp(thread: Thread, input: Input)
    | PopFollowUp(thread: Thread)
    | SetPendingApproval(thread: Thread, approval: PendingApproval)
    | ClearPendingApproval(thread: Thread, requestId: string)

  function Lookup<T>(m: map<Thread, T>, t: Thread): Option<T> {
    if t in m then Some(m[t]) else None
  }

  function SubscribersOf(s: Inner, t: Thread): set<Connection> {
    if t in s.subscribers then s.subscribers[t] else {}
  }

  function FollowUpsOf(s: Inner, t: Thread): seq<Input> {
    if t in s.followUps then s.followUps[t] else []
  }

  predicate NothingLive(s: Inner, t: Thread) {
    t !in s.subscribers && t !in s.activeTurns && t !in s.durableResumes
  }

  /** Stores a subscriber set; an empty one is removed. */
  function PutSubscribers(m: map<Thread, set<Connection>>, t: Thread, cs: set<Connection>): map<Thread, set<Connection>> {
    if cs == {} then m - {t} else m[t := cs]
  }

  function DropConnection(m: map<Thread, set<Connection>>, c: Connection): map<Thread, set<Connection>> {
    map t | t in m && m[t] - {c} != {} :: m[t] - {c}
  }

  function AddSubscriber(s: Inner, t: Thread, c: Connection): Inner {
    s.(closed := s.closed - {t}, subscribers := s.subscribers[t := SubscribersOf(s, t) + {c}])
  }

  /** A failed snapshot takes back exactly what the subscription did. */
  function RollBack(s: Inner, t: Thread, c: Connection, inserted: bool, wasClosed: bool): Inner {
    var s1 := if inserted && t in s.subscribers
              then s.(subscribers := PutSubscribers(s.subscribers, t, s.subscribers[t] - {c})) else s;
    if wasClosed then s1.(closed := s1.closed + {t}) else s1
  }

  function RemoveSubscriber(s: Inner, t: Thread, c: Connection): Inner {
    var s1 := if t in s.subscribers
              then s.(subscribers := PutSubscribers(s.subscribers, t, s.subscribers[t] - {c})) else s;
    if NothingLive(s1, t) then s1.(closed := s1.closed + {t}) else s1
  }

  function Apply(s: Inner, c: Call): Inner {
    match c
    case Subscribe(t, conn) => AddSubscriber(s, t, conn)
    case SubscribeAndSnapshot(t, conn, succeeds) =>
      var s1 := AddSubscriber(s, t, conn);
      if succeeds then s1 else RollBack(s1, t, conn, conn !in SubscribersOf(s, t), t in s.closed)
    case Unsubscribe(t, conn) => RemoveSubscriber(s, t, conn)
    case UnsubscribeConnection(conn) => s.(subscribers := DropConnection(s.subscribers, conn))
    case Reopen(t) => s.(closed := s.closed - {t})
    case SetActiveTurn(t, turn) => s.(closed := s.closed - {t}, activeTurns := s.activeTurns[t := turn])
    case ClearActiveTurn(t, id) =>
      if t in s.activeTurns && s.activeTurns[t].turnId == id then s.(activeTurns := s.activeTurns - {t}) else s
    case SetDurableResume(t, id) => s.(closed := s.closed - {t}, durableResumes := s.durableResumes[t := id])
    case ClearDurableResume(t, id) =>
      if t in s.durableResumes && s.durableResumes[t] == id then s.(durableResumes := s.durableResumes - {t}) else s
    case QueueFollowUp(t, input) => s.(followUps := s.followUps[t := FollowUpsOf(s, t) + [input]])
    case PopFollowUp(t) =>
      var rest := if FollowUpsOf(s, t) == [] then [] else FollowUpsOf(s, t)[1..];
      s.(followUps := if rest == [] then s.followUps - {t} else s.followUps[t := rest])
    case SetPendingApproval(t, approval) => s.(pendingApprovals := s.pendingApprovals[t := approval])
    case ClearPendingApproval(t, id) =>
      if t in s.pendingApprovals && s.pendingApprovals[t].requestId == id
      then s.(pendingApprovals := s.pendingApprovals - {t}) else s
  }

  function Run(s: Inner, calls: seq<Call>): Inner {
    if calls == [] then s else Apply(Run(s, calls[..|calls| - 1]), calls[|calls| - 1])
  }

  // ---- One thread's view -----------------------------------------------------------------

  datatype View = View(
    subscribers: set<Connection>,
    active: Option<ActiveTurn>,
    durable: Option<TurnId>,
    approval: Option<PendingApproval>,
    followUps: seq<Input>,
    closed: bool)

  const FRESH := View({}, None, None, None, [], false)

  function ViewOf(s: Inner, t: Thread): View {
    View(SubscribersOf(s, t), Lookup(s.activeTurns, t), Lookup(s.durableResumes, t),
         Lookup(s.pendingApprovals, t), FollowUpsOf(s, t), t in s.closed)
  }

  predicate Quiet(v: View) {
    v.subscribers == {} && v.active.None? && v.durable.None?
  }

  /** What a call means for a thread it names; a failed snapshot means nothing. */
  function Next(v: View, c: Call): View {
    match c
    case Subscribe(_, conn) => v.(subscribers := v.subscribers + {conn}, closed := false)
    case SubscribeAndSnapshot(_, conn, succeeds) =>
      if succeeds then v.(subscribers := v.subscribers + {conn}, closed := false) else v
    case Unsubscribe(_, conn) =>
      var v1 := v.(subscribers := v.subscribers - {conn});
      v1.(closed := v.closed || Quiet(v1))
    case UnsubscribeConnection(conn) => v.(subscribers := v.subscribers - {conn})
    case Reopen(_) => v.(closed := false)
    case SetActiveTurn(_, turn) => v.(active := Some(turn), closed := false)
    case ClearActiveTurn(_, id) => if v.active.Some? && v.active.value.turnId == id then v.(active := None) else v
    case SetDurableResume(_, id) => v.(durable := Some(id), closed := false)
    case ClearDurableResume(_, id) => if v.durable == Some(id) then v.(durable := None) else v
    case QueueFollowUp(_, input) => v.(followUps := v.followUps + [input])
    case PopFollowUp(_) => v.(followUps := if v.followUps == [] then [] else v.followUps[1..])
    case SetPendingApproval(_, approval) => v.(approval := Some(approval))
    case ClearPendingApproval(_, id) =>
      if v.approval.Some? && v.approval.value.requestId == id then v.(approval := None) else v
  }

  /** A departing connection is the only call that concerns every thread. */
  predicate Concerns(c: Call, t: Thread) {
    c.UnsubscribeConnection? || c.thread == t
  }

  function Concerning(calls: seq<Call>, t: Thread): seq<Call> {
    if calls == [] then []
    else
      var last := calls[|calls| - 1];
      Concerning(calls[..|calls| - 1], t) + (if Concerns(last, t) then [last] else [])
  }

  function RunView(v: View, calls: seq<Call>): View {
    if calls == [] then v else Next(RunView(v, calls[..|calls| - 1]), calls[|calls| - 1])
  }

  /** No subscriber set and no follow-up queue is stored empty. */
  predicate NoEmptyEntry(s: Inner, t: Thread) {
    && (t in s.subscribers ==> s.subscribers[t] != {})
    && (t in s.followUps ==> s.followUps[t] != [])
  }

  /**
   A failed `subscribe_and_snapshot` leaves the tables exactly as they were, unless an empty
   subscriber set was stored for the thread; no run stores one.
   */
  lemma FailedSnapshotRestoresIff(s: Inner, t: Thread, c: Connection)
    ensures Apply(s, SubscribeAndSnapshot(t, c, false)) == s <==> !(t in s.subscribers && s.subscribers[t] == {})
  {
    var s1 := AddSubscriber(s, t, c);
    var s2 := RollBack(s1, t, c, c !in SubscribersOf(s, t), t in s.closed);
    assert s2.closed == s.closed;
    if c in SubscribersOf(s, t) {
      assert SubscribersOf(s, t) + {c} == SubscribersOf(s, t);
      assert s2.subscribers == s.subscribers;
    } else {
      assert s1.subscribers[t] - {c} == SubscribersOf(s, t);
      assert t in s.subscribers && s.subscribers[t] == {} ==> t !in s2.subscribers;
      assert SubscribersOf(s, t) != {} ==> s2.subscribers == s.subscribers;
      assert t !in s.subscribers ==> s2.subscribers == s.subscribers;
    }
  }

  /** Only the subscribers of `u` and whether it is closed may differ. */
  predicate DiffersAt(s: Inner, s': Inner, u: Thread) {
    && s' == s.(subscribers := s'.subscribers, closed := s'.closed)
    && s'.subscribers - {u} == s.subscribers - {u} && s'.closed - {u} == s.closed - {u}
  }

  lemma AddDiffers(s: Inner, u: Thread, c: Connection)
    ensures DiffersAt(s, AddSubscriber(s, u, c), u)
  {
  }

  lemma RemoveDiffers(s: Inner, u: Thread, c: Connection)
    ensures DiffersAt(s, RemoveSubscriber(s, u, c), u)
  {
  }

  lemma RollBackDiffers(s: Inner, u: Thread, c: Connection, inserted: bool, wasClosed: bool)
    ensures DiffersAt(s, RollBack(s, u, c, inserted, wasClosed), u)
  {
  }

  lemma SubscriptionsElsewhere(s: Inner, c: Call, t: Thread)
    requires c.Subscribe? || c.Unsubscribe? || c.SubscribeAndSnapshot?
    requires !Concerns(c, t)
    ensures var s' := Apply(s, c);
            && Lookup(s'.subscribers, t) == Lookup(s.subscribers, t) && (t in s'.closed <==> t in s.closed)
            && s' == s.(subscribers := s'.subscribers, closed := s'.closed)
  {
    hide AddSubscriber, RemoveSubscriber, RollBack;
    var u, conn := c.thread, c.connection;
    AddDiffers(s, u, conn);
    RemoveDiffers(s, u, conn);
    RollBackDiffers(AddSubscriber(s, u, conn), u, conn, conn !in SubscribersOf(s, u), u in s.closed);
    var s' := Apply(s, c);
    assert DiffersAt(s, s', c.thread);
    hide Apply;
    assert t in s'.subscribers <==> t in s'.subscribers - {c.thread};
    assert t in s.subscribers <==> t in s.subscribers - {c.thread};
    assert t in s'.subscribers ==> s'.subscribers[t] == (s'.subscribers - {c.thread})[t] == (s.subscribers - {c.thread})[t];
    assert t in s'.closed <==> t in s'.closed - {c.thread};
    assert t in s.closed <==> t in s.closed - {c.thread};
  }

  /** A call leaves the threads it does not concern alone. */
  lemma StepElsewhere(s: Inner, c: Call, t: Thread)
    requires !Concerns(c, t)
    ensures ViewOf(Apply(s, c), t) == ViewOf(s, t)
    ensures NoEmptyEntry(s, t) ==> NoEmptyEntry(Apply(s, c), t)
  {
    if c.Subscribe? || c.Unsubscribe? || c.SubscribeAndSnapshot? {
      SubscriptionsElsewhere(s, c, t);
      hide Apply;
      assert ViewOf(Apply(s, c), t) == ViewOf(s, t);
    }
  }

  lemma DropRefines(s: Inner, c: Connection, t: Thread)
    ensures var s' := Apply(s, UnsubscribeConnection(c));
            && ViewOf(s', t) == Next(ViewOf(s, t), UnsubscribeConnection(c))
            && (NoEmptyEntry(s, t) ==> NoEmptyEntry(s', t))
  {
    var m, m' := s.subscribers, DropConnection(s.subscribers, c);
    assert t in m' <==> t in m && m[t] - {c} != {};
    assert SubscribersOf(s, t) - {c} == if t in m' then m'[t] else {};
  }

  lemma AddRefines(s: Inner, c: Connection, t: Thread)
    requires NoEmptyEntry(s, t)
    ensures var s' := AddSubscriber(s, t, c);
            ViewOf(s', t) == ViewOf(s, t).(subscribers := SubscribersOf(s, t) + {c}, closed := false) && NoEmptyEntry(s', t)
  {
  }

  /** The one way a failed snapshot changes the tables; no run gets there. */
  lemma StoredEmptySetIsLost(t: Thread, c: Connection)
    ensures var s := EMPTY.(subscribers := map[t := {}]);
            t in s.subscribers && t !in Apply(s, SubscribeAndSnapshot(t, c, false)).subscribers
  {
    var s := EMPTY.(subscribers := map[t := {}]);
    var s1 := AddSubscriber(s, t, c);
    assert s1.subscribers[t] == {c} && {c} - {c} == {};
  }

  lemma PutRefines(m: map<Thread, set<Connection>>, t: Thread, cs: set<Connection>)
    ensures var m' := PutSubscribers(m, t, cs);
            (t in m' <==> cs != {}) && (t in m' ==> m'[t] == cs)
  {
  }

  lemma RemoveRefines(s: Inner, c: Connection, t: Thread)
    requires NoEmptyEntry(s, t)
    ensures var s' := RemoveSubscriber(s, t, c);
            ViewOf(s', t) == Next(ViewOf(s, t), Unsubscribe(t, c)) && NoEmptyEntry(s', t)
  {
    hide PutSubscribers;
    if t in s.subscribers {
      PutRefines(s.subscribers, t, s.subscribers[t] - {c});
    }
    assert SubscribersOf(RemoveSubscriber(s, t, c), t) == SubscribersOf(s, t) - {c};
  }

  lemma SubscriptionsRefine(s: Inner, c: Call, t: Thread)
    requires NoEmptyEntry(s, t) && Concerns(c, t)
    requires c.Subscribe? || c.Unsubscribe? || c.SubscribeAndSnapshot?
    ensures ViewOf(Apply(s, c), t) == Next(ViewOf(s, t), c) && NoEmptyEntry(Apply(s, c), t)
  {
    hide AddSubscriber, RemoveSubscriber, RollBack;
    AddRefines(s, c.connection, t);
    RemoveRefines(s, c.connection, t);
    if c.SubscribeAndSnapshot? && !c.succeeds {
      hide Apply;
      FailedSnapshotRestoresIff(s, t, c.connection);
    }
  }

  /** Each call acts on each thread it concerns as on that thread's view alone. */
  lemma StepRefines(s: Inner, c: Call, t: Thread)
    requires NoEmptyEntry(s, t)
    ensures ViewOf(Apply(s, c), t) == if Concerns(c, t) then Next(ViewOf(s, t), c) else ViewOf(s, t)
    ensures NoEmptyEntry(Apply(s, c), t)
  {
    hide Apply, Next, ViewOf, NoEmptyEntry;
    if !Concerns(c, t) {
      StepElsewhere(s, c, t);
    } else if c.UnsubscribeConnection? {
      DropRefines(s, c.connection, t);
    } else if c.Subscribe? || c.Unsubscribe? || c.SubscribeAndSnapshot? {
      SubscriptionsRefine(s, c, t);
    } else if c.QueueFollowUp? || c.PopFollowUp? {
      QueuesRefine(s, c, t);
    } else if c.SetPendingApproval? || c.ClearPendingApproval? || c.Reopen? {
      ApprovalsRefine(s, c, t);
    } else if c.SetActiveTurn? || c.ClearActiveTurn? {
      TurnsRefine(s, c, t);
    } else {
      ResumesRefine(s, c, t);
    }
  }

  lemma QueuesRefine(s: Inner, c: Call, t: Thread)
    requires NoEmptyEntry(s, t) && Concerns(c, t) && (c.QueueFollowUp? || c.PopFollowUp?)
    ensures ViewOf(Apply(s, c), t) == Next(ViewOf(s, t), c) && NoEmptyEntry(Apply(s, c), t)
  {
  }

  lemma TurnsRefine(s: Inner, c: Call, t: Thread)
    requires NoEmptyEntry(s, t) && Concerns(c, t) && (c.SetActiveTurn? || c.ClearActiveTurn?)
    ensures ViewOf(Apply(s, c), t) == Next(ViewOf(s, t), c) && NoEmptyEntry(Apply(s, c), t)
  {
  }

  lemma ResumesRefine(s: Inner, c: Call, t: Thread)
    requires NoEmptyEntry(s, t) && Concerns(c, t) && (c.SetDurableResume? || c.ClearDurableResume?)
    ensures ViewOf(Apply(s, c), t) == Next(ViewOf(s, t), c) && NoEmptyEntry(Apply(s, c), t)
  {
  }

  lemma ApprovalsRefine(s: Inner, c: Call, t: Thread)
    requires NoEmptyEntry(s, t) && Concerns(c, t)
    requires c.SetPendingApproval? || c.ClearPendingApproval? || c.Reopen?
    ensures ViewOf(Apply(s, c), t) == Next(ViewOf(s, t), c) && NoEmptyEntry(Apply(s, c), t)
  {
  }

  /** The tables are a family of independent threads, each driven by its own calls only. */
  lemma {:induction false} ThreadsAreIndependent(calls: seq<Call>, t: Thread)
    ensures ViewOf(Run(EMPTY, calls), t) == RunView(FRESH, Concerning(calls, t))
    ensures NoEmptyEntry(Run(EMPTY, calls), t)
  {
    hide Apply, Next, ViewOf;
    if calls == [] {
      FreshView(t);
    } else {
      var before, c := calls[..|calls| - 1], calls[|calls| - 1];
      ThreadsAreIndependent(before, t);
      StepRefines(Run(EMPTY, before), c, t);
      var own := Concerning(before, t);
      assert (own + [c])[..|own + [c]| - 1] == own;
      assert own + [] == own;
    }
  }

  lemma FreshView(t: Thread)
    ensures ViewOf(EMPTY, t) == FRESH
  {
  }

  lemma {:induction false} ClosedIsQuiet(calls: seq<Call>)
    ensures RunView(FRESH, calls).closed ==> Quiet(RunView(FRESH, calls))
  {
    if calls != [] { ClosedIsQuiet(calls[..|calls| - 1]); }
  }

  /**
   In every reachable state no subscriber set and no follow-up queue is stored empty, and a
   closed thread has no subscriber, no active turn and no durable resume.
   */
  lemma EveryRunIsSound(calls: seq<Call>, t: Thread)
    ensures var s := Run(EMPTY, calls);
            && (t in s.subscribers ==> s.subscribers[t] != {}) && (t in s.followUps ==> s.followUps[t] != [])
            && (t in s.closed ==> t !in s.subscribers && t !in s.activeTurns && t !in s.durableResumes)
  {
    hide Run, RunView;
    ThreadsAreIndependent(calls, t);
    ClosedIsQuiet(Concerning(calls, t));
  }

  /** In every run, a failed snapshot restores the prior state exactly. */
  lemma FailedSnapshotRestores(calls: seq<Call>, t: Thread, c: Connection)
    ensures Run(EMPTY, calls + [SubscribeAndSnapshot(t, c, false)]) == Run(EMPTY, calls)
  {
    hide Apply;
    var last := SubscribeAndSnapshot(t, c, false);
    assert (calls + [last])[..|calls + [last]| - 1] == calls;
    EveryRunIsSound(calls, t);
    FailedSnapshotRestoresIff(Run(EMPTY, calls), t, c);
  }

  lemma LookupsDetermine<T>(m: map<Thread, T>, m': map<Thread, T>)
    requires forall t :: Lookup(m, t) == Lookup(m', t)
    ensures m == m'
  {
    forall t ensures t in m <==> t in m' {
      assert Lookup(m, t) == Lookup(m', t);
    }
    forall t | t in m ensures m[t] == m'[t] {
      assert Lookup(m, t) == Lookup(m', t);
    }
  }

  /** The views determine the tables: nothing is stored that no thread can see. */
  lemma ViewsDetermine(s: Inner, s': Inner)
    requires forall t :: NoEmptyEntry(s, t) && NoEmptyEntry(s', t)
    requires forall t :: ViewOf(s, t) == ViewOf(s', t)
    ensures s == s'
  {
    forall t ensures Lookup(s.subscribers, t) == Lookup(s'.subscribers, t) && Lookup(s.followUps, t) == Lookup(s'.followUps, t)
                     && Lookup(s.activeTurns, t) == Lookup(s'.activeTurns, t)
                     && Lookup(s.durableResumes, t) == Lookup(s'.durableResumes, t)
                     && Lookup(s.pendingApprovals, t) == Lookup(s'.pendingApprovals, t)
                     && (t in s.closed <==> t in s'.closed)
    {
      assert ViewOf(s, t) == ViewOf(s', t) && NoEmptyEntry(s, t) && NoEmptyEntry(s', t);
    }
    hide ViewOf, NoEmptyEntry, Lookup;
    LookupsDetermine(s.subscribers, s'.subscribers);
    LookupsDetermine(s.activeTurns, s'.activeTurns);
    LookupsDetermine(s.durableResumes, s'.durableResumes);
    LookupsDetermine(s.pendingApprovals, s'.pendingApprovals);
    LookupsDetermine(s.followUps, s'.followUps);
    assert s.closed == s'.closed;
  }

  // ---- What a thread's history says --------------------------------------------------------

  /** The calls that open a thread. */
  predicate Opens(c: Call) {
    || c.Subscribe? || c.Reopen? || c.SetActiveTurn? || c.SetDurableResume?
    || (c.SubscribeAndSnapshot? && c.succeeds)
  }

  /** An unsubscription that leaves nothing live. */
  predicate Closes(v: View, c: Call) {
    c.Unsubscribe? && v.subscribers <= {c.connection} && v.active.None? && v.durable.None?
  }

  /** The last call to close the thread was call `k`, and nothing opened it since. */
  predicate ClosedAt(calls: seq<Call>, k: nat) {
    && k < |calls| && Closes(RunView(FRESH, calls[..k]), calls[k])
    && forall j :: k < j < |calls| ==> !Opens(calls[j])
  }

  /** A thread is closed exactly when it was closed at some call and not opened since. */
  lemma {:induction false} ClosedIff(calls: seq<Call>)
    ensures RunView(FRESH, calls).closed <==> exists k: nat :: ClosedAt(calls, k)
  {
    hide ClosedAt, Closes, Next;
    if calls == [] {
      NeverClosed(calls);
    } else {
      var n := |calls| - 1;
      ClosedIff(calls[..n]);
      LastCallCloses(RunView(FRESH, calls[..n]), calls[n]);
      forall k: nat ensures ClosedAt(calls, k) <==>
          if k < n then ClosedAt(calls[..n], k) && !Opens(calls[n])
          else k == n && Closes(RunView(FRESH, calls[..n]), calls[n])
      {
        ClosedAtStep(calls, k);
      }
      LaterIsNotClosed(calls[..n]);
      if Closes(RunView(FRESH, calls[..n]), calls[n]) {
        assert ClosedAt(calls, n);
      }
    }
  }

  lemma NeverClosed(calls: seq<Call>)
    requires calls == []
    ensures forall k: nat :: !ClosedAt(calls, k)
  {
  }

  lemma LaterIsNotClosed(calls: seq<Call>)
    ensures forall k: nat :: ClosedAt(calls, k) ==> k < |calls|
  {
  }

  lemma ClosedAtStep(calls: seq<Call>, k: nat)
    requires calls != []
    ensures var n := |calls| - 1;
            ClosedAt(calls, k) <==>
            if k < n then ClosedAt(calls[..n], k) && !Opens(calls[n])
            else k == n && Closes(RunView(FRESH, calls[..n]), calls[n])
  {
    hide Closes, Opens, RunView;
    var n := |calls| - 1;
    if k < n { assert calls[..n][..k] == calls[..k]; }
  }

  lemma LastCallCloses(v: View, c: Call)
    ensures Next(v, c).closed <==> Closes(v, c) || (v.closed && !Opens(c))
    ensures Closes(v, c) ==> !Opens(c)
  {
  }

  function Queued(calls: seq<Call>): seq<Input> {
    if calls == [] then []
    else
      var last := calls[|calls| - 1];
      Queued(calls[..|calls| - 1]) + (if last.QueueFollowUp? then [last.input] else [])
  }

  /** The answers of the successful pops. */
  function Popped(calls: seq<Call>): seq<Input> {
    if calls == [] then []
    else
      var before, last := calls[..|calls| - 1], calls[|calls| - 1];
      var waiting := RunView(FRESH, before).followUps;
      Popped(before) + (if last.PopFollowUp? && waiting != [] then [waiting[0]] else [])
  }

  /** What one call does to the follow-ups of a thread. */
  lemma FollowUpsAfter(v: View, c: Call)
    ensures Next(v, c).followUps ==
            if c.QueueFollowUp? then v.followUps + [c.input]
            else if c.PopFollowUp? && v.followUps != [] then v.followUps[1..]
            else v.followUps
  {
  }

  /** Follow-ups are handed out in order: nothing is lost, repeated or overtaken. */
  lemma {:induction false} FollowUpsAreFifo(calls: seq<Call>)
    ensures Popped(calls) + RunView(FRESH, calls).followUps == Queued(calls)
  {
    hide Next;
    if calls != [] {
      var before, last := calls[..|calls| - 1], calls[|calls| - 1];
      FollowUpsAreFifo(before);
      FollowUpsAfter(RunView(FRESH, before), last);
      var waiting := RunView(FRESH, before).followUps;
      if last.PopFollowUp? && waiting != [] {
        assert waiting == [waiting[0]] + waiting[1..];
      }
    }
  }

  // ---- What each field of a thread holds -----------------------------------------------------

  function StartsTurn(c: Call): Option<ActiveTurn> {
    if c.SetActiveTurn? then Some(c.turn) else None
  }

  predicate EndsTurn(turn: ActiveTurn, c: Call) {
    c.ClearActiveTurn? && c.turnId == turn.turnId
  }

  function StartsResume(c: Call): Option<TurnId> {
    if c.SetDurableResume? then Some(c.turnId) else None
  }

  predicate EndsResume(id: TurnId, c: Call) {
    c.ClearDurableResume? && c.turnId == id
  }

  function AsksApproval(c: Call): Option<PendingApproval> {
    if c.SetPendingApproval? then Some(c.approval) else None
  }

  predicate SettlesApproval(a: PendingApproval, c: Call) {
    c.ClearPendingApproval? && c.requestId == a.requestId
  }

  function Joins(conn: Connection): Call -> Option<()> {
    (c: Call) => if (c.Subscribe? && c.connection == conn) || (c.SubscribeAndSnapshot? && c.connection == conn && c.succeeds)
                 then Some(()) else None
  }

  function Leaves(conn: Connection): ((), Call) -> bool {
    (_, c: Call) => (c.Unsubscribe? && c.connection == conn) || (c.UnsubscribeConnection? && c.connection == conn)
  }

  /**
   A thread's active turn, durable resume and pending approval are those set last and not
   cleared by their own id since; a connection is subscribed exactly when it joined and has
   not left since.
   */
  lemma {:induction false} FieldsAreHeld(calls: seq<Call>, conn: Connection)
    ensures var v := RunView(FRESH, calls);
            && v.active == Held(calls, StartsTurn, EndsTurn)
            && v.durable == Held(calls, StartsResume, EndsResume)
            && v.approval == Held(calls, AsksApproval, SettlesApproval)
            && (conn in v.subscribers <==> Held(calls, Joins(conn), Leaves(conn)).Some?)
  {
    if calls != [] {
      FieldsAreHeld(calls[..|calls| - 1], conn);
      FieldsAfter(RunView(FRESH, calls[..|calls| - 1]), calls[|calls| - 1], conn);
      hide Next;
    }
  }

  lemma FieldsAfter(v: View, c: Call, conn: Connection)
    ensures Next(v, c).active ==
            if c.SetActiveTurn? then Some(c.turn) else if v.active.Some? && EndsTurn(v.active.value, c) then None else v.active
    ensures Next(v, c).durable ==
            if c.SetDurableResume? then Some(c.turnId) else if v.durable.Some? && EndsResume(v.durable.value, c) then None else v.durable
    ensures Next(v, c).approval ==
            if c.SetPendingApproval? then Some(c.approval)
            else if v.approval.Some? && SettlesApproval(v.approval.value, c) then None else v.approval
    ensures conn in Next(v, c).subscribers <==>
            Joins(conn)(c).Some? || (conn in v.subscribers && !Leaves(conn)((), c))
  {
  }

  // ---- The manager in place ---------------------------------------------------------------------

  class ThreadStateManager {
    var subscribers: map<Thread, set<Connection>>
    var activeTurns: map<Thread, ActiveTurn>
    var durableResumes: map<Thread, TurnId>
    var pendingApprovals: map<Thread, PendingApproval>
    var followUps: map<Thread, seq<Input>>
    var closedThreads: set<Thread>

    constructor ()
      ensures Value() == EMPTY
    {
      subscribers, activeTurns, durableResumes := map[], map[], map[];
      pendingApprovals, followUps, closedThreads := map[], map[], {};
    }

    function Value(): Inner
      reads this
    {
      Inner(subscribers, activeTurns, durableResumes, pendingApprovals, followUps, closedThreads)
    }

    /** Adds the subscriber, returning whether it is new and whether the thread was closed. */
    method AddConnection(t: Thread, c: Connection) returns (inserted: bool, wasClosed: bool)
      modifies this
      ensures Value() == AddSubscriber(old(Value()), t, c)
      ensures inserted <==> c !in SubscribersOf(old(Value()), t)
      ensures wasClosed <==> t in old(closedThreads)
    {
      wasClosed := t in closedThreads;
      closedThreads := closedThreads - {t};
      var entry := if t in subscribers then subscribers[t] else {};
      inserted := c !in entry;
      subscribers := subscribers[t := entry + {c}];
    }

    method SubscribeWithSnapshot(t: Thread, c: Connection, succeeds: bool)
      modifies this
      ensures Value() == Apply(old(Value()), SubscribeAndSnapshot(t, c, succeeds))
    {
      var inserted, wasClosed := AddConnection(t, c);
      if !succeeds {
        if inserted && t in subscribers {
          var rest := subscribers[t] - {c};
          subscribers := if rest == {} then subscribers - {t} else subscribers[t := rest];
        }
        if wasClosed {
          closedThreads := closedThreads + {t};
        }
      }
    }

    method UnsubscribeOne(t: Thread, c: Connection) returns (closed: bool)
      modifies this
      ensures Value() == Apply(old(Value()), Unsubscribe(t, c))
      ensures closed <==> NothingLive(Value(), t)
      ensures NoEmptyEntry(old(Value()), t) ==> (closed <==> Closes(ViewOf(old(Value()), t), Unsubscribe(t, c)))
    {
      if t in subscribers {
        var rest := subscribers[t] - {c};
        subscribers := if rest == {} then subscribers - {t} else subscribers[t := rest];
      }
      closed := t !in subscribers && t !in activeTurns && t !in durableResumes;
      if closed {
        closedThreads := closedThreads + {t};
      }
    }

    /** Drops a connection from every thread, and the threads' entries that become empty. */
    method RetainOthers(c: Connection)
      modifies this
      ensures Value() == Apply(old(Value()), UnsubscribeConnection(c))
    {
      var left := subscribers.Keys;
      ghost var before := subscribers;
      while left != {}
        invariant left <= subscribers.Keys <= before.Keys
        invariant forall t :: t in left ==> subscribers[t] == before[t]
        invariant forall t :: t in before && t !in left ==> (t in subscribers <==> before[t] - {c} != {})
        invariant forall t :: t in subscribers && t !in left ==> subscribers[t] == before[t] - {c}
        invariant Value() == old(Value()).(subscribers := subscribers)
        decreases left
      {
        var t :| t in left;
        left := left - {t};
        var rest := subscribers[t] - {c};
        subscribers := if rest == {} then subscribers - {t} else subscribers[t := rest];
      }
      assert subscribers == DropConnection(before, c);
    }

    method StartTurn(t: Thread, turn: ActiveTurn)
      modifies this
      ensures Value() == Apply(old(Value()), SetActiveTurn(t, turn))
    {
      closedThreads := closedThreads - {t};
      activeTurns := activeTurns[t := turn];
    }

    method FinishTurn(t: Thread, turnId: TurnId)
      modifies this
      ensures Value() == Apply(old(Value()), ClearActiveTurn(t, turnId))
    {
      if t in activeTurns && activeTurns[t].turnId == turnId {
        activeTurns := activeTurns - {t};
      }
    }

    method Enqueue(t: Thread, input: Input)
      modifies this
      ensures Value() == Apply(old(Value()), QueueFollowUp(t, input))
    {
      var queue := if t in followUps then followUps[t] else [];
      followUps := followUps[t := queue + [input]];
    }

    method Dequeue(t: Thread) returns (next: Option<Input>)
      modifies this
      ensures Value() == Apply(old(Value()), PopFollowUp(t))
      ensures next == var waiting := FollowUpsOf(old(Value()), t); if waiting == [] then None else Some(waiting[0])
    {
      next := None;
      if t in followUps && followUps[t] != [] {
        next := Some(followUps[t][0]);
        followUps := followUps[t := followUps[t][1..]];
      }
      if t in followUps && followUps[t] == [] {
        followUps := followUps - {t};
      }
    }
  }
}

/**
 The approval broker (approval.rs): requests wait for a decision, cancellation
 denies them, and a session approval is remembered for its tool.
 */
module Approval {
  import opened Common

  type Id = string

  datatype Decision =
    | Approved
    | ApprovedForSession
    | Denied(text: string)
    | TimedOut(text: string)
    | NeedsApproval
    | Detailed(decision: Decision, reason: Option<string>, metadata: map<string, string>)

  datatype Action = Allow | AllowSession | Deny | Timeout | Undecided

  /** Details wrap a decision without changing what it does. */
  function ActionOf(d: Decision): Action {
    match d
    case Approved => Allow
    case ApprovedForSession => AllowSession
    case Denied(_) => Deny
    case TimedOut(_) => Timeout
    case NeedsApproval => Undecided
    case Detailed(inner, _, _) => ActionOf(inner)
  }

  /** A decision without its wrappings. */
  function Bare(d: Decision): Decision {
    if d.Detailed? then Bare(d.decision) else d
  }

  lemma {:induction false} DetailsDoNotMatter(d: Decision)
    ensures !Bare(d).Detailed?
    ensures match ActionOf(d)
            case Allow => Bare(d).Approved?
            case AllowSession => Bare(d).ApprovedForSession?
            case Deny => Bare(d).Denied?
            case Timeout => Bare(d).TimedOut?
            case Undecided => Bare(d).NeedsApproval?
  {
    if d.Detailed? { DetailsDoNotMatter(d.decision); }
  }

  datatype Pending = Pending(tool: string, decision: Option<Decision>)

  datatype Broker = Broker(pending: map<Id, Pending>, sessionAllowed: set<string>, cancel: Option<Decision>)

  const EMPTY := Broker(map[], {}, None)

  const TIMED_OUT := TimedOut("Approval request timed out.")

  /**
   The locked sections.  `Wait` is one pass of the loop in `wait_blocking`, made
   when the waiter holds the lock; `expired` says whether its time is up.
   */
  datatype Call =
    | Register(id: Id, tool: string)
    | Resolve(id: Id, decision: Decision)
    | Discard(id: Id)
    | CancelPending(reason: string)
    | ResetCancelled
    | Wait(id: Id, expired: bool)

  predicate IsUndecided(b: Broker, id: Id) {
    id in b.pending && b.pending[id].decision.None?
  }

  predicate IsDecided(b: Broker, id: Id) {
    id in b.pending && b.pending[id].decision.Some?
  }

  function UndecidedIds(b: Broker): set<Id> {
    set id | id in b.pending && b.pending[id].decision.None?
  }

  /** What `register` stores: a cancellation wins over a session approval. */
  function DecisionAtBirth(b: Broker, tool: string): Option<Decision> {
    if b.cancel.Some? then b.cancel
    else if tool in b.sessionAllowed then Some(ApprovedForSession)
    else None
  }

  /** What `resolve` stores: a cancellation would override the caller's decision. */
  function DecisionToStore(b: Broker, d: Decision): Decision {
    if b.cancel.Some? then b.cancel.value else d
  }

  function Decide(p: Pending, d: Decision): Pending {
    if p.decision.None? then p.(decision := Some(d)) else p
  }

  function DecideAll(m: map<Id, Pending>, d: Decision): map<Id, Pending> {
    map id | id in m :: Decide(m[id], d)
  }

  function Apply(b: Broker, c: Call): Broker {
    match c
    case Register(id, tool) => b.(pending := b.pending[id := Pending(tool, DecisionAtBirth(b, tool))])
    case Resolve(id, d) =>
      if IsUndecided(b, id) then
        var stored := DecisionToStore(b, d);
        b.(pending := b.pending[id := Decide(b.pending[id], stored)],
           sessionAllowed := b.sessionAllowed + (if ActionOf(stored) == AllowSession then {b.pending[id].tool} else {}))
      else b
    case Discard(id) => b.(pending := b.pending - {id})
    case CancelPending(reason) => b.(pending := DecideAll(b.pending, Denied(reason)), cancel := Some(Denied(reason)))
    case ResetCancelled => b.(cancel := None)
    case Wait(id, expired) => if IsDecided(b, id) || expired then b.(pending := b.pending - {id}) else b
  }

  /** What a waiter's pass returns; nothing means that it blocks. */
  function WaitAnswer(b: Broker, id: Id, expired: bool): Option<Decision> {
    if IsDecided(b, id) then b.pending[id].decision
    else if expired then Some(TIMED_OUT)
    else None
  }

  function Run(b: Broker, calls: seq<Call>): Broker {
    if calls == [] then b else Apply(Run(b, calls[..|calls| - 1]), calls[|calls| - 1])
  }

  // ---- The history of one id --------------------------------------------------------------

  /** What an observer of the table and of the waiters sees happen to one id. */
  datatype Mark =
    | Registered
    | Stored(decision: Decision)
    | Delivered(decision: Decision)
    | Expired(decision: Decision)
    | Dropped

  function StoredMark(d: Option<Decision>): seq<Mark> {
    if d.Some? then [Stored(d.value)] else []
  }

  /** The marks one call leaves, read off the tables before and after it and off its answer. */
  function MarksOf(b: Broker, c: Call, id: Id): seq<Mark> {
    var b' := Apply(b, c);
    if c.Register? && c.id == id then [Registered] + (if id in b'.pending then StoredMark(b'.pending[id].decision) else [])
    else if c.Wait? && c.id == id && WaitAnswer(b, id, c.expired).Some? then
      var answer := WaitAnswer(b, id, c.expired).value;
      [if IsDecided(b, id) then Delivered(answer) else Expired(answer)]
    else if id in b.pending && id !in b'.pending then [Dropped]
    else if id in b.pending && b'.pending[id].decision != b.pending[id].decision then StoredMark(b'.pending[id].decision)
    else []
  }

  function History(b: Broker, calls: seq<Call>, id: Id): seq<Mark> {
    if calls == [] then []
    else History(b, calls[..|calls| - 1], id) + MarksOf(Run(b, calls[..|calls| - 1]), calls[|calls| - 1], id)
  }

  /** The life of an id that is registered once; a waiter that gives up is told of a timeout. */
  datatype Fate = Unseen | Open | Settled(decision: Decision) | Gone

  function Next(f: Fate, m: Mark): Option<Fate> {
    match (f, m)
    case (Unseen, Registered) => Some(Open)
    case (Unseen, Expired(d)) => if ActionOf(d).Timeout? then Some(Unseen) else None
    case (Open, Stored(d)) => Some(Settled(d))
    case (Open, Expired(d)) => if ActionOf(d).Timeout? then Some(Gone) else None
    case (Open, Dropped) => Some(Gone)
    case (Settled(d), Delivered(d')) => if d == d' then Some(Gone) else None
    case (Settled(d), Dropped) => Some(Gone)
    case (Gone, Expired(d)) => if ActionOf(d).Timeout? then Some(Gone) else None
    case _ => None
  }

  function Track(marks: seq<Mark>): Option<Fate> {
    if marks == [] then Some(Unseen)
    else
      var before := Track(marks[..|marks| - 1]);
      if before.Some? then Next(before.value, marks[|marks| - 1]) else None
  }

  function Registrations(calls: seq<Call>, id: Id): nat {
    if calls == [] then 0
    else
      var last := calls[|calls| - 1];
      Registrations(calls[..|calls| - 1], id) + (if last.Register? && last.id == id then 1 else 0)
  }

  predicate Agrees(f: Fate, b: Broker, id: Id) {
    match f
    case Open => IsUndecided(b, id)
    case Settled(d) => id in b.pending && b.pending[id].decision == Some(d)
    case _ => id !in b.pending
  }

  lemma TrackSnoc(marks: seq<Mark>, m: Mark)
    ensures Track(marks + [m]) == if Track(marks).Some? then Next(Track(marks).value, m) else None
  {
    assert (marks + [m])[..|marks|] == marks;
  }

  lemma TrackStored(marks: seq<Mark>, d: Option<Decision>)
    requires Track(marks) == Some(Open)
    ensures Track(marks + StoredMark(d)) == Some(if d.Some? then Settled(d.value) else Open)
  {
    if d.Some? { TrackSnoc(marks, Stored(d.value)); } else { assert marks + [] == marks; }
  }

  lemma GivingUpIsATimeout()
    ensures ActionOf(TIMED_OUT).Timeout?
  {
  }

  /** One call takes the tracked life of an id to the life the new table shows. */
  lemma StepTracks(marks: seq<Mark>, b: Broker, c: Call, id: Id)
    requires Track(marks).Some? && Agrees(Track(marks).value, b, id)
    requires c.Register? && c.id == id ==> Track(marks).value == Unseen
    ensures var t := Track(marks + MarksOf(b, c, id));
            && t.Some? && Agrees(t.value, Apply(b, c), id)
            && (t.value == Unseen <==> Track(marks).value == Unseen && !(c.Register? && c.id == id))
  {
    hide Track, ActionOf;
    GivingUpIsATimeout();
    var b' := Apply(b, c);
    if c.Register? && c.id == id {
      TrackSnoc(marks, Registered);
      TrackStored(marks + [Registered], b'.pending[id].decision);
      assert marks + MarksOf(b, c, id) == marks + [Registered] + StoredMark(b'.pending[id].decision);
    } else if c.Wait? && c.id == id && WaitAnswer(b, id, c.expired).Some? {
      TrackSnoc(marks, MarksOf(b, c, id)[0]);
    } else if id in b.pending && id !in b'.pending {
      TrackSnoc(marks, Dropped);
    } else if id in b.pending && b'.pending[id].decision != b.pending[id].decision {
      assert IsUndecided(b, id) && b'.pending[id].decision.Some?;
      TrackStored(marks, b'.pending[id].decision);
    } else {
      assert marks + MarksOf(b, c, id) == marks;
    }
  }

  /**
   In every run of the broker, an id that is registered at most once follows its
   life cycle exactly, and the table shows where in it the id is.
   */
  lemma {:induction false} LivesAreTracked(calls: seq<Call>, id: Id)
    requires Registrations(calls, id) <= 1
    ensures var t := Track(History(EMPTY, calls, id));
            && t.Some? && Agrees(t.value, Run(EMPTY, calls), id)
            && (t.value == Unseen <==> Registrations(calls, id) == 0)
  {
    hide Track, Apply, MarksOf, Agrees;
    if calls != [] {
      var before := calls[..|calls| - 1];
      LivesAreTracked(before, id);
      StepTracks(History(EMPTY, before, id), Run(EMPTY, before), calls[|calls| - 1], id);
    } else {
      EmptyLife(id);
    }
  }

  lemma EmptyLife(id: Id)
    ensures Track([]) == Some(Unseen) && Agrees(Unseen, EMPTY, id)
  {
  }

  function StoredAmong(marks: seq<Mark>): seq<Decision> {
    if marks == [] then []
    else
      var last := marks[|marks| - 1];
      StoredAmong(marks[..|marks| - 1]) + (if last.Stored? then [last.decision] else [])
  }

  function DeliveredAmong(marks: seq<Mark>): seq<Decision> {
    if marks == [] then []
    else
      var last := marks[|marks| - 1];
      DeliveredAmong(marks[..|marks| - 1]) + (if last.Delivered? then [last.decision] else [])
  }

  lemma {:induction false} TrackedCounts(marks: seq<Mark>)
    requires Track(marks).Some?
    ensures match Track(marks).value
            case Unseen => StoredAmong(marks) == [] && DeliveredAmong(marks) == []
            case Open => StoredAmong(marks) == [] && DeliveredAmong(marks) == []
            case Settled(d) => StoredAmong(marks) == [d] && DeliveredAmong(marks) == []
            case Gone => |StoredAmong(marks)| <= 1 && (DeliveredAmong(marks) == [] || DeliveredAmong(marks) == StoredAmong(marks))
  {
    if marks != [] {
      TrackedCounts(marks[..|marks| - 1]);
    }
  }

  /**
   A decision is written at most once, stays as written until the request leaves, and is
   delivered at most once, as it was written.
   */
  lemma DecidedAndDeliveredOnce(calls: seq<Call>, id: Id)
    requires Registrations(calls, id) <= 1
    ensures var marks := History(EMPTY, calls, id);
            var b := Run(EMPTY, calls);
            && |StoredAmong(marks)| <= 1
            && (DeliveredAmong(marks) == [] || DeliveredAmong(marks) == StoredAmong(marks))
            && (IsUndecided(b, id) ==> StoredAmong(marks) == [])
            && (IsDecided(b, id) ==> StoredAmong(marks) == [b.pending[id].decision.value] && DeliveredAmong(marks) == [])
  {
    hide Track, StoredAmong, DeliveredAmong;
    LivesAreTracked(calls, id);
    TrackedCounts(History(EMPTY, calls, id));
  }

  /** Registering a used id again lets one more decision be written under it. */
  lemma RegisteringAgainReopens(calls: seq<Call>, id: Id, tool: string, d: Decision)
    requires DecisionAtBirth(Run(EMPTY, calls), tool).None?
    ensures StoredAmong(History(EMPTY, calls + [Register(id, tool)] + [Resolve(id, d)], id))
            == StoredAmong(History(EMPTY, calls, id)) + [d]
  {
    hide StoredAmong, Run, History, MarksOf, Apply;
    var h, b := History(EMPTY, calls, id), Run(EMPTY, calls);
    HistorySnoc(calls, Register(id, tool), id);
    HistorySnoc(calls + [Register(id, tool)], Resolve(id, d), id);
    MarksWhenReopened(b, id, tool, d);
    AmongSnoc(h, Registered);
    AmongSnoc(h + [Registered], Stored(d));
  }

  lemma HistorySnoc(calls: seq<Call>, c: Call, id: Id)
    ensures History(EMPTY, calls + [c], id) == History(EMPTY, calls, id) + MarksOf(Run(EMPTY, calls), c, id)
    ensures Run(EMPTY, calls + [c]) == Apply(Run(EMPTY, calls), c)
  {
    assert (calls + [c])[..|calls|] == calls;
  }

  lemma MarksWhenReopened(b: Broker, id: Id, tool: string, d: Decision)
    requires DecisionAtBirth(b, tool).None?
    ensures MarksOf(b, Register(id, tool), id) == [Registered]
    ensures MarksOf(Apply(b, Register(id, tool)), Resolve(id, d), id) == [Stored(d)]
  {
  }

  // ---- Ids registered any number of times ----------------------------------------------------

  function One(b: bool): nat {
    if b then 1 else 0
  }

  /** The call takes an undecided request out of the table, or replaces it, undecided. */
  predicate Abandons(b: Broker, c: Call, id: Id) {
    IsUndecided(b, id) && (c.Register? || c.Discard? || (c.Wait? && c.expired)) && c.id == id
  }

  /** The call takes a decided request out of the table, or replaces it, undelivered. */
  predicate Forgets(b: Broker, c: Call, id: Id) {
    IsDecided(b, id) && (c.Register? || c.Discard?) && c.id == id
  }

  function Abandoned(calls: seq<Call>, id: Id): nat {
    if calls == [] then 0
    else
      var before := calls[..|calls| - 1];
      Abandoned(before, id) + One(Abandons(Run(EMPTY, before), calls[|calls| - 1], id))
  }

  function Forgotten(calls: seq<Call>, id: Id): nat {
    if calls == [] then 0
    else
      var before := calls[..|calls| - 1];
      Forgotten(before, id) + One(Forgets(Run(EMPTY, before), calls[|calls| - 1], id))
  }

  /** The decision written last. */
  function LastStored(marks: seq<Mark>): Option<Decision> {
    if marks == [] then None
    else
      var last := marks[|marks| - 1];
      if last.Stored? then Some(last.decision) else LastStored(marks[..|marks| - 1])
  }

  lemma AmongSnoc(marks: seq<Mark>, m: Mark)
    ensures StoredAmong(marks + [m]) == StoredAmong(marks) + (if m.Stored? then [m.decision] else [])
    ensures DeliveredAmong(marks + [m]) == DeliveredAmong(marks) + (if m.Delivered? then [m.decision] else [])
    ensures LastStored(marks + [m]) == if m.Stored? then Some(m.decision) else LastStored(marks)
  {
    assert (marks + [m])[..|marks|] == marks;
  }

  lemma AmongStored(marks: seq<Mark>, d: Option<Decision>)
    ensures |StoredAmong(marks + StoredMark(d))| == |StoredAmong(marks)| + One(d.Some?)
    ensures DeliveredAmong(marks + StoredMark(d)) == DeliveredAmong(marks)
    ensures LastStored(marks + StoredMark(d)) == if d.Some? then d else LastStored(marks)
  {
    if d.Some? { AmongSnoc(marks, Stored(d.value)); } else { assert marks + [] == marks; }
  }

  /** What one call does to the books of an id. */
  lemma StepBalances(h: seq<Mark>, b: Broker, c: Call, id: Id)
    requires IsDecided(b, id) ==> LastStored(h) == b.pending[id].decision
    ensures var h', b' := h + MarksOf(b, c, id), Apply(b, c);
            && |StoredAmong(h')| + One(IsUndecided(b', id)) + One(Abandons(b, c, id))
               == |StoredAmong(h)| + One(IsUndecided(b, id)) + One(c.Register? && c.id == id)
            && |DeliveredAmong(h')| + One(IsDecided(b', id)) + One(Forgets(b, c, id)) + |StoredAmong(h)|
               == |DeliveredAmong(h)| + One(IsDecided(b, id)) + |StoredAmong(h')|
            && (IsDecided(b', id) ==> LastStored(h') == b'.pending[id].decision)
  {
    hide StoredAmong, DeliveredAmong, LastStored, ActionOf;
    var b' := Apply(b, c);
    if c.Register? && c.id == id {
      var d := b'.pending[id].decision;
      AmongSnoc(h, Registered);
      AmongStored(h + [Registered], d);
      assert h + MarksOf(b, c, id) == h + [Registered] + StoredMark(d);
    } else if c.Wait? && c.id == id && WaitAnswer(b, id, c.expired).Some? {
      AmongSnoc(h, MarksOf(b, c, id)[0]);
    } else if id in b.pending && id !in b'.pending {
      AmongSnoc(h, Dropped);
    } else if id in b.pending && b'.pending[id].decision != b.pending[id].decision {
      AmongStored(h, b'.pending[id].decision);
    } else {
      assert h + MarksOf(b, c, id) == h;
    }
  }

  /**
   The books of any id, over every run, however often it is registered: each registration is
   decided, abandoned undecided, or still open; each decision is delivered, forgotten
   undelivered, or still in the table, as it was written last.
   */
  lemma {:induction false} BooksBalance(calls: seq<Call>, id: Id)
    ensures var h, b := History(EMPTY, calls, id), Run(EMPTY, calls);
            && |StoredAmong(h)| + Abandoned(calls, id) + One(IsUndecided(b, id)) == Registrations(calls, id)
            && |DeliveredAmong(h)| + Forgotten(calls, id) + One(IsDecided(b, id)) == |StoredAmong(h)|
            && (IsDecided(b, id) ==> LastStored(h) == b.pending[id].decision)
  {
    hide StoredAmong, DeliveredAmong, LastStored, Apply, MarksOf, Abandons, Forgets, IsDecided, IsUndecided;
    if calls == [] {
      EmptyBooks(id);
    } else {
      var before := calls[..|calls| - 1];
      BooksBalance(before, id);
      StepBalances(History(EMPTY, before, id), Run(EMPTY, before), calls[|calls| - 1], id);
    }
  }

  lemma EmptyBooks(id: Id)
    ensures StoredAmong([]) == [] && DeliveredAmong([]) == []
    ensures !IsUndecided(EMPTY, id) && !IsDecided(EMPTY, id)
  {
  }

  /** Every waiter that is given a decision is given the one written last before. */
  lemma {:induction false} DeliveredAsWritten(calls: seq<Call>, id: Id, k: nat)
    requires k < |History(EMPTY, calls, id)| && History(EMPTY, calls, id)[k].Delivered?
    ensures LastStored(History(EMPTY, calls, id)[..k]) == Some(History(EMPTY, calls, id)[k].decision)
  {
    hide LastStored, Apply;
    var before, c := calls[..|calls| - 1], calls[|calls| - 1];
    var h, b := History(EMPTY, before, id), Run(EMPTY, before);
    var h' := History(EMPTY, calls, id);
    assert h' == h + MarksOf(b, c, id);
    if k < |h| {
      DeliveredAsWritten(before, id, k);
      assert h'[..k] == h[..k];
    } else {
      DeliveredMark(b, c, id, k - |h|);
      BooksBalance(before, id);
      assert h'[..k] == h;
    }
  }

  lemma DeliveredMark(b: Broker, c: Call, id: Id, k: nat)
    requires k < |MarksOf(b, c, id)| && MarksOf(b, c, id)[k].Delivered?
    ensures k == 0 && IsDecided(b, id) && b.pending[id].decision == Some(MarksOf(b, c, id)[0].decision)
  {
  }

  /**
   What a waiter is told, in every run: the decision on record, as it was written last, or,
   with its time up and nothing decided, a timeout; with neither it blocks.
   */
  lemma WaitersAreTold(calls: seq<Call>, id: Id, expired: bool)
    ensures var b := Run(EMPTY, calls);
            var answer := WaitAnswer(b, id, expired);
            if id in b.pending && b.pending[id].decision.Some? then
              answer == b.pending[id].decision == LastStored(History(EMPTY, calls, id))
            else if expired then answer == Some(TimedOut("Approval request timed out."))
            else answer.None?
  {
    hide LastStored, History, Run;
    BooksBalance(calls, id);
  }

  /** So an answer that lets the tool run was always written under the id before. */
  lemma ApprovalsWereWritten(calls: seq<Call>, id: Id, expired: bool)
    ensures var answer := WaitAnswer(Run(EMPTY, calls), id, expired);
            answer.Some? && (ActionOf(answer.value).Allow? || ActionOf(answer.value).AllowSession?) ==>
              LastStored(History(EMPTY, calls, id)) == answer
  {
    hide LastStored, History, Run;
    WaitersAreTold(calls, id, expired);
  }

  /** Register, resolve and wait, once for each decision. */
  function Rounds(id: Id, tool: string, ds: seq<Decision>): seq<Call> {
    if ds == [] then []
    else Rounds(id, tool, ds[..|ds| - 1]) + [Register(id, tool)] + [Resolve(id, ds[|ds| - 1])] + [Wait(id, false)]
  }

  /** The bound is met: an id registered n times can have any n decisions written and delivered. */
  lemma {:induction false} AnyDecisionsCanBeDelivered(id: Id, tool: string, ds: seq<Decision>)
    requires forall i :: 0 <= i < |ds| ==> ActionOf(ds[i]) != AllowSession
    ensures var calls := Rounds(id, tool, ds);
            && Registrations(calls, id) == |ds|
            && StoredAmong(History(EMPTY, calls, id)) == ds == DeliveredAmong(History(EMPTY, calls, id))
            && Run(EMPTY, calls) == EMPTY
  {
    hide StoredAmong, DeliveredAmong, History, Run, Registrations;
    if ds == [] {
      EmptyRound(id);
    } else {
      AnyDecisionsCanBeDelivered(id, tool, ds[..|ds| - 1]);
      RoundDelivers(Rounds(id, tool, ds[..|ds| - 1]), id, tool, ds[|ds| - 1]);
      assert ds == ds[..|ds| - 1] + [ds[|ds| - 1]];
    }
  }

  lemma RoundDelivers(start: seq<Call>, id: Id, tool: string, d: Decision)
    requires Run(EMPTY, start) == EMPTY && ActionOf(d) != AllowSession
    ensures var calls, h := start + [Register(id, tool)] + [Resolve(id, d)] + [Wait(id, false)], History(EMPTY, start, id);
            && Registrations(calls, id) == Registrations(start, id) + 1
            && StoredAmong(History(EMPTY, calls, id)) == StoredAmong(h) + [d]
            && DeliveredAmong(History(EMPTY, calls, id)) == DeliveredAmong(h) + [d]
            && Run(EMPTY, calls) == EMPTY
  {
    hide StoredAmong, DeliveredAmong, History, Run, Apply, MarksOf, Registrations;
    var h := History(EMPTY, start, id);
    var c1 := start + [Register(id, tool)];
    var c2 := c1 + [Resolve(id, d)];
    HistorySnoc(start, Register(id, tool), id);
    HistorySnoc(c1, Resolve(id, d), id);
    HistorySnoc(c2, Wait(id, false), id);
    OneRound(id, tool, d);
    RegistrationsSnoc(start, Register(id, tool), id);
    RegistrationsSnoc(c1, Resolve(id, d), id);
    RegistrationsSnoc(c2, Wait(id, false), id);
    AmongSnoc(h, Registered);
    AmongSnoc(h + [Registered], Stored(d));
    AmongSnoc(h + [Registered] + [Stored(d)], Delivered(d));
  }

  lemma EmptyRound(id: Id)
    ensures StoredAmong(History(EMPTY, [], id)) == [] == DeliveredAmong(History(EMPTY, [], id))
    ensures Run(EMPTY, []) == EMPTY && Registrations([], id) == 0
  {
  }

  lemma RegistrationsSnoc(calls: seq<Call>, c: Call, id: Id)
    ensures Registrations(calls + [c], id) == Registrations(calls, id) + One(c.Register? && c.id == id)
  {
    assert (calls + [c])[..|calls|] == calls;
  }

  lemma OneRound(id: Id, tool: string, d: Decision)
    requires ActionOf(d) != AllowSession
    ensures var b1 := Apply(EMPTY, Register(id, tool));
            var b2 := Apply(b1, Resolve(id, d));
            && MarksOf(EMPTY, Register(id, tool), id) == [Registered]
            && MarksOf(b1, Resolve(id, d), id) == [Stored(d)]
            && MarksOf(b2, Wait(id, false), id) == [Delivered(d)]
            && Apply(b2, Wait(id, false)) == EMPTY
  {
    hide ActionOf;
    assert Apply(EMPTY, Register(id, tool)) == EMPTY.(pending := map[id := Pending(tool, None)]);
  }

  /**
   A number of registrations guarantees that at most one decision is written, and at most one
   delivered, exactly when it is at most one.
   */
  lemma AtMostOnceIff(id: Id, n: nat)
    ensures (forall calls :: Registrations(calls, id) == n ==> |StoredAmong(History(EMPTY, calls, id))| <= 1) <==> n <= 1
    ensures (forall calls :: Registrations(calls, id) == n ==> |DeliveredAmong(History(EMPTY, calls, id))| <= 1) <==> n <= 1
  {
    hide StoredAmong, DeliveredAmong, History, Registrations;
    forall calls ensures |DeliveredAmong(History(EMPTY, calls, id))| <= |StoredAmong(History(EMPTY, calls, id))| <= Registrations(calls, id) {
      BooksBalance(calls, id);
    }
    var ds := seq(n, _ => Approved);
    AnyDecisionsCanBeDelivered(id, "", ds);
    assert Registrations(Rounds(id, "", ds), id) == n;
  }

  // ---- Cancellation and session grants -------------------------------------------------------

  /** Grants that no stored decision can contradict, and nothing undecided under a cancellation. */
  predicate Consistent(b: Broker) {
    && (b.cancel.Some? ==> b.cancel.value.Denied? && forall id :: id in b.pending ==> b.pending[id].decision.Some?)
    && (forall id :: id in b.pending && b.pending[id].decision.Some? && ActionOf(b.pending[id].decision.value) == AllowSession
          ==> b.pending[id].tool in b.sessionAllowed)
  }

  lemma {:induction false} EveryRunIsConsistent(calls: seq<Call>)
    ensures Consistent(Run(EMPTY, calls))
  {
    if calls != [] { EveryRunIsConsistent(calls[..|calls| - 1]); }
  }

  /**
   While cancelled, `resolve` always fails and changes nothing; so whenever it succeeds it
   stores the caller's own decision, and the override by the cancellation is never taken.
   */
  lemma OverrideIsNeverTaken(calls: seq<Call>, id: Id, d: Decision)
    ensures var b := Run(EMPTY, calls);
            && (b.cancel.Some? ==> !IsUndecided(b, id) && Apply(b, Resolve(id, d)) == b)
            && (IsUndecided(b, id) ==> DecisionToStore(b, d) == d && Apply(b, Resolve(id, d)).pending[id].decision == Some(d))
  {
    EveryRunIsConsistent(calls);
  }

  /**
   From a cancellation until it is reset or repeated nothing is undecided, and every id
   registered in that time is denied with its reason.
   */
  lemma {:induction false} CancellationDeniesLaterRequests(calls: seq<Call>, reason: string, after: seq<Call>, id: Id)
    requires forall k :: 0 <= k < |after| ==> !after[k].ResetCancelled? && !after[k].CancelPending?
    ensures var b := Run(EMPTY, calls + [CancelPending(reason)] + after);
            && b.cancel == Some(Denied(reason))
            && (Registrations(after, id) > 0 && id in b.pending ==> b.pending[id].decision == Some(Denied(reason)))
            && UndecidedIds(b) == {}
    decreases |after|
  {
    var start := calls + [CancelPending(reason)];
    if after == [] {
      assert start + after == start && start[..|start| - 1] == calls;
    } else {
      var front, c := after[..|after| - 1], after[|after| - 1];
      CancellationDeniesLaterRequests(calls, reason, front, id);
      assert (start + after)[..|start + after| - 1] == start + front;
      EveryRunIsConsistent(start + front);
      EveryRunIsConsistent(start + after);
    }
  }

  /** The last cancellation, and no reset since. */
  predicate CancelledAt(calls: seq<Call>, k: nat) {
    && k < |calls| && calls[k].CancelPending?
    && forall j :: k < j < |calls| ==> !calls[j].CancelPending? && !calls[j].ResetCancelled?
  }

  /** The broker is cancelled exactly from a cancellation to the next reset, with the reason given last. */
  lemma {:induction false} CancelledIff(calls: seq<Call>)
    ensures forall k: nat :: CancelledAt(calls, k) ==> Run(EMPTY, calls).cancel == Some(Denied(calls[k].reason))
    ensures (forall k: nat :: !CancelledAt(calls, k)) ==> Run(EMPTY, calls).cancel.None?
  {
    if calls != [] {
      var n := |calls| - 1;
      CancelledIff(calls[..n]);
      CancelAfter(Run(EMPTY, calls[..n]), calls[n]);
      hide Apply, CancelledAt;
      forall k: nat ensures CancelledAt(calls, k) <==>
          if k < n then CancelledAt(calls[..n], k) && !calls[n].CancelPending? && !calls[n].ResetCancelled?
          else k == n && calls[n].CancelPending?
      {
        CancelledAtStep(calls, k);
      }
      LaterIsNotCancelled(calls[..n]);
      assert calls[n].CancelPending? ==> CancelledAt(calls, n);
    }
  }

  lemma CancelAfter(b: Broker, c: Call)
    ensures Apply(b, c).cancel == if c.CancelPending? then Some(Denied(c.reason)) else if c.ResetCancelled? then None else b.cancel
  {
  }

  lemma LaterIsNotCancelled(calls: seq<Call>)
    ensures forall k: nat :: CancelledAt(calls, k) ==> k < |calls|
  {
  }

  lemma CancelledAtStep(calls: seq<Call>, k: nat)
    requires calls != []
    ensures var n := |calls| - 1;
            CancelledAt(calls, k) <==>
            if k < n then CancelledAt(calls[..n], k) && !calls[n].CancelPending? && !calls[n].ResetCancelled?
            else k == n && calls[n].CancelPending?
  {
  }

  /**
   What a registration finds: under a cancellation its denial, for a tool granted before a
   session approval at once, and otherwise nothing yet.
   */
  lemma RegistrationFinds(calls: seq<Call>, id: Id, tool: string)
    ensures var b := Run(EMPTY, calls + [Register(id, tool)]);
            && id in b.pending && b.pending[id].tool == tool
            && (forall k: nat :: CancelledAt(calls, k) ==> b.pending[id].decision == Some(Denied(calls[k].reason)))
            && ((forall k: nat :: !CancelledAt(calls, k)) ==>
                  b.pending[id].decision ==
                  if exists k :: 0 <= k < |calls| && GrantsTool(Run(EMPTY, calls[..k]), calls[k], tool)
                  then Some(ApprovedForSession) else None)
  {
    HistorySnoc(calls, Register(id, tool), id);
    CancelledIff(calls);
    GrantedIffResolved(calls, tool);
    hide Run, History, GrantsTool, CancelledAt;
  }

  /** The calls that granted a tool for the session. */
  predicate GrantsTool(b: Broker, c: Call, tool: string) {
    c.Resolve? && IsUndecided(b, c.id) && b.pending[c.id].tool == tool && ActionOf(c.decision) == AllowSession
  }

  /** A tool is granted exactly when some successful `resolve` allowed it for the session. */
  lemma {:induction false} GrantedIffResolved(calls: seq<Call>, tool: string)
    ensures tool in Run(EMPTY, calls).sessionAllowed <==>
            exists k :: 0 <= k < |calls| && GrantsTool(Run(EMPTY, calls[..k]), calls[k], tool)
  {
    hide GrantsTool, Apply;
    if calls != [] {
      var before := calls[..|calls| - 1];
      GrantedIffResolved(before, tool);
      forall k | 0 <= k < |before| ensures before[..k] == calls[..k] {}
      EveryRunIsConsistent(before);
      LastCallGrants(Run(EMPTY, before), calls[|calls| - 1], tool);
    }
  }

  lemma LastCallGrants(b: Broker, c: Call, tool: string)
    requires Consistent(b)
    ensures tool in Apply(b, c).sessionAllowed <==> tool in b.sessionAllowed || GrantsTool(b, c, tool)
  {
  }

  /** Grants never shrink, whatever is called later. */
  lemma {:induction false} GrantsNeverShrink(calls: seq<Call>, later: seq<Call>)
    ensures Run(EMPTY, calls).sessionAllowed <= Run(EMPTY, calls + later).sessionAllowed
    decreases |later|
  {
    if later == [] {
      assert calls + later == calls;
    } else {
      GrantsNeverShrink(calls, later[..|later| - 1]);
      assert (calls + later)[..|calls + later| - 1] == calls + later[..|later| - 1];
    }
  }

  // ---- The broker in place ---------------------------------------------------------------------

  /** What happens between two passes of a waiter: calls by others, then whether time is up. */
  datatype Wake = Wake(others: seq<Call>, expired: bool)

  /** The state of the broker when a waiter makes pass `k`. */
  function AtPass(b: Broker, wakes: seq<Wake>, k: nat): Broker
    requires k < |wakes|
  {
    if k == 0 then Run(b, wakes[0].others) else Run(AtPass(b, wakes, k - 1), wakes[k].others)
  }

  class ApprovalBroker {
    var pending: map<Id, Pending>
    var sessionAllowedTools: set<string>
    var cancelDecision: Option<Decision>

    constructor ()
      ensures Value() == EMPTY
    {
      pending, sessionAllowedTools, cancelDecision := map[], {}, None;
    }

    function Value(): Broker
      reads this
    {
      Broker(pending, sessionAllowedTools, cancelDecision)
    }

    method RegisterRequest(id: Id, tool: string)
      modifies this
      ensures Value() == Apply(old(Value()), Register(id, tool))
    {
      var decision := cancelDecision;
      if decision.None? && tool in sessionAllowedTools {
        decision := Some(ApprovedForSession);
      }
      pending := pending[id := Pending(tool, decision)];
    }

    method ResolveRequest(id: Id, decision: Decision) returns (r: Result<()>)
      modifies this
      ensures Value() == Apply(old(Value()), Resolve(id, decision))
      ensures r.Ok? <==> IsUndecided(old(Value()), id)
    {
      if id !in pending || pending[id].decision.Some? {
        return Err("unknown approval request: " + id);
      }
      var tool := pending[id].tool;
      var stored := if cancelDecision.Some? then cancelDecision.value else decision;
      if ActionOf(stored) == AllowSession {
        sessionAllowedTools := sessionAllowedTools + {tool};
      }
      pending := pending[id := pending[id].(decision := Some(stored))];
      r := Ok(());
    }

    method AllowsToolForSession(tool: string) returns (allowed: bool)
      ensures allowed <==> DecisionAtBirth(Value(), tool) == Some(ApprovedForSession) && cancelDecision.None?
    {
      allowed := cancelDecision.None? && tool in sessionAllowedTools;
    }

    method DiscardRequest(id: Id) returns (removed: bool)
      modifies this
      ensures Value() == Apply(old(Value()), Discard(id))
      ensures removed <==> Value() != old(Value())
    {
      removed := id in pending;
      pending := pending - {id};
    }

    /** Denies every undecided request, and counts them. */
    method Cancel(reason: string) returns (count: nat)
      modifies this
      ensures Value() == Apply(old(Value()), CancelPending(reason))
      ensures count == |UndecidedIds(old(Value()))|
    {
      var decision := Denied(reason);
      cancelDecision := Some(decision);
      count := CountUndecided();
      var left := pending.Keys;
      ghost var before := pending;
      while left != {}
        invariant left <= pending.Keys == before.Keys
        invariant forall id :: id in left ==> pending[id] == before[id]
        invariant forall id :: id in before && id !in left ==> pending[id] == Decide(before[id], decision)
        invariant cancelDecision == Some(decision) && sessionAllowedTools == old(sessionAllowedTools)
        decreases left
      {
        var id :| id in left;
        left := left - {id};
        if pending[id].decision.None? {
          pending := pending[id := pending[id].(decision := Some(decision))];
        }
      }
      assert pending == DecideAll(before, decision);
    }

    method CountUndecided() returns (count: nat)
      ensures count == |UndecidedIds(Value())|
    {
      var left := pending.Keys;
      ghost var counted: set<Id> := {};
      count := 0;
      while left != {}
        invariant left <= pending.Keys && count == |counted|
        invariant forall id :: id in counted <==> id in pending && id !in left && pending[id].decision.None?
        decreases left
      {
        var id :| id in left;
        left := left - {id};
        if pending[id].decision.None? {
          counted := counted + {id};
          count := count + 1;
        }
      }
      assert counted == UndecidedIds(Value());
    }

    method ClearCancellation()
      modifies this
      ensures Value() == Apply(old(Value()), ResetCancelled)
    {
      cancelDecision := None;
    }

    /** One pass of the waiter. */
    method WaitPass(id: Id, expired: bool) returns (answer: Option<Decision>)
      modifies this
      ensures Value() == Apply(old(Value()), Wait(id, expired))
      ensures answer == WaitAnswer(old(Value()), id, expired)
      ensures answer.Some? ==> id !in pending
      ensures answer.Some? ==> IsDecided(old(Value()), id) || ActionOf(answer.value).Timeout?
      ensures answer.Some? && IsDecided(old(Value()), id) ==> old(Value()).pending[id].decision == answer
      ensures answer.None? ==> Value() == old(Value())
    {
      if id in pending && pending[id].decision.Some? {
        answer := pending[id].decision;
        pending := pending - {id};
      } else if expired {
        pending := pending - {id};
        answer := Some(TIMED_OUT);
      } else {
        answer := None;
      }
    }

    method Perform(c: Call)
      modifies this
      ensures Value() == Apply(old(Value()), c)
    {
      match c
      case Register(id, tool) => RegisterRequest(id, tool);
      case Resolve(id, d) => var _ := ResolveRequest(id, d);
      case Discard(id) => var _ := DiscardRequest(id);
      case CancelPending(reason) => var _ := Cancel(reason);
      case ResetCancelled => ClearCancellation();
      case Wait(id, expired) => var _ := WaitPass(id, expired);
    }

    method PerformAll(calls: seq<Call>)
      modifies this
      ensures Value() == Run(old(Value()), calls)
    {
      var i := 0;
      while i < |calls|
        invariant i <= |calls| && Value() == Run(old(Value()), calls[..i])
      {
        Perform(calls[i]);
        i := i + 1;
        assert calls[..i][..i - 1] == calls[..i - 1];
      }
      assert calls[..i] == calls;
    }

    /**
     `wait_blocking` against any behaviour of the other callers: the waiter answers at the first
     pass that finds the request decided or its own time up, and at no earlier one.
     */
    method WaitBlocking(id: Id, wakes: seq<Wake>) returns (passes: nat, answer: Option<Decision>)
      modifies this
      ensures passes <= |wakes| && (answer.None? <==> passes == |wakes|)
      ensures forall k :: 0 <= k < passes ==> WaitAnswer(AtPass(old(Value()), wakes, k), id, wakes[k].expired).None?
      ensures answer.Some? ==>
                && answer == WaitAnswer(AtPass(old(Value()), wakes, passes), id, wakes[passes].expired)
                && Value() == Apply(AtPass(old(Value()), wakes, passes), Wait(id, wakes[passes].expired))
                && id !in pending
                && (ActionOf(answer.value).Allow? || ActionOf(answer.value).AllowSession? ==>
                      IsDecided(AtPass(old(Value()), wakes, passes), id)
                      && AtPass(old(Value()), wakes, passes).pending[id].decision == answer)
    {
      hide Run, Apply, WaitAnswer;
      passes := 0;
      while passes < |wakes|
        invariant passes <= |wakes|
        invariant Value() == if passes == 0 then old(Value()) else AtPass(old(Value()), wakes, passes - 1)
        invariant forall k :: 0 <= k < passes ==> WaitAnswer(AtPass(old(Value()), wakes, k), id, wakes[k].expired).None?
      {
        PerformAll(wakes[passes].others);
        answer := WaitPass(id, wakes[passes].expired);
        if answer.Some? {
          return;
        }
        passes := passes + 1;
      }
      answer := None;
    }
  }
}

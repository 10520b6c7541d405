/**
 Per-key shared/exclusive request serialization (app_server/request_serialization.rs).

 The first half gives the queue as values: one `Lane` per key, the two locked
 sections `AcquireLane` and `ReleaseLane`, and the history of a key.  The second
 half is the in-place queue, proved against those functions.
 */
module RequestSerialization {

  type Key = string

  datatype Access = Shared | Exclusive

  /** A request; the ticket is the identity of its `Notify` handle. */
  datatype Request = Request(ticket: nat, access: Access)

  /** The value of one `QueueState`. */
  datatype Lane = Lane(activeShared: nat, activeExclusive: bool, waiters: seq<Request>)

  const EMPTY_LANE := Lane(0, false, [])

  predicate Compatible(lane: Lane, access: Access) {
    !lane.activeExclusive && (access == Exclusive ==> lane.activeShared == 0)
  }

  predicate CanStartNow(lane: Lane, access: Access) {
    lane.waiters == [] && Compatible(lane, access)
  }

  function Start(lane: Lane, access: Access): Lane {
    match access
    case Shared => lane.(activeShared := lane.activeShared + 1)
    case Exclusive => lane.(activeExclusive := true)
  }

  /** `finish`: the shared counter is decremented with saturation. */
  function Finish(lane: Lane, access: Access): Lane {
    match access
    case Shared => lane.(activeShared := if lane.activeShared == 0 then 0 else lane.activeShared - 1)
    case Exclusive => lane.(activeExclusive := false)
  }

  predicate Idle(lane: Lane) {
    lane.activeShared == 0 && !lane.activeExclusive && lane.waiters == []
  }

  /** The length of the longest all-shared prefix of the waiters. */
  function SharedRun(waiters: seq<Request>): (n: nat)
    ensures n <= |waiters|
    ensures forall i :: 0 <= i < n ==> waiters[i].access == Shared
    ensures n < |waiters| ==> waiters[n].access == Exclusive
  {
    if waiters == [] || waiters[0].access.Exclusive? then 0
    else
      assert forall i :: 1 <= i < |waiters| ==> waiters[i] == waiters[1..][i - 1];
      1 + SharedRun(waiters[1..])
  }

  /** How many waiters `wake_next` grants. */
  function WakeCount(lane: Lane): (n: nat)
    ensures n <= |lane.waiters|
  {
    if lane.activeExclusive || lane.activeShared > 0 || lane.waiters == [] then 0
    else if lane.waiters[0].access == Exclusive then 1
    else SharedRun(lane.waiters)
  }

  function WakeNext(lane: Lane): Lane {
    var n := WakeCount(lane);
    if n == 0 then lane
    else if lane.waiters[0].access == Exclusive then Lane(lane.activeShared, true, lane.waiters[1..])
    else Lane(lane.activeShared + n, lane.activeExclusive, lane.waiters[n..])
  }

  /** The locked section of `acquire`: the new lane, and whether the request starts at once. */
  function AcquireLane(lane: Lane, r: Request): (Lane, bool) {
    if CanStartNow(lane, r.access) then (Start(lane, r.access), true)
    else (lane.(waiters := lane.waiters + [r]), false)
  }

  /** The locked section of `release`: the new lane, and the requests it wakes. */
  function ReleaseLane(lane: Lane, access: Access): (Lane, seq<Request>) {
    var freed := Finish(lane, access);
    (WakeNext(freed), freed.waiters[..WakeCount(freed)])
  }

  // ---- Reference: greedy first-in-first-out admission ---------------------

  /** Grant the head waiter for as long as it is compatible with the holders. */
  function Admit(lane: Lane): Lane
    decreases |lane.waiters|
  {
    if lane.waiters == [] || !Compatible(lane, lane.waiters[0].access) then lane
    else Admit(Start(lane.(waiters := lane.waiters[1..]), lane.waiters[0].access))
  }

  /** No wake-up is owed: the head waiter, if any, is blocked by a holder. */
  predicate HeadBlocked(lane: Lane) {
    lane.waiters != [] ==> !Compatible(lane, lane.waiters[0].access)
  }

  lemma {:induction false} AdmitGrantsSharedRun(lane: Lane)
    requires !lane.activeExclusive
    requires lane.activeShared > 0 || lane.waiters == [] || lane.waiters[0].access == Shared
    ensures var n := SharedRun(lane.waiters);
            Admit(lane) == Lane(lane.activeShared + n, false, lane.waiters[n..])
    decreases |lane.waiters|
  {
    if lane.waiters != [] && lane.waiters[0].access == Shared {
      var next := Start(lane.(waiters := lane.waiters[1..]), Shared);
      AdmitGrantsSharedRun(next);
      var m := SharedRun(next.waiters);
      assert lane.waiters[1..][m..] == lane.waiters[m + 1..];
    }
  }

  /** `acquire` is: queue the request, then admit greedily in arrival order. */
  lemma AcquireIsGreedyAdmission(lane: Lane, r: Request)
    requires HeadBlocked(lane)
    ensures AcquireLane(lane, r).0 == Admit(lane.(waiters := lane.waiters + [r]))
    ensures HeadBlocked(AcquireLane(lane, r).0)
  {
    var queued := lane.(waiters := lane.waiters + [r]);
    if lane.waiters == [] {
      assert queued.waiters[1..] == [];
      var next := Start(queued.(waiters := queued.waiters[1..]), queued.waiters[0].access);
      assert Compatible(queued, r.access) ==> Admit(queued) == Admit(next) == next;
    }
  }

  /** `release` is: drop the holder, then admit greedily in arrival order. */
  lemma ReleaseIsGreedyAdmission(lane: Lane, access: Access)
    requires HeadBlocked(lane)
    requires access == Shared ==> lane.activeShared > 0 && !lane.activeExclusive
    requires access == Exclusive ==> lane.activeExclusive && lane.activeShared == 0
    ensures ReleaseLane(lane, access).0 == Admit(Finish(lane, access))
    ensures HeadBlocked(ReleaseLane(lane, access).0)
  {
    var freed := Finish(lane, access);
    if freed.activeShared == 0 && freed.waiters != [] {
      if freed.waiters[0].access == Shared {
        AdmitGrantsSharedRun(freed);
      } else {
        var next := Start(freed.(waiters := freed.waiters[1..]), Exclusive);
        assert Admit(freed) == Admit(next) == next;
      }
    }
  }

  // ---- Runs ---------------------------------------------------------------

  /** What happened on one key: arrivals and grants in order, and the unreleased grants. */
  datatype Trace = Trace(arrivals: seq<Request>, granted: seq<Request>, holders: set<Request>)

  const EMPTY_TRACE := Trace([], [], {})

  datatype World = World(queues: map<Key, Lane>, traces: map<Key, Trace>)

  datatype Event = Acquire(key: Key, request: Request) | Release(key: Key, request: Request)

  const INITIAL := World(map[], map[])

  function LaneOf(queues: map<Key, Lane>, k: Key): Lane {
    if k in queues then queues[k] else EMPTY_LANE
  }

  function TraceOf(w: World, k: Key): Trace {
    if k in w.traces then w.traces[k] else EMPTY_TRACE
  }

  function Elements(s: seq<Request>): set<Request> {
    set r | r in s
  }

  function AcquireQueues(queues: map<Key, Lane>, k: Key, r: Request): map<Key, Lane> {
    queues[k := AcquireLane(LaneOf(queues, k), r).0]
  }

  function ReleaseQueues(queues: map<Key, Lane>, k: Key, access: Access): map<Key, Lane> {
    if k !in queues then queues
    else
      var lane := ReleaseLane(queues[k], access).0;
      if Idle(lane) then queues - {k} else queues[k := lane]
  }

  function ReleaseWakes(queues: map<Key, Lane>, k: Key, access: Access): seq<Request> {
    if k !in queues then [] else ReleaseLane(queues[k], access).1
  }

  function Step(w: World, e: Event): World {
    var t := TraceOf(w, e.key);
    match e
    case Acquire(k, r) =>
      var started := AcquireLane(LaneOf(w.queues, k), r).1;
      World(AcquireQueues(w.queues, k, r),
            w.traces[k := Trace(t.arrivals + [r],
                                if started then t.granted + [r] else t.granted,
                                if started then t.holders + {r} else t.holders)])
    case Release(k, r) =>
      var woken := ReleaseWakes(w.queues, k, r.access);
      World(ReleaseQueues(w.queues, k, r.access),
            w.traces[k := Trace(t.arrivals, t.granted + woken, t.holders - {r} + Elements(woken))])
  }

  /** Each acquire has its own `Notify`; `run` releases only what it was granted. */
  predicate Enabled(w: World, e: Event) {
    match e
    case Acquire(k, r) => r !in TraceOf(w, k).arrivals
    case Release(k, r) => r in TraceOf(w, k).holders
  }

  function Run(w: World, events: seq<Event>): World
    decreases |events|
  {
    if events == [] then w else Run(Step(w, events[0]), events[1..])
  }

  predicate Legal(w: World, events: seq<Event>)
    decreases |events|
  {
    events == [] || (Enabled(w, events[0]) && Legal(Step(w, events[0]), events[1..]))
  }

  predicate Distinct(s: seq<Request>) {
    forall i, j :: 0 <= i < j < |s| ==> s[i] != s[j]
  }

  function SharedHolders(holders: set<Request>): set<Request> {
    set r | r in holders && r.access == Shared
  }

  /** What holds of a key in every reachable state. */
  predicate LaneInvariant(lane: Lane, t: Trace) {
    && t.granted + lane.waiters == t.arrivals
    && Distinct(t.arrivals)
    && t.holders <= Elements(t.granted)
    && lane.activeShared == |SharedHolders(t.holders)|
    && (lane.activeExclusive <==> exists r :: r in t.holders && r.access == Exclusive)
    && (forall r :: r in t.holders && r.access == Exclusive ==> t.holders == {r})
    && HeadBlocked(lane)
  }

  predicate KeyInvariant(w: World, k: Key) {
    && LaneInvariant(LaneOf(w.queues, k), TraceOf(w, k))
    && (k in w.queues ==> !Idle(w.queues[k]))
  }

  ghost predicate Invariant(w: World) {
    forall k :: KeyInvariant(w, k)
  }

  lemma AcquireKeepsLane(lane: Lane, t: Trace, r: Request)
    requires LaneInvariant(lane, t) && r !in t.arrivals
    ensures var (lane', started) := AcquireLane(lane, r);
            && LaneInvariant(lane', Trace(t.arrivals + [r],
                                          if started then t.granted + [r] else t.granted,
                                          if started then t.holders + {r} else t.holders))
            && !Idle(lane')
  {
    AcquireIsGreedyAdmission(lane, r);
    if CanStartNow(lane, r.access) {
      StartedIsAHolder(lane, t, r);
    } else {
      assert t.granted + (lane.waiters + [r]) == t.arrivals + [r];
    }
  }

  lemma StartedIsAHolder(lane: Lane, t: Trace, r: Request)
    requires LaneInvariant(lane, t) && r !in t.arrivals && CanStartNow(lane, r.access)
    ensures LaneInvariant(Start(lane, r.access), Trace(t.arrivals + [r], t.granted + [r], t.holders + {r}))
  {
    hide Distinct;
    NewIsDistinct(t.arrivals, r);
    assert t.granted == t.arrivals;
    assert r !in t.holders by {
      assert r in Elements(t.granted) ==> r in t.granted;
    }
    assert t.holders + {r} <= Elements(t.granted + [r]);
    assert (t.granted + [r]) + [] == t.arrivals + [r];
    if r.access == Shared {
      assert SharedHolders(t.holders + {r}) == SharedHolders(t.holders) + {r};
    } else {
      NoHolders(lane, t);
      assert t.holders + {r} == {r};
      assert SharedHolders({r}) == {};
    }
  }

  lemma NewIsDistinct(s: seq<Request>, r: Request)
    requires Distinct(s) && r !in s
    ensures Distinct(s + [r])
  {
  }

  lemma NoHolders(lane: Lane, t: Trace)
    requires LaneInvariant(lane, t) && lane.activeShared == 0 && !lane.activeExclusive
    ensures t.holders == {}
  {
    assert forall r :: r in t.holders ==> r in SharedHolders(t.holders);
  }

  lemma SharedCount(s: seq<Request>)
    requires Distinct(s) && forall r :: r in s ==> r.access == Shared
    ensures |SharedHolders(Elements(s))| == |s|
  {
    if s == [] {
      assert Elements(s) == {};
      assert SharedHolders(Elements(s)) == {};
    } else {
      var rest := s[1..];
      assert forall i :: 0 <= i < |rest| ==> rest[i] == s[i + 1];
      SharedCount(rest);
      assert SharedHolders(Elements(s)) == SharedHolders(Elements(rest)) + {s[0]};
    }
  }

  /** After a holder is removed the counters still equal the remaining holders. */
  lemma FinishKeepsCounters(lane: Lane, t: Trace, r: Request)
    requires LaneInvariant(lane, t) && r in t.holders
    ensures var freed := Finish(lane, r.access);
            && freed.activeShared == |SharedHolders(t.holders - {r})|
            && !freed.activeExclusive
            && (forall h :: h in t.holders - {r} ==> h.access == Shared)
            && (r.access == Shared ==> lane.activeShared > 0 && !lane.activeExclusive)
            && (r.access == Exclusive ==> lane.activeExclusive && lane.activeShared == 0)
  {
    if r.access == Shared {
      assert r in SharedHolders(t.holders);
      assert SharedHolders(t.holders - {r}) == SharedHolders(t.holders) - {r};
    } else {
      assert SharedHolders(t.holders) == {};
      assert t.holders - {r} == {};
      assert SharedHolders(t.holders - {r}) == {};
    }
  }

  lemma WokenAreNew(lane: Lane, t: Trace, n: nat)
    requires LaneInvariant(lane, t) && n <= |lane.waiters|
    ensures Distinct(lane.waiters[..n])
    ensures Elements(lane.waiters[..n]) !! t.holders
    ensures t.granted + lane.waiters[..n] + lane.waiters[n..] == t.arrivals
    ensures Elements(t.granted) + Elements(lane.waiters[..n]) == Elements(t.granted + lane.waiters[..n])
  {
    hide SharedHolders, HeadBlocked;
    assert lane.waiters == lane.waiters[..n] + lane.waiters[n..];
    DistinctHalves(t.granted, lane.waiters);
    DistinctHalves(lane.waiters[..n], lane.waiters[n..]);
    assert forall r :: r in lane.waiters[..n] ==> r in Elements(lane.waiters);
  }

  lemma DistinctHalves(a: seq<Request>, b: seq<Request>)
    requires Distinct(a + b)
    ensures Distinct(a) && Distinct(b) && Elements(a) !! Elements(b)
  {
    var s := a + b;
    assert forall i :: 0 <= i < |a| ==> s[i] == a[i];
    assert forall i :: 0 <= i < |b| ==> s[|a| + i] == b[i];
  }

  /** The wake-up keeps the counters equal to the holders and an exclusive holder alone. */
  lemma WakeKeepsCounters(freed: Lane, rest: set<Request>)
    requires freed.activeShared == |SharedHolders(rest)| && !freed.activeExclusive
    requires forall h :: h in rest ==> h.access == Shared
    requires Distinct(freed.waiters[..WakeCount(freed)])
    ensures var lane, holders := WakeNext(freed), rest + Elements(freed.waiters[..WakeCount(freed)]);
            && lane.activeShared == |SharedHolders(holders)|
            && (lane.activeExclusive <==> exists r :: r in holders && r.access == Exclusive)
            && (forall r :: r in holders && r.access == Exclusive ==> holders == {r})
            && lane.waiters == freed.waiters[WakeCount(freed)..]
  {
    var n := WakeCount(freed);
    var woken := freed.waiters[..n];
    var holders := rest + Elements(woken);
    if n == 0 {
      assert holders == rest;
    } else {
      NoHoldersLeft(rest);
      assert holders == Elements(woken);
      if freed.waiters[0].access == Exclusive {
        assert woken == [freed.waiters[0]];
        assert holders == {freed.waiters[0]};
        assert SharedHolders(holders) == {};
      } else {
        SharedCount(woken);
      }
    }
  }

  lemma ReleaseKeepsLane(lane: Lane, t: Trace, r: Request)
    requires LaneInvariant(lane, t) && r in t.holders
    ensures var (lane', woken) := ReleaseLane(lane, r.access);
            LaneInvariant(lane', Trace(t.arrivals, t.granted + woken, t.holders - {r} + Elements(woken)))
  {
    FinishKeepsCounters(lane, t, r);
    ReleaseIsGreedyAdmission(lane, r.access);
    var freed := Finish(lane, r.access);
    WokenAreNew(lane, t, WakeCount(freed));
    WakeKeepsCounters(freed, t.holders - {r});
    hide WakeNext, WakeCount, SharedHolders, Distinct, HeadBlocked, Elements, Admit;
  }

  lemma NoHoldersLeft(holders: set<Request>)
    requires SharedHolders(holders) == {} && forall h :: h in holders ==> h.access == Shared
    ensures holders == {}
  {
    assert forall r :: r in holders ==> r in SharedHolders(holders);
  }

  lemma StepKeepsKey(w: World, e: Event, k: Key)
    requires KeyInvariant(w, k) && KeyInvariant(w, e.key) && Enabled(w, e)
    ensures KeyInvariant(Step(w, e), k)
  {
    if e.key == k {
      var lane, t := LaneOf(w.queues, k), TraceOf(w, k);
      match e
      case Acquire(_, r) => AcquireKeepsLane(lane, t, r);
      case Release(_, r) =>
        WaitersHaveAHolder(w, k);
        ReleaseKeepsLane(lane, t, r);
    }
  }

  /**
   Safety and no lost wake-up, for every run: per key, the grants followed by the
   waiters are the arrivals in order; an exclusive holder is alone; the counters
   equal the unreleased grants; the head waiter is blocked by a holder; and an idle
   key is not in the map.
   */
  lemma {:induction false} RunKeepsInvariant(w: World, events: seq<Event>)
    requires Invariant(w) && Legal(w, events)
    ensures Invariant(Run(w, events))
    decreases |events|
  {
    if events != [] {
      forall k ensures KeyInvariant(Step(w, events[0]), k) {
        assert KeyInvariant(w, events[0].key);
        StepKeepsKey(w, events[0], k);
      }
      RunKeepsInvariant(Step(w, events[0]), events[1..]);
    }
  }

  lemma EveryRunIsSafe(events: seq<Event>)
    requires Legal(INITIAL, events)
    ensures Invariant(Run(INITIAL, events))
  {
    assert Invariant(INITIAL) by {
      assert SharedHolders({}) == {};
    }
    RunKeepsInvariant(INITIAL, events);
  }

  /** Waiters exist only under a holder, and a shared head only under an exclusive one. */
  lemma WaitersHaveAHolder(w: World, k: Key)
    requires KeyInvariant(w, k)
    ensures var lane := LaneOf(w.queues, k);
            lane.waiters != [] ==>
              && TraceOf(w, k).holders != {}
              && (lane.waiters[0].access == Shared ==>
                    exists r :: r in TraceOf(w, k).holders && r.access == Exclusive)
    ensures k in w.queues <==> TraceOf(w, k).holders != {}
  {
    var lane, t := LaneOf(w.queues, k), TraceOf(w, k);
    if t.holders == {} {
      assert SharedHolders(t.holders) == {};
    } else if k !in w.queues {
      NoHolders(lane, t);
    }
  }

  /** `saturating_sub` never clamps: a legal release finds its own counter set. */
  lemma ReleaseNeverClamps(w: World, k: Key, r: Request)
    requires KeyInvariant(w, k) && Enabled(w, Release(k, r))
    ensures k in w.queues
    ensures r.access == Shared ==> Finish(w.queues[k], Shared).activeShared + 1 == w.queues[k].activeShared
    ensures r.access == Exclusive ==> w.queues[k].activeExclusive
  {
    WaitersHaveAHolder(w, k);
    FinishKeepsCounters(w.queues[k], TraceOf(w, k), r);
  }

  // ---- Keys are independent -------------------------------------------------

  function OnKey(events: seq<Event>, k: Key): seq<Event> {
    if events == [] then []
    else if events[0].key == k then [events[0]] + OnKey(events[1..], k)
    else OnKey(events[1..], k)
  }

  predicate SameKey(w: World, v: World, k: Key) {
    && (k in w.queues <==> k in v.queues)
    && LaneOf(w.queues, k) == LaneOf(v.queues, k)
    && TraceOf(w, k) == TraceOf(v, k)
  }

  /** What happens on a key is decided by the events of that key alone. */
  lemma {:induction false} KeysAreIndependent(w: World, v: World, events: seq<Event>, k: Key)
    requires SameKey(w, v, k)
    ensures SameKey(Run(w, events), Run(v, OnKey(events, k)), k)
    decreases |events|
  {
    if events == [] {
    } else if events[0].key == k {
      var own := OnKey(events, k);
      assert own[1..] == OnKey(events[1..], k);
      KeysAreIndependent(Step(w, events[0]), Step(v, events[0]), events[1..], k);
    } else {
      KeysAreIndependent(Step(w, events[0]), v, events[1..], k);
    }
  }

  // ---- Bounded wait -----------------------------------------------------------

  function Holders(lane: Lane): nat {
    lane.activeShared + if lane.activeExclusive then 1 else 0
  }

  function Releases(events: seq<Event>, k: Key): nat {
    if events == [] then 0
    else (if events[0].Release? && events[0].key == k then 1 else 0) + Releases(events[1..], k)
  }

  predicate WaitsAt(w: World, k: Key, r: Request, ahead: nat) {
    var ws := LaneOf(w.queues, k).waiters;
    ahead < |ws| && ws[ahead] == r
  }

  /** Grants are permanent: the granted sequence only grows. */
  lemma {:induction false} GrantsOnlyGrow(w: World, events: seq<Event>, k: Key)
    ensures TraceOf(w, k).granted <= TraceOf(Run(w, events), k).granted
    decreases |events|
  {
    if events != [] {
      assert TraceOf(w, k).granted <= TraceOf(Step(w, events[0]), k).granted;
      GrantsOnlyGrow(Step(w, events[0]), events[1..], k);
    }
  }

  /**
   One release on the waiter's key lowers holders-plus-ahead by exactly one, or
   grants it; an exclusive waiter is granted only when that sum is one.
   */
  lemma ReleaseMakesProgress(w: World, k: Key, r: Request, ahead: nat, done: Request)
    requires KeyInvariant(w, k) && WaitsAt(w, k, r, ahead) && Enabled(w, Release(k, done))
    ensures var lane := LaneOf(w.queues, k);
            var w' := Step(w, Release(k, done));
            var n := WakeCount(Finish(lane, done.access));
            if ahead < n
            then r in TraceOf(w', k).granted && (r.access == Exclusive ==> Holders(lane) + ahead == 1)
            else WaitsAt(w', k, r, ahead - n)
                 && Holders(LaneOf(w'.queues, k)) + (ahead - n) + 1 == Holders(lane) + ahead
  {
    var lane, t := LaneOf(w.queues, k), TraceOf(w, k);
    FinishKeepsCounters(lane, t, done);
    var freed := Finish(lane, done.access);
    var n := WakeCount(freed);
    if ahead < n {
      assert freed.waiters[..n][ahead] == r;
    } else {
      assert WakeNext(freed).waiters[ahead - n] == r;
    }
  }

  lemma OthersDoNotDelay(w: World, k: Key, r: Request, ahead: nat, e: Event)
    requires KeyInvariant(w, k) && WaitsAt(w, k, r, ahead) && !(e.Release? && e.key == k)
    ensures WaitsAt(Step(w, e), k, r, ahead)
    ensures Holders(LaneOf(Step(w, e).queues, k)) == Holders(LaneOf(w.queues, k))
  {
  }

  /**
   Bounded wait: with `ahead` requests in front and `a` active holders, a waiter is
   granted by the `a + ahead`-th release on its key, whatever else happens; an
   exclusive waiter is granted by exactly that release and no earlier one.
   */
  lemma {:induction false} BoundedWait(w: World, events: seq<Event>, k: Key, r: Request, ahead: nat)
    requires Invariant(w) && Legal(w, events) && WaitsAt(w, k, r, ahead)
    ensures Releases(events, k) >= Holders(LaneOf(w.queues, k)) + ahead ==>
              r in TraceOf(Run(w, events), k).granted
    ensures r.access == Exclusive && Releases(events, k) < Holders(LaneOf(w.queues, k)) + ahead ==>
              r in LaneOf(Run(w, events).queues, k).waiters
    decreases |events|
  {
    assert KeyInvariant(w, k);
    if events == [] {
      WaitersHaveAHolder(w, k);
      assert HeadBlocked(LaneOf(w.queues, k));
    } else {
      var e, w' := events[0], Step(w, events[0]);
      forall j ensures KeyInvariant(w', j) {
        assert KeyInvariant(w, e.key);
        StepKeepsKey(w, e, j);
      }
      if e.Release? && e.key == k {
        ReleaseMakesProgress(w, k, r, ahead, e.request);
        var n := WakeCount(Finish(LaneOf(w.queues, k), e.request.access));
        if ahead < n {
          GrantsOnlyGrow(w', events[1..], k);
        } else {
          BoundedWait(w', events[1..], k, r, ahead - n);
        }
      } else {
        OthersDoNotDelay(w, k, r, ahead, e);
        BoundedWait(w', events[1..], k, r, ahead);
      }
    }
  }

  // ---- The queue in place -------------------------------------------------------

  class QueueState {
    var activeShared: nat
    var activeExclusive: bool
    var waiters: seq<Request>

    function Value(): Lane
      reads this
    {
      Lane(activeShared, activeExclusive, waiters)
    }

    /** The state of one key, borrowed from the map for the length of a locked section. */
    constructor (lane: Lane)
      ensures Value() == lane
    {
      activeShared, activeExclusive, waiters := lane.activeShared, lane.activeExclusive, lane.waiters;
    }

    method StartNow(access: Access)
      modifies this
      ensures Value() == Start(old(Value()), access)
    {
      match access
      case Shared => activeShared := activeShared + 1;
      case Exclusive => activeExclusive := true;
    }

    method FinishOne(access: Access)
      modifies this
      ensures Value() == Finish(old(Value()), access)
    {
      match access
      case Shared => activeShared := if activeShared == 0 then 0 else activeShared - 1;
      case Exclusive => activeExclusive := false;
    }

    /** `wake_next`, returning the requests it notifies in order. */
    method Wake() returns (woken: seq<Request>)
      modifies this
      ensures Value() == WakeNext(old(Value()))
      ensures woken == old(waiters)[..WakeCount(old(Value()))]
    {
      woken := [];
      if activeExclusive || activeShared > 0 || waiters == [] {
        return;
      }
      ghost var lane := Value();
      if waiters[0].access == Exclusive {
        woken, waiters, activeExclusive := [waiters[0]], waiters[1..], true;
      } else {
        while waiters != [] && waiters[0].access == Shared
          invariant |woken| + |waiters| == |lane.waiters|
          invariant woken == lane.waiters[..|woken|] && waiters == lane.waiters[|woken|..]
          invariant |woken| + SharedRun(waiters) == SharedRun(lane.waiters)
          invariant activeShared == lane.activeShared + |woken| && !activeExclusive
          decreases |waiters|
        {
          woken, waiters := woken + [waiters[0]], waiters[1..];
          activeShared := activeShared + 1;
        }
      }
    }
  }

  class RequestSerializationQueue {
    var inner: map<Key, Lane>

    constructor ()
      ensures inner == map[]
    {
      inner := map[];
    }

    /** The locked section of `acquire`; false means the caller waits for its notification. */
    method AcquireScope(k: Key, r: Request) returns (started: bool)
      modifies this
      ensures inner == AcquireQueues(old(inner), k, r)
      ensures started == AcquireLane(LaneOf(old(inner), k), r).1
    {
      var state := new QueueState(LaneOf(inner, k));
      started := CanStartNow(state.Value(), r.access);
      if started {
        state.StartNow(r.access);
      } else {
        state.waiters := state.waiters + [r];
      }
      inner := inner[k := state.Value()];
    }

    /** The locked section of `release`, returning the requests it notifies. */
    method ReleaseScope(k: Key, access: Access) returns (woken: seq<Request>)
      modifies this
      ensures inner == ReleaseQueues(old(inner), k, access)
      ensures woken == ReleaseWakes(old(inner), k, access)
    {
      if k !in inner {
        return [];
      }
      var state := new QueueState(inner[k]);
      state.FinishOne(access);
      woken := state.Wake();
      if Idle(state.Value()) {
        inner := inner - {k};
      } else {
        inner := inner[k := state.Value()];
      }
    }
  }
}

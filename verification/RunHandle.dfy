/** The event folds and the controller binding of a run handle (run_handle.rs). */
module RunHandle {
  import opened Common
  import Json

  /** A run event, as far as the folds look; the three ways a run ends are one case each. */
  datatype Payload =
    | HandoffStarted
    | HandoffCompleted(chainContinues: Option<Json.Value>)
    | RunCompleted
    | RunFailed
    | RunCancelled
    | SubRunStarted
    | SubRunCompleted
    | Other

  datatype Event = Event(runId: string, payload: Payload)

  predicate Starts(e: Event) {
    e.payload.HandoffStarted?
  }

  predicate Completes(e: Event) {
    e.payload.HandoffCompleted?
  }

  /** Only the JSON value `true` under "chain_continues" continues the chain. */
  predicate Continues(e: Event) {
    e.payload.HandoffCompleted? && e.payload.chainContinues == Some(Json.Bool(true))
  }

  predicate Ends(e: Event) {
    e.payload.RunCompleted? || e.payload.RunFailed? || e.payload.RunCancelled?
  }

  /** The events that make an earlier end of the run void. */
  predicate Resets(e: Event) {
    Starts(e) || Continues(e)
  }

  /** Handoffs begun and not completed; a completion without a start is ignored. */
  function Depth(events: seq<Event>): nat {
    if events == [] then 0
    else
      var before, last := Depth(events[..|events| - 1]), events[|events| - 1];
      if Starts(last) then before + 1
      else if Completes(last) && before > 0 then before - 1
      else before
  }

  /** The run ended at event `k`, and nothing after `k` voids that. */
  predicate EndStandsAt(events: seq<Event>, k: nat) {
    k < |events| && Ends(events[k]) && forall j :: k < j < |events| ==> !Resets(events[j])
  }

  predicate EndStands(events: seq<Event>) {
    exists k :: 0 <= k < |events| && EndStandsAt(events, k)
  }

  lemma EndStandsStep(events: seq<Event>)
    requires events != []
    ensures var last := events[|events| - 1];
            EndStands(events) <==> Ends(last) || (EndStands(events[..|events| - 1]) && !Resets(last))
  {
    var n := |events| - 1;
    var before := events[..n];
    if EndStands(before) && !Resets(events[n]) {
      var k :| 0 <= k < |before| && EndStandsAt(before, k);
      assert EndStandsAt(events, k);
    }
    if Ends(events[n]) {
      assert EndStandsAt(events, n);
    }
    if k :| 0 <= k < |events| && EndStandsAt(events, k) && k < n {
      assert EndStandsAt(before, k);
    }
  }

  /**
   `terminal_event_seen`: the run is over exactly when no handoff is open and it ended after
   the last event that voids an end.
   */
  method TerminalEventSeen(events: seq<Event>) returns (terminalSeen: bool)
    ensures terminalSeen <==> Depth(events) == 0 && EndStands(events)
  {
    var activeHandoffs := 0;
    var terminalSeenDuringHandoff := false;
    terminalSeen := false;
    var i := 0;
    while i < |events|
      invariant 0 <= i <= |events| && activeHandoffs == Depth(events[..i])
      invariant terminalSeen <==> activeHandoffs == 0 && EndStands(events[..i])
      invariant terminalSeenDuringHandoff <==> activeHandoffs > 0 && EndStands(events[..i])
    {
      assert events[..i + 1][..i] == events[..i];
      EndStandsStep(events[..i + 1]);
      var event := events[i];
      match event.payload {
        case HandoffStarted =>
          activeHandoffs := activeHandoffs + 1;
          terminalSeen := false;
          terminalSeenDuringHandoff := false;
        case HandoffCompleted(flag) =>
          activeHandoffs := if activeHandoffs == 0 then 0 else activeHandoffs - 1;
          if flag == Some(Json.Bool(true)) {
            terminalSeen := false;
            terminalSeenDuringHandoff := false;
          } else if activeHandoffs == 0 && terminalSeenDuringHandoff {
            terminalSeen := true;
            terminalSeenDuringHandoff := false;
          }
        case RunCompleted | RunFailed | RunCancelled =>
          if activeHandoffs > 0 {
            terminalSeenDuringHandoff := true;
          } else {
            terminalSeen := true;
          }
        case _ =>
      }
      i := i + 1;
    }
    assert events[..i] == events;
  }

  /** Starts minus completions, with no clamping. */
  function Balance(events: seq<Event>): int {
    if events == [] then 0
    else
      Balance(events[..|events| - 1])
      + (if Starts(events[|events| - 1]) then 1 else if Completes(events[|events| - 1]) then -1 else 0)
  }

  /**
   The clamped depth is the largest plain balance of any suffix; so it is zero exactly when
   no suffix has more starts than completions.
   */
  lemma {:induction false} DepthIsLargestSuffixBalance(events: seq<Event>)
    ensures forall k :: 0 <= k <= |events| ==> Balance(events[k..]) <= Depth(events)
    ensures exists k :: 0 <= k <= |events| && Balance(events[k..]) == Depth(events)
  {
    if events == [] {
      assert events[0..] == [];
    } else {
      var n := |events| - 1;
      var before := events[..n];
      DepthIsLargestSuffixBalance(before);
      assert events[n + 1..] == [];
      forall k | 0 <= k <= n ensures Balance(events[k..]) == Balance(before[k..]) + Balance([events[n]]) {
        assert events[k..][..n - k] == before[k..] && [events[n]][..0] == [];
      }
      var k :| 0 <= k <= n && Balance(before[k..]) == Depth(before);
      assert Balance(events[if Depth(events) == 0 && Depth(before) == 0 && Completes(events[n]) then n + 1 else k..]) == Depth(events);
    }
  }

  lemma NoHandoffOpenIff(events: seq<Event>)
    ensures Depth(events) == 0 <==> forall k :: 0 <= k <= |events| ==> Balance(events[k..]) <= 0
  {
    DepthIsLargestSuffixBalance(events);
  }

  // ---- Active sub-runs ---------------------------------------------------------------------

  /** Sub-run `id` started at event `k` and no later event completes it. */
  predicate ActiveSince(events: seq<Event>, id: string, k: nat) {
    && k < |events| && events[k] == Event(id, SubRunStarted)
    && forall j :: k < j < |events| ==> events[j] != Event(id, SubRunCompleted)
  }

  predicate IsActive(events: seq<Event>, id: string) {
    exists k :: 0 <= k < |events| && ActiveSince(events, id, k)
  }

  lemma ActiveStep(events: seq<Event>, id: string)
    requires events != []
    ensures var last := events[|events| - 1];
            IsActive(events, id) <==>
            last == Event(id, SubRunStarted)
            || (IsActive(events[..|events| - 1], id) && last != Event(id, SubRunCompleted))
  {
    var n := |events| - 1;
    var before := events[..n];
    if IsActive(before, id) && events[n] != Event(id, SubRunCompleted) {
      var k :| 0 <= k < |before| && ActiveSince(before, id, k);
      assert ActiveSince(events, id, k);
    }
    if events[n] == Event(id, SubRunStarted) {
      assert ActiveSince(events, id, n);
    }
    if k :| 0 <= k < |events| && ActiveSince(events, id, k) && k < n {
      assert ActiveSince(before, id, k);
    }
  }

  method ActiveSubRunIds(events: seq<Event>) returns (active: set<string>)
    ensures forall id :: id in active <==> IsActive(events, id)
  {
    active := {};
    var i := 0;
    while i < |events|
      invariant 0 <= i <= |events|
      invariant forall id :: id in active <==> IsActive(events[..i], id)
    {
      var event := events[i];
      assert events[..i + 1][..i] == events[..i];
      forall id ensures IsActive(events[..i + 1], id) <==>
          event == Event(id, SubRunStarted) || (IsActive(events[..i], id) && event != Event(id, SubRunCompleted))
      {
        ActiveStep(events[..i + 1], id);
      }
      match event.payload {
        case SubRunStarted => active := active + {event.runId};
        case SubRunCompleted => active := active - {event.runId};
        case _ =>
      }
      i := i + 1;
    }
    assert events[..i] == events;
  }

  // ---- Controller generations ----------------------------------------------------------------

  type Controller = nat

  datatype Binding = Binding(generation: nat, active: Option<(nat, Controller)>)

  datatype Call = Attach(controller: Controller) | Detach(generation: nat)

  /** `wrapping_add(1).max(1)` on 64 bits. */
  function NextGeneration(g: nat): nat {
    var wrapped := (g + 1) % (U64_MAX + 1);
    if wrapped < 1 then 1 else wrapped
  }

  predicate Detaches(b: Binding, g: nat) {
    b.active.Some? && b.active.value.0 == g
  }

  function Apply(b: Binding, c: Call): Binding {
    match c
    case Attach(controller) => var g := NextGeneration(b.generation); Binding(g, Some((g, controller)))
    case Detach(g) => if Detaches(b, g) then b.(active := None) else b
  }

  function Run(calls: seq<Call>): Binding {
    if calls == [] then Binding(0, None) else Apply(Run(calls[..|calls| - 1]), calls[|calls| - 1])
  }

  function Attached(calls: seq<Call>): seq<Controller> {
    if calls == [] then []
    else
      var last := calls[|calls| - 1];
      Attached(calls[..|calls| - 1]) + (if last.Attach? then [last.controller] else [])
  }

  /** The generation handed to the `n`-th attach, counting from one. */
  function GenerationOf(n: nat): nat {
    if n == 0 then 0 else (n - 1) % U64_MAX + 1
  }

  lemma NextIsNth(n: nat)
    ensures NextGeneration(GenerationOf(n)) == GenerationOf(n + 1)
  {
    if n > 0 {
      var r := (n - 1) % U64_MAX;
      assert n % U64_MAX == if r + 1 == U64_MAX then 0 else r + 1 by {
        var q := (n - 1) / U64_MAX;
        assert n == q * U64_MAX + (r + 1);
        if r + 1 == U64_MAX {
          assert n == (q + 1) * U64_MAX;
        }
        DivisionIsUnique(n, if r + 1 == U64_MAX then q + 1 else q, if r + 1 == U64_MAX then 0 else r + 1);
      }
    }
  }

  lemma DivisionIsUnique(n: int, q: int, r: nat)
    requires n == q * U64_MAX + r && r < U64_MAX
    ensures n % U64_MAX == r
  {
  }

  /** In every run the generation counts the attaches, and an active controller is the latest. */
  lemma {:induction false} GenerationsCountAttaches(calls: seq<Call>)
    ensures var b, all := Run(calls), Attached(calls);
            && b.generation == GenerationOf(|all|)
            && (b.active.Some? ==> all != [] && b.active.value == (GenerationOf(|all|), all[|all| - 1]))
  {
    hide NextGeneration;
    if calls != [] {
      GenerationsCountAttaches(calls[..|calls| - 1]);
      NextIsNth(|Attached(calls[..|calls| - 1])|);
    }
  }

  lemma SameGenerationIff(i: nat, j: nat)
    requires 1 <= i <= j
    ensures GenerationOf(i) == GenerationOf(j) <==> (j - i) % U64_MAX == 0
  {
    var qi, ri := (i - 1) / U64_MAX, (i - 1) % U64_MAX;
    var qj, rj := (j - 1) / U64_MAX, (j - 1) % U64_MAX;
    assert j - i == (qj - qi) * U64_MAX + (rj - ri);
    if rj >= ri {
      DivisionIsUnique(j - i, qj - qi, rj - ri);
    } else {
      DivisionIsUnique(j - i, qj - qi - 1, rj - ri + U64_MAX);
    }
  }

  /**
   A detach with the generation of the `i`-th attach takes the present controller away exactly
   when there is one and a multiple of 2^64 - 1 attaches happened since; so a stale detach
   can hit a later controller only after 2^64 - 1 attaches.
   */
  lemma DetachHitsIff(calls: seq<Call>, i: nat)
    requires 1 <= i <= |Attached(calls)|
    ensures Detaches(Run(calls), GenerationOf(i)) <==> Run(calls).active.Some? && (|Attached(calls)| - i) % U64_MAX == 0
  {
    hide GenerationOf, Run, Attached;
    GenerationsCountAttaches(calls);
    SameGenerationIff(i, |Attached(calls)|);
  }

  class ControllerBinding {
    var generation: nat
    var active: Option<(nat, Controller)>

    constructor ()
      ensures Value() == Run([])
    {
      generation, active := 0, None;
    }

    function Value(): Binding
      reads this
    {
      Binding(generation, active)
    }

    method AttachController(controller: Controller) returns (g: nat)
      modifies this
      ensures Value() == Apply(old(Value()), Attach(controller)) && g == generation
    {
      generation := (generation + 1) % (U64_MAX + 1);
      if generation < 1 {
        generation := 1;
      }
      g := generation;
      active := Some((g, controller));
    }

    method DetachController(g: nat) returns (detached: bool)
      modifies this
      ensures Value() == Apply(old(Value()), Detach(g))
      ensures detached <==> Detaches(old(Value()), g)
    {
      detached := active.Some? && active.value.0 == g;
      if detached {
        active := None;
      }
    }
  }
}

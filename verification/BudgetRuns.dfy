/** What the budget evaluator guarantees over whole runs (budget.rs). */
module BudgetRuns {
  import opened Common
  import opened Budget

  datatype Call =
    | OnRunStart
    | OnCycleStart
    | OnModelCallStart
    | OnModelCallComplete(usage: TokenUsage)
    | OnPreflight(names: ToolBatch)
    | OnToolBatchComplete(failed: bool)
    | OnTerminal

  /** One call, with what the clock and the meter show during it. */
  datatype Event = Event(call: Call, now: nat, reading: Reading)

  ghost function Step(e: Evaluator, ev: Event): (Evaluator, Option<Exhaustion>) {
    match ev.call
    case OnRunStart => RunStart(e, ev.now, ev.reading)
    case OnCycleStart => CycleStart(e, ev.now, ev.reading)
    case OnModelCallStart => ModelCallStart(e, ev.now, ev.reading)
    case OnModelCallComplete(u) => ModelCallComplete(e, u, ev.now, ev.reading)
    case OnPreflight(names) => PreflightTools(e, names, ev.now, ev.reading)
    case OnToolBatchComplete(failed) => ToolBatchComplete(e, failed, ev.now, ev.reading)
    case OnTerminal => Terminal(e, ev.now, ev.reading)
  }

  ghost function Run(e: Evaluator, evs: seq<Event>): Evaluator {
    if evs == [] then e else Step(Run(e, evs[..|evs| - 1]), evs[|evs| - 1]).0
  }

  /** The answer to the last call of a run. */
  ghost function Answer(e: Evaluator, evs: seq<Event>): Option<Exhaustion>
    requires evs != []
  {
    Step(Run(e, evs[..|evs| - 1]), evs[|evs| - 1]).1
  }

  // ---- What one step touches -----------------------------------------------------------

  /** Fields no observation changes. */
  predicate SameCounts(e: Evaluator, o: Evaluator) {
    && o.limits == e.limits && o.hasMeter == e.hasMeter && o.startedNs == e.startedNs && o.baseElapsedMs == e.baseElapsedMs
    && o.cycles == e.cycles && o.toolCalls == e.toolCalls && o.toolCallsByName == e.toolCallsByName
  }

  predicate SameTokens(e: Evaluator, o: Evaluator) {
    && o.totalTokens == e.totalTokens && o.uncachedInputTokens == e.uncachedInputTokens
    && (TotalTokens in o.unavailable <==> TotalTokens in e.unavailable)
    && (UncachedInputTokens in o.unavailable <==> UncachedInputTokens in e.unavailable)
  }

  /** Latches only grow, and an existing one keeps its entry. */
  predicate LatchesGrow(e: Evaluator, o: Evaluator) {
    forall d :: d in e.unavailable ==> d in o.unavailable && o.unavailable[d] == e.unavailable[d]
  }

  lemma ElapsedEffect(e: Evaluator, now: nat)
    ensures SameCounts(e, ObserveElapsed(e, now)) && SameTokens(e, ObserveElapsed(e, now)) && LatchesGrow(e, ObserveElapsed(e, now))
  {
  }

  /** Only the host cost and its own latch may differ. */
  predicate CostOnly(e: Evaluator, o: Evaluator) {
    && SameCounts(e, o) && SameTokens(e, o) && LatchesGrow(e, o) && o.elapsedMs == e.elapsedMs
    && (WallTime in o.unavailable <==> WallTime in e.unavailable)
  }

  lemma LatchCostEffect(e: Evaluator, limit: HostCost, reason: UnavailableReason, seen: Option<HostCost>)
    ensures CostOnly(e, LatchCost(e, limit, reason, seen))
    ensures CostOnly(e, LatchCost(e.(hostCost := None), limit, reason, seen))
  {
  }

  lemma CostEffect(e: Evaluator, r: Reading)
    ensures CostOnly(e, ObserveHostCost(e, r))
  {
    hide LatchCost, ValidCost, CostOnly;
    AnyCost(e, e.hostCost);
    assert e == e.(hostCost := e.hostCost);
    if e.limits.maxHostCost.Some? {
      var limit := e.limits.maxHostCost.value;
      LatchCostEffect(e, limit, MeterMissing, None);
      LatchCostEffect(e, limit, MeterUnavailable, None);
      LatchCostEffect(e, limit, MeterError, None);
      if r.Reads? {
        AnyCost(e, Some(r.cost));
        LatchCostEffect(e, limit, UnitMismatch, Some(r.cost));
        LatchCostEffect(e, limit, CurrencyMismatch, Some(r.cost));
        LatchCostEffect(e, limit, NonMonotonic, Some(r.cost));
      }
    }
  }

  lemma AnyCost(e: Evaluator, cost: Option<HostCost>)
    ensures CostOnly(e, e.(hostCost := cost))
  {
  }

  lemma BoundaryEffect(e: Evaluator, now: nat, r: Reading)
    ensures SameCounts(e, ObserveBoundary(e, now, r)) && SameTokens(e, ObserveBoundary(e, now, r))
    ensures LatchesGrow(e, ObserveBoundary(e, now, r))
    ensures ObserveBoundary(e, now, r).elapsedMs == ObserveElapsed(e, now).elapsedMs
    ensures WallTime in ObserveBoundary(e, now, r).unavailable <==> WallTime in ObserveElapsed(e, now).unavailable
  {
    ElapsedEffect(e, now);
    CostEffect(ObserveElapsed(e, now), r);
  }

  lemma LatchTokensEffect(e: Evaluator, d: Dimension, reason: Option<UnavailableReason>)
    ensures var o := LatchTokens(e, d, reason); LatchesGrow(e, o) && o == e.(unavailable := o.unavailable)
  {
  }

  lemma TokensEffect(e: Evaluator, u: TokenUsage)
    ensures SameCounts(e, ObserveTokens(e, u)) && LatchesGrow(e, ObserveTokens(e, u))
    ensures ObserveTokens(e, u).elapsedMs == e.elapsedMs
    ensures ObserveTokens(e, u).totalTokens == AddTokens(e.totalTokens, TotalIncrement(u)).0
    ensures ObserveTokens(e, u).uncachedInputTokens == AddTokens(e.uncachedInputTokens, UncachedIncrement(u)).0
  {
    hide LatchTokens, AddTokens, TotalIncrement, UncachedIncrement;
    var (total, totalLatch) := AddTokens(e.totalTokens, TotalIncrement(u));
    var (uncached, uncachedLatch) := AddTokens(e.uncachedInputTokens, UncachedIncrement(u));
    var t := e.(totalTokens := total, uncachedInputTokens := uncached);
    LatchTokensEffect(t, TotalTokens, totalLatch);
    LatchTokensEffect(LatchTokens(t, TotalTokens, totalLatch), UncachedInputTokens, uncachedLatch);
  }

  lemma StepLatches(e: Evaluator, ev: Event)
    ensures LatchesGrow(e, Step(e, ev).0) && Step(e, ev).0.limits == e.limits
  {
    hide ObserveBoundary, ObserveTokens, Verdict;
    BoundaryEffect(e, ev.now, ev.reading);
    if ev.call.OnModelCallComplete? {
      TokensEffect(e, ev.call.usage);
      BoundaryEffect(ObserveTokens(e, ev.call.usage), ev.now, ev.reading);
    }
  }

  /** Over any run the latches only grow and keep their first reason, and the limits never change. */
  lemma {:induction false} RunLatches(e: Evaluator, evs: seq<Event>)
    ensures LatchesGrow(e, Run(e, evs)) && Run(e, evs).limits == e.limits
  {
    if evs != [] {
      RunLatches(e, evs[..|evs| - 1]);
      StepLatches(Run(e, evs[..|evs| - 1]), evs[|evs| - 1]);
    }
  }

  // ---- Precedence -------------------------------------------------------------------------

  /** A scan reports the first offending dimension of the precedence list, and nothing if there is none. */
  lemma {:induction false} ScanReportsFirst(e: Evaluator, b: Boundary, c: Check, i: nat)
    requires i <= |PRECEDENCE|
    ensures var x := FindFrom(e, b, c, i);
            if x.None? then forall j :: i <= j < |PRECEDENCE| ==> Offence(e, b, c, PRECEDENCE[j]).None?
            else exists j :: i <= j < |PRECEDENCE| && Offence(e, b, c, PRECEDENCE[j]) == x && x.value.dimension == PRECEDENCE[j]
                             && forall k :: i <= k < j ==> Offence(e, b, c, PRECEDENCE[k]).None?
    decreases |PRECEDENCE| - i
  {
    hide Offence;
    if i < |PRECEDENCE| {
      OffenceNamesItsDimension(e, b, c, PRECEDENCE[i]);
      if Offence(e, b, c, PRECEDENCE[i]).None? {
        ScanReportsFirst(e, b, c, i + 1);
      }
    }
  }

  lemma OffenceNamesItsDimension(e: Evaluator, b: Boundary, c: Check, d: Dimension)
    ensures Offence(e, b, c, d).Some? ==> Offence(e, b, c, d).value.dimension == d
  {
  }

  lemma ScanFinds(e: Evaluator, b: Boundary, c: Check, d: Dimension)
    ensures FindFrom(e, b, c, 0).None? ==> Offence(e, b, c, d).None?
    ensures FindFrom(e, b, c, 0).Some? ==>
              Offence(e, b, c, FindFrom(e, b, c, 0).value.dimension) == FindFrom(e, b, c, 0)
  {
    hide Offence, FindFrom;
    ScanReportsFirst(e, b, c, 0);
    EveryDimensionIsRanked(d);
  }

  lemma EveryDimensionIsRanked(d: Dimension)
    ensures exists j :: 0 <= j < |PRECEDENCE| && PRECEDENCE[j] == d
  {
    assert PRECEDENCE[0] == WallTime && PRECEDENCE[1] == TotalTokens && PRECEDENCE[2] == UncachedInputTokens
           && PRECEDENCE[3] == HostCostSpent && PRECEDENCE[4] == ToolCalls && PRECEDENCE[5] == ToolCallsByName;
    match d
    case WallTime => case TotalTokens => case UncachedInputTokens => case HostCostSpent => case ToolCalls => case ToolCallsByName =>
  }

  /** The check each boundary makes, when it makes one. */
  function CheckOf(call: Call): (Boundary, Check) {
    match call
    case OnRunStart => (AtRunStart, Admission(TIME_AND_COST))
    case OnCycleStart => (AtCycleStart, Admission(MODEL_SCOPE))
    case OnModelCallStart => (AtCycleStart, Admission(MODEL_SCOPE))
    case OnModelCallComplete(_) => (AtModelCallComplete, Exceeded(MODEL_SCOPE))
    case OnPreflight(_) => (AtToolBatchPreflight, Admission(TIME_AND_COST))
    case OnToolBatchComplete(_) => (AtToolBatchComplete, Exceeded(TIME_AND_COST))
    case OnTerminal => (AtTerminal, Exceeded(EVERY_DIMENSION))
  }

  /** The state a boundary judges. */
  function Observed(e: Evaluator, ev: Event): Evaluator {
    ObserveBoundary(if ev.call.OnModelCallComplete? then ObserveTokens(e, ev.call.usage) else e, ev.now, ev.reading)
  }

  lemma StepJudgesObserved(e: Evaluator, ev: Event)
    ensures var (b, c) := CheckOf(ev.call);
            var v, x := Verdict(Observed(e, ev), b, c), Step(e, ev).1;
            if ev.call == OnToolBatchComplete(true) then x.None?
            else v.Some? ==> x == v
    ensures !ev.call.OnPreflight? && ev.call != OnToolBatchComplete(true) ==>
              Step(e, ev).1 == Verdict(Observed(e, ev), CheckOf(ev.call).0, CheckOf(ev.call).1)
    ensures Step(e, ev).0.unavailable == Observed(e, ev).unavailable
    ensures Step(e, ev).1.Some? && Verdict(Observed(e, ev), CheckOf(ev.call).0, CheckOf(ev.call).1).None? ==>
              && ev.call.OnPreflight? && Step(e, ev).1.value.reason.LimitReached?
              && (Step(e, ev).1.value.dimension.ToolCalls? || Step(e, ev).1.value.dimension.ToolCallsByName?)
  {
  }

  /** Past its observations a step changes only counters. */
  lemma StepShape(e: Evaluator, ev: Event)
    ensures var e', o := Step(e, ev).0, Observed(e, ev);
            e' == o.(cycles := e'.cycles, toolCalls := e'.toolCalls, toolCallsByName := e'.toolCallsByName)
  {
    hide ObserveBoundary, ObserveTokens, Verdict, OverLimit, CountExhaustion, AddCounts;
  }

  /**
   Under Stop, once a limited dimension is latched every later boundary stops with
   an unavailable metric, except the completion of a failed tool batch.
   */
  lemma StopStopsForGood(e: Evaluator, evs: seq<Event>, ev: Event, d: Dimension)
    requires e.limits.policy.Stop? && d in e.unavailable && LimitOf(e.limits, d).Some?
    ensures var x := Step(Run(e, evs), ev).1;
            if ev.call == OnToolBatchComplete(true) then x.None?
            else x.Some? && x.value.reason.MetricUnavailable?
  {
    hide Step, Run, Observed, FindFrom, Offence;
    RunLatches(e, evs);
    var s := Run(e, evs);
    StepJudgesObserved(s, ev);
    TokensThenBoundary(s, ev);
    var o, b := Observed(s, ev), CheckOf(ev.call).0;
    assert d in s.unavailable && d in o.unavailable && o.limits == e.limits;
    LatchedOffends(o, b, d);
    ScanFinds(o, b, Strict, d);
    if FindFrom(o, b, Strict, 0).Some? {
      LatchedOffends(o, b, FindFrom(o, b, Strict, 0).value.dimension);
    }
  }

  lemma LatchedOffends(o: Evaluator, b: Boundary, d: Dimension)
    ensures Offence(o, b, Strict, d).Some? <==> d in o.unavailable && LimitOf(o.limits, d).Some?
    ensures Offence(o, b, Strict, d).Some? ==> Offence(o, b, Strict, d).value.reason.MetricUnavailable?
  {
  }

  lemma TokensThenBoundary(e: Evaluator, ev: Event)
    ensures SameCounts(e, Observed(e, ev)) && LatchesGrow(e, Observed(e, ev))
    ensures !ev.call.OnModelCallComplete? ==> SameTokens(e, Observed(e, ev))
  {
    if ev.call.OnModelCallComplete? {
      TokensEffect(e, ev.call.usage);
      BoundaryEffect(ObserveTokens(e, ev.call.usage), ev.now, ev.reading);
    } else {
      BoundaryEffect(e, ev.now, ev.reading);
    }
  }

  /** Under ContinueAndMark a latched time, token or cost dimension never causes exhaustion again. */
  lemma MarkedNeverExhausts(e: Evaluator, evs: seq<Event>, ev: Event, d: Dimension)
    requires e.limits.policy.ContinueAndMark? && d in e.unavailable && d in MODEL_SCOPE
    ensures var x := Step(Run(e, evs), ev).1;
            x.Some? ==> x.value.dimension != d
  {
    RunLatches(e, evs);
    var s := Run(e, evs);
    StepJudgesObserved(s, ev);
    TokensThenBoundary(s, ev);
    hide Step, Run, Observed, FindFrom;
    var o := Observed(s, ev);
    var (b, c) := CheckOf(ev.call);
    assert d in s.unavailable && d in o.unavailable;
    assert Offence(o, b, c, d).None?;
    ScanFinds(o, b, c, d);
  }

  // ---- Counters are a fold over the history -------------------------------------------------

  function Capped(n: nat): nat {
    if n <= U64_MAX then n else U64_MAX
  }

  /** How many cycle starts of the run were admitted. */
  ghost function AdmittedCycles(e: Evaluator, evs: seq<Event>): nat {
    if evs == [] then 0
    else AdmittedCycles(e, evs[..|evs| - 1]) + if evs[|evs| - 1].call.OnCycleStart? && Answer(e, evs).None? then 1 else 0
  }

  /** The tool names of the admitted batches, one after the other. */
  ghost function AdmittedNames(e: Evaluator, evs: seq<Event>): seq<string> {
    if evs == [] then []
    else AdmittedNames(e, evs[..|evs| - 1]) + if evs[|evs| - 1].call.OnPreflight? && Answer(e, evs).None? then evs[|evs| - 1].call.names else []
  }

  /** The counters of a run that began at zero. */
  ghost predicate CountersAre(e: Evaluator, cycles: nat, names: seq<string>) {
    && e.cycles == Capped(cycles)
    && e.toolCalls == Capped(|names|)
    && CountsAre(e.toolCallsByName, names)
  }

  /** How a step changes the counters of the state it observed. */
  lemma CountersAfter(e: Evaluator, ev: Event)
    ensures var (e', x), o := Step(e, ev), Observed(e, ev);
            && e'.cycles == (if ev.call.OnCycleStart? && x.None? then SaturatingAdd(o.cycles, 1) else o.cycles)
            && e'.toolCalls == (if ev.call.OnPreflight? && x.None? then SaturatingAdd(o.toolCalls, |ev.call.names|) else o.toolCalls)
            && e'.toolCallsByName == (if ev.call.OnPreflight? && x.None? then AddCounts(o.toolCallsByName, BatchByName(ev.call.names))
                                      else o.toolCallsByName)
  {
    hide ObserveBoundary, ObserveTokens, Verdict, OverLimit, CountExhaustion, AddCounts, BatchByName;
  }

  lemma StepCounters(e: Evaluator, ev: Event, cycles: nat, names: seq<string>)
    requires CountersAre(e, cycles, names)
    ensures var (e', x) := Step(e, ev);
            CountersAre(e', cycles + (if ev.call.OnCycleStart? && x.None? then 1 else 0),
                        names + if ev.call.OnPreflight? && x.None? then ev.call.names else [])
  {
    TokensThenBoundary(e, ev);
    CountersAfter(e, ev);
    hide Step, Observed, AddCounts, BatchByName, CountsAre;
    assert names + [] == names;
    if ev.call.OnPreflight? {
      BatchCounts(Observed(e, ev).toolCallsByName, names, ev.call.names);
    }
  }

  ghost predicate CountsAre(m: map<string, nat>, names: seq<string>) {
    && (forall n :: n in m <==> n in names)
    && (forall n :: n in names ==> m[n] == Capped(multiset(names)[n]))
  }

  lemma BatchCounts(m: map<string, nat>, names: seq<string>, batch: ToolBatch)
    requires CountsAre(m, names)
    ensures CountsAre(AddCounts(m, BatchByName(batch)), names + batch)
  {
    assert multiset(names + batch) == multiset(names) + multiset(batch);
    var m' := AddCounts(m, BatchByName(batch));
    forall n | n in names + batch ensures n in m' && m'[n] == Capped(multiset(names + batch)[n]) {
      assert CountOf(m, n) == Capped(multiset(names)[n]);
    }
  }

  /**
   From default usage, after any run: cycles is the number of admitted cycle starts,
   tool calls the length of the admitted batches, and each named count the number of
   times the name was admitted (each capped at the largest u64).
   */
  lemma {:induction false} CountersAreAFold(e: Evaluator, evs: seq<Event>)
    requires e.cycles == 0 && e.toolCalls == 0 && e.toolCallsByName == map[]
    ensures CountersAre(Run(e, evs), AdmittedCycles(e, evs), AdmittedNames(e, evs))
  {
    if evs != [] {
      CountersAreAFold(e, evs[..|evs| - 1]);
      StepCounters(Run(e, evs[..|evs| - 1]), evs[|evs| - 1], AdmittedCycles(e, evs[..|evs| - 1]), AdmittedNames(e, evs[..|evs| - 1]));
    }
  }

  ghost function Sum(m: map<string, nat>): nat
    decreases m.Keys
  {
    if m == map[] then 0
    else
      var n :| n in m;
      m[n] + Sum(m - {n})
  }

  lemma {:induction false} CountsSumToLength(m: map<string, nat>, ms: multiset<string>)
    requires forall n :: n in m <==> n in ms
    requires forall n :: n in m ==> m[n] == ms[n]
    ensures Sum(m) == |ms|
    decreases m.Keys
  {
    if m == map[] {
      assert ms == multiset{} by {
        assert forall n :: n !in ms;
      }
    } else {
      var n :| n in m && Sum(m) == m[n] + Sum(m - {n});
      CountsSumToLength(m - {n}, ms[n := 0]);
    }
  }

  /** Barring saturation, `tool_calls` is the sum of the named counts. */
  lemma ToolCallsIsTheSum(e: Evaluator, evs: seq<Event>)
    requires e.cycles == 0 && e.toolCalls == 0 && e.toolCallsByName == map[]
    requires |AdmittedNames(e, evs)| <= U64_MAX
    ensures Run(e, evs).toolCalls == Sum(Run(e, evs).toolCallsByName) == |AdmittedNames(e, evs)|
  {
    CountersAreAFold(e, evs);
    var names := AdmittedNames(e, evs);
    assert |multiset(names)| == |names|;
    forall n | n in names ensures multiset(names)[n] <= U64_MAX {
      assert multiset(names)[n := 0] <= multiset(names);
      assert |multiset(names)[n := 0]| == |multiset(names)| - multiset(names)[n];
    }
    CountsSumToLength(Run(e, evs).toolCallsByName, multiset(names));
  }

  // ---- Tool limits ------------------------------------------------------------------------------

  predicate WithinToolLimits(e: Evaluator) {
    && (e.limits.maxToolCalls.Some? ==> e.toolCalls <= e.limits.maxToolCalls.value)
    && (forall n :: n in e.limits.maxToolCallsByName ==> CountOf(e.toolCallsByName, n) <= e.limits.maxToolCallsByName[n])
  }

  /** A boundary that refuses, and any that is not an admitted batch, changes no tool counter. */
  lemma RefusalChangesNoCounter(e: Evaluator, ev: Event)
    ensures var (e', x) := Step(e, ev);
            x.Some? ==> SameCounts(e, e')
    ensures !ev.call.OnPreflight? ==>
              Step(e, ev).0.toolCalls == e.toolCalls && Step(e, ev).0.toolCallsByName == e.toolCallsByName
  {
    TokensThenBoundary(e, ev);
  }

  lemma StepStaysWithinToolLimits(e: Evaluator, ev: Event)
    requires WithinToolLimits(e)
    ensures WithinToolLimits(Step(e, ev).0)
  {
    TokensThenBoundary(e, ev);
    RefusalChangesNoCounter(e, ev);
    var (e', x) := Step(e, ev);
    if ev.call.OnPreflight? && x.None? {
      var o, batch := Observed(e, ev), ev.call.names;
      forall n | n in e'.limits.maxToolCallsByName ensures CountOf(e'.toolCallsByName, n) <= e'.limits.maxToolCallsByName[n] {
        assert n in batch ==> n !in OverLimit(o, batch);
      }
    }
  }

  /** No run drives the tool calls, or any named count, above its limit; so no boundary reports them exceeded. */
  lemma {:induction false} ToolLimitsHold(e: Evaluator, evs: seq<Event>)
    requires WithinToolLimits(e)
    ensures WithinToolLimits(Run(e, evs))
    ensures evs != [] && Answer(e, evs).Some? && Answer(e, evs).value.reason.LimitExceeded? ==>
              !Answer(e, evs).value.dimension.ToolCalls? && !Answer(e, evs).value.dimension.ToolCallsByName?
  {
    if evs != [] {
      var s, ev := Run(e, evs[..|evs| - 1]), evs[|evs| - 1];
      ToolLimitsHold(e, evs[..|evs| - 1]);
      StepStaysWithinToolLimits(s, ev);
      NeverExceedsToolCalls(s, ev);
    }
  }

  lemma NeverExceedsToolCalls(e: Evaluator, ev: Event)
    requires WithinToolLimits(e)
    ensures var x := Step(e, ev).1;
            x.Some? && x.value.reason.LimitExceeded? ==> !x.value.dimension.ToolCalls? && !x.value.dimension.ToolCallsByName?
  {
    StepJudgesObserved(e, ev);
    TokensThenBoundary(e, ev);
    hide Step, Observed, FindFrom;
    var o := Observed(e, ev);
    var (b, c) := CheckOf(ev.call);
    ScanFinds(o, b, Strict, WallTime);
    ScanFinds(o, b, c, WallTime);
  }
}

/**
 What each boundary of the budget answers (budget.rs), stated on the fields of the
 evaluator: the limits, the counters and the latches.
 */
module BudgetVerdicts {
  import opened Common
  import opened Budget
  import opened BudgetRuns
  import LexOrder

  function Rank(d: Dimension): nat {
    match d
    case WallTime => 0
    case TotalTokens => 1
    case UncachedInputTokens => 2
    case HostCostSpent => 3
    case ToolCalls => 4
    case ToolCallsByName => 5
  }

  lemma RankIsPosition(d: Dimension)
    ensures Rank(d) < |PRECEDENCE| && PRECEDENCE[Rank(d)] == d
    ensures forall j :: 0 <= j < |PRECEDENCE| && PRECEDENCE[j] == d ==> j == Rank(d)
  {
  }

  // ---- What a report says -------------------------------------------------------------

  /** The dimension has this limit, in this unit and currency. */
  predicate Limited(e: Evaluator, d: Dimension, limit: nat, unit: string, currency: Option<string>) {
    match d
    case WallTime => e.limits.maxWallTimeMs == Some(limit) && unit == "milliseconds" && currency.None?
    case TotalTokens => e.limits.maxTotalTokens == Some(limit) && unit == "tokens" && currency.None?
    case UncachedInputTokens => e.limits.maxUncachedInputTokens == Some(limit) && unit == "tokens" && currency.None?
    case ToolCalls => e.limits.maxToolCalls == Some(limit) && unit == "calls" && currency.None?
    case HostCostSpent => e.limits.maxHostCost == Some(HostCost(unit, currency, limit))
    case ToolCallsByName => false
  }

  /** The value measured for the dimension is known, and is this. */
  predicate Measured(e: Evaluator, d: Dimension, value: nat) {
    match d
    case WallTime => e.elapsedMs == value
    case TotalTokens => e.totalTokens == Some(value)
    case UncachedInputTokens => e.uncachedInputTokens == Some(value)
    case ToolCalls => e.toolCalls == value
    case HostCostSpent => e.hostCost.Some? && e.hostCost.value.amount == value
    case ToolCallsByName => false
  }

  function BoundaryOf(call: Call): Boundary {
    match call
    case OnRunStart => AtRunStart
    case OnCycleStart => AtCycleStart
    case OnModelCallStart => AtCycleStart
    case OnModelCallComplete(_) => AtModelCallComplete
    case OnPreflight(_) => AtToolBatchPreflight
    case OnToolBatchComplete(_) => AtToolBatchComplete
    case OnTerminal => AtTerminal
  }

  /** Calls that ask for leave refuse at the limit; calls that report refuse only past it. */
  predicate AsksLeave(call: Call) {
    call.OnRunStart? || call.OnCycleStart? || call.OnModelCallStart? || call.OnPreflight?
  }

  /** Time and cost are checked at every boundary, tokens around model calls, tool calls at the end. */
  predicate Covers(call: Call, d: Dimension) {
    || d.WallTime? || d.HostCostSpent? || call.OnTerminal?
    || ((d.TotalTokens? || d.UncachedInputTokens?) && (call.OnCycleStart? || call.OnModelCallStart? || call.OnModelCallComplete?))
  }

  /** The report on a latched dimension with a limit. */
  predicate ReportsLatch(e: Evaluator, call: Call, x: Exhaustion) {
    && x.dimension in e.unavailable && Limited(e, x.dimension, x.limit, x.unit, x.currency)
    && x.reason.MetricUnavailable? && x.unavailableReason == Some(e.unavailable[x.dimension].reason)
    && x.boundary == BoundaryOf(call)
    && x.toolName.None? && x.observed.None? && x.attemptedIncrement.None? && x.overshoot.None?
  }

  /** The report on an available dimension whose value has reached, or passed, its limit. */
  predicate ReportsLimit(e: Evaluator, call: Call, x: Exhaustion) {
    && Covers(call, x.dimension) && x.dimension !in e.unavailable
    && Limited(e, x.dimension, x.limit, x.unit, x.currency)
    && x.observed.Some? && Measured(e, x.dimension, x.observed.value)
    && (if AsksLeave(call) then x.observed.value >= x.limit && x.reason.LimitReached?
        else x.observed.value > x.limit && x.reason.LimitExceeded?)
    && x.overshoot == Some(x.observed.value - x.limit)
    && x.boundary == BoundaryOf(call)
    && x.toolName.None? && x.attemptedIncrement.None? && x.unavailableReason.None?
  }

  ghost predicate SomeLatch(e: Evaluator, call: Call) {
    exists x :: ReportsLatch(e, call, x)
  }

  ghost predicate SomeLimit(e: Evaluator, call: Call) {
    exists x :: ReportsLimit(e, call, x)
  }

  // ---- Scans ---------------------------------------------------------------------------

  /** A scan finds the first dimension by rank that offends, and nothing if none does. */
  lemma FirstByRank(e: Evaluator, b: Boundary, c: Check, d: Dimension)
    ensures var x := FindFrom(e, b, c, 0);
            && (x.None? ==> Offence(e, b, c, d).None?)
            && (x.Some? ==> && Offence(e, b, c, x.value.dimension) == x
                            && (Offence(e, b, c, d).Some? ==> Rank(x.value.dimension) <= Rank(d)))
  {
    hide Offence, FindFrom;
    ScanReportsFirst(e, b, c, 0);
    RankIsPosition(d);
    var x := FindFrom(e, b, c, 0);
    if x.Some? {
      var j :| 0 <= j < |PRECEDENCE| && Offence(e, b, c, PRECEDENCE[j]) == x && x.value.dimension == PRECEDENCE[j]
               && forall k :: 0 <= k < j ==> Offence(e, b, c, PRECEDENCE[k]).None?;
      RankIsPosition(PRECEDENCE[j]);
    }
  }

  lemma StrictOffence(o: Evaluator, call: Call, d: Dimension, x: Exhaustion)
    ensures Offence(o, BoundaryOf(call), Strict, d) == Some(x) <==> ReportsLatch(o, call, x) && x.dimension == d
  {
  }

  lemma LimitOffence(o: Evaluator, call: Call, d: Dimension, x: Exhaustion)
    ensures Offence(o, CheckOf(call).0, CheckOf(call).1, d) == Some(x) <==> ReportsLimit(o, call, x) && x.dimension == d
  {
  }

  /** The scan over the latches, in terms of the reports. */
  lemma StrictScan(o: Evaluator, call: Call)
    ensures var x := FindFrom(o, BoundaryOf(call), Strict, 0);
            && (x.None? ==> !SomeLatch(o, call))
            && (x.Some? ==> ReportsLatch(o, call, x.value) && forall y :: ReportsLatch(o, call, y) ==> Rank(x.value.dimension) <= Rank(y.dimension))
  {
    hide Offence, FindFrom, ReportsLatch;
    var b := BoundaryOf(call);
    var x := FindFrom(o, b, Strict, 0);
    forall y | ReportsLatch(o, call, y) ensures x.Some? && Rank(x.value.dimension) <= Rank(y.dimension) {
      StrictOffence(o, call, y.dimension, y);
      FirstByRank(o, b, Strict, y.dimension);
    }
    if x.Some? {
      FirstByRank(o, b, Strict, x.value.dimension);
      StrictOffence(o, call, x.value.dimension, x.value);
    }
  }

  lemma LimitScan(o: Evaluator, call: Call)
    ensures var x := FindFrom(o, CheckOf(call).0, CheckOf(call).1, 0);
            && (x.None? ==> !SomeLimit(o, call))
            && (x.Some? ==> ReportsLimit(o, call, x.value) && forall y :: ReportsLimit(o, call, y) ==> Rank(x.value.dimension) <= Rank(y.dimension))
  {
    hide Offence, FindFrom, ReportsLimit;
    var (b, c) := CheckOf(call);
    var x := FindFrom(o, b, c, 0);
    forall y | ReportsLimit(o, call, y) ensures x.Some? && Rank(x.value.dimension) <= Rank(y.dimension) {
      LimitOffence(o, call, y.dimension, y);
      FirstByRank(o, b, c, y.dimension);
    }
    if x.Some? {
      FirstByRank(o, b, c, x.value.dimension);
      LimitOffence(o, call, x.value.dimension, x.value);
    }
  }

  // ---- Boundaries ----------------------------------------------------------------------

  /** The counters a step may change are not covered where it changes them. */
  lemma ReportsSeeTheNewState(e: Evaluator, ev: Event, x: Exhaustion)
    ensures ReportsLatch(Step(e, ev).0, ev.call, x) <==> ReportsLatch(Observed(e, ev), ev.call, x)
    ensures ReportsLimit(Step(e, ev).0, ev.call, x) <==> ReportsLimit(Observed(e, ev), ev.call, x)
  {
    hide Observed, Step;
    StepShape(e, ev);
    CountersAfter(e, ev);
  }

  /** The answer is the report on the first dimension of all those the state has to report, in the order of precedence. */
  ghost predicate IsFirstLatch(e: Evaluator, call: Call, x: Option<Exhaustion>) {
    x.Some? && ReportsLatch(e, call, x.value) && forall y :: ReportsLatch(e, call, y) ==> Rank(x.value.dimension) <= Rank(y.dimension)
  }

  ghost predicate IsFirstLimit(e: Evaluator, call: Call, x: Option<Exhaustion>) {
    x.Some? && ReportsLimit(e, call, x.value) && forall y :: ReportsLimit(e, call, y) ==> Rank(x.value.dimension) <= Rank(y.dimension)
  }

  lemma VerdictIs(o: Evaluator, call: Call)
    ensures var (b, c) := CheckOf(call);
            var x := Verdict(o, b, c);
            if o.limits.policy.Stop? && SomeLatch(o, call) then IsFirstLatch(o, call, x)
            else if SomeLimit(o, call) then IsFirstLimit(o, call, x)
            else x.None?
  {
    hide FindFrom, Offence, ReportsLatch, ReportsLimit;
    StrictScan(o, call);
    LimitScan(o, call);
    assert CheckOf(call).0 == BoundaryOf(call);
  }

  /**
   The answer of every boundary.  The completion of a failed tool batch is never refused.  Under
   Stop a latched dimension with a limit is reported first; then the first covered dimension
   that has reached its limit, or passed it; then, before a tool batch, its counts.
   */
  lemma BoundaryAnswers(e: Evaluator, ev: Event)
    ensures var (e', x) := Step(e, ev);
            if ev.call == OnToolBatchComplete(true) then x.None?
            else if e.limits.policy.Stop? && SomeLatch(e', ev.call) then IsFirstLatch(e', ev.call, x)
            else if SomeLimit(e', ev.call) then IsFirstLimit(e', ev.call, x)
            else if ev.call.OnPreflight? then CountsAnswer(e, ev.call.names, x)
            else x.None?
  {
    hide Step, Observed, Verdict, ReportsLatch, ReportsLimit, CountsAnswer;
    StepJudgesObserved(e, ev);
    TokensThenBoundary(e, ev);
    VerdictIs(Observed(e, ev), ev.call);
    forall x ensures && (ReportsLatch(Step(e, ev).0, ev.call, x) <==> ReportsLatch(Observed(e, ev), ev.call, x))
                     && (ReportsLimit(Step(e, ev).0, ev.call, x) <==> ReportsLimit(Observed(e, ev), ev.call, x))
    {
      ReportsSeeTheNewState(e, ev, x);
    }
    if ev.call.OnPreflight? {
      PreflightCounts(e, ev);
    }
  }

  // ---- Tool batches ----------------------------------------------------------------------

  /** The count of a name after the batch, as a 64-bit counter. */
  function CountAfter(e: Evaluator, names: ToolBatch, name: string): nat {
    Capped((if name in e.toolCallsByName then e.toolCallsByName[name] else 0) + multiset(names)[name])
  }

  /** The names of the batch whose count would pass their limit. */
  function NamesOver(e: Evaluator, names: ToolBatch): set<string> {
    set name | name in e.limits.maxToolCallsByName && name in names
               && CountAfter(e, names, name) > e.limits.maxToolCallsByName[name]
  }

  function CountReport(d: Dimension, toolName: Option<string>, limit: nat, observed: nat, increment: nat): Exhaustion
    requires Capped(observed + increment) > limit
  {
    Exhaustion(d, toolName, LimitReached, limit, Some(observed), Some(increment), Some(Capped(observed + increment) - limit),
               "calls", None, AtToolBatchPreflight, None)
  }

  /** The total is checked first, then the names in the order of their bytes; a batch within all limits is admitted. */
  ghost predicate CountsAnswer(e: Evaluator, names: ToolBatch, x: Option<Exhaustion>) {
    var after := Capped(e.toolCalls + |names|);
    if e.limits.maxToolCalls.Some? && after > e.limits.maxToolCalls.value then
      x == Some(CountReport(ToolCalls, None, e.limits.maxToolCalls.value, e.toolCalls, |names|))
    else if NamesOver(e, names) != {} then
      exists n :: LexOrder.IsLeast(NamesOver(e, names), n) && ReportsName(e, names, n, x)
    else x.None?
  }

  ghost predicate ReportsName(e: Evaluator, names: ToolBatch, n: string, x: Option<Exhaustion>)
    requires n in NamesOver(e, names)
  {
    x == Some(CountReport(ToolCallsByName, Some(n), e.limits.maxToolCallsByName[n],
                          if n in e.toolCallsByName then e.toolCallsByName[n] else 0, multiset(names)[n]))
  }

  lemma PreflightCounts(e: Evaluator, ev: Event)
    requires ev.call.OnPreflight?
    ensures Verdict(Observed(e, ev), AtToolBatchPreflight, Admission(TIME_AND_COST)).None? ==> CountsAnswer(e, ev.call.names, Step(e, ev).1)
  {
    TokensThenBoundary(e, ev);
    hide Verdict, ObserveBoundary, ObserveTokens;
    var o, names := Observed(e, ev), ev.call.names;
    assert SaturatingAdd(o.toolCalls, |names|) == Capped(e.toolCalls + |names|);
    assert OverLimit(o, names) == NamesOver(e, names);
  }

  // ---- Observations ------------------------------------------------------------------------

  /** Time: the elapsed milliseconds never go back, and past the wire limit time is latched instead. */
  lemma TimeObserved(e: Evaluator, ev: Event)
    ensures var e' := Step(e, ev).0;
            var total := e.baseElapsedMs + (if ev.now > e.startedNs then (ev.now - e.startedNs) / 1_000_000 else 0);
            if WallTime in e.unavailable then e'.elapsedMs == e.elapsedMs && WallTime in e'.unavailable
            else if total > MAX_WIRE_INTEGER then
              e'.elapsedMs == e.elapsedMs && WallTime in e'.unavailable && e'.unavailable[WallTime].reason == IntegerOverflow
            else e'.elapsedMs == (if total > e.elapsedMs then total else e.elapsedMs) && WallTime !in e'.unavailable
  {
    hide Step;
    StepShape(e, ev);
    var t := if ev.call.OnModelCallComplete? then ObserveTokens(e, ev.call.usage) else e;
    if ev.call.OnModelCallComplete? {
      TokensEffect(e, ev.call.usage);
      TokensLeaveTimeAndCost(e, ev.call.usage);
    }
    BoundaryEffect(t, ev.now, ev.reading);
    TimeLatch(t, ev.now, ev.reading);
    hide ObserveBoundary, ObserveTokens;
  }

  lemma TokensLeaveTimeAndCost(e: Evaluator, u: TokenUsage)
    ensures var t := ObserveTokens(e, u);
            && (WallTime in t.unavailable <==> WallTime in e.unavailable) && t.hostCost == e.hostCost
            && (HostCostSpent in t.unavailable <==> HostCostSpent in e.unavailable)
  {
  }

  lemma TimeLatch(e: Evaluator, now: nat, r: Reading)
    ensures var e' := ObserveBoundary(e, now, r);
            WallTime !in e.unavailable && ElapsedAt(e, now) > MAX_WIRE_INTEGER ==>
              WallTime in e'.unavailable && e'.unavailable[WallTime].reason == IntegerOverflow && e'.elapsedMs == e.elapsedMs
    ensures var e' := ObserveBoundary(e, now, r);
            WallTime in e.unavailable ==> e'.elapsedMs == e.elapsedMs
  {
    CostEffect(ObserveElapsed(e, now), r);
    hide ObserveHostCost;
  }

  /** A reading the budget accepts: from a meter, valid, in the limit's unit and currency, and not below the last one. */
  predicate GoodReading(limit: HostCost, hasMeter: bool, before: Option<HostCost>, r: Reading) {
    && hasMeter && r.Reads? && ValidCost(r.cost) && r.cost.unit == limit.unit && r.cost.currency == limit.currency
    && (before.Some? ==> before.value.amount <= r.cost.amount)
  }

  /** Why a reading is not accepted. */
  predicate FaultOf(limit: HostCost, hasMeter: bool, before: Option<HostCost>, r: Reading, reason: UnavailableReason) {
    match reason
    case MeterMissing => !hasMeter
    case MeterUnavailable => hasMeter && r.ReadsNothing?
    case MeterError => hasMeter && (r.ReadFails? || (r.Reads? && !ValidCost(r.cost)))
    case UnitMismatch => hasMeter && r.Reads? && ValidCost(r.cost) && r.cost.unit != limit.unit
    case CurrencyMismatch =>
      hasMeter && r.Reads? && ValidCost(r.cost) && r.cost.unit == limit.unit && r.cost.currency != limit.currency
    case NonMonotonic =>
      && hasMeter && r.Reads? && ValidCost(r.cost) && r.cost.unit == limit.unit && r.cost.currency == limit.currency
      && before.Some? && before.value.amount > r.cost.amount
    case _ => false
  }

  /** What the latch of a faulty reading says: the limit's unit and currency, and the reading's where it was looked at. */
  predicate LatchSays(u: Unavailable, limit: HostCost, r: Reading) {
    var seen := u.reason.UnitMismatch? || u.reason.CurrencyMismatch? || u.reason.NonMonotonic?;
    && u.expectedUnit == Some(limit.unit) && u.expectedCurrency == limit.currency
    && (if seen then r.Reads? && u.observedUnit == Some(r.cost.unit) && u.observedCurrency == r.cost.currency
        else u.observedUnit.None? && u.observedCurrency.None?)
  }

  lemma CostReading(e: Evaluator, r: Reading)
    requires e.limits.maxHostCost.Some? && HostCostSpent !in e.unavailable
    ensures var e', limit := ObserveHostCost(e, r), e.limits.maxHostCost.value;
            if GoodReading(limit, e.hasMeter, e.hostCost, r) then e'.hostCost == Some(r.cost) && HostCostSpent !in e'.unavailable
            else && HostCostSpent in e'.unavailable && FaultOf(limit, e.hasMeter, e.hostCost, r, e'.unavailable[HostCostSpent].reason)
                 && LatchSays(e'.unavailable[HostCostSpent], limit, r)
                 && e'.hostCost == if e'.unavailable[HostCostSpent].reason.NonMonotonic? then None else e.hostCost
  {
    hide ValidCost;
  }

  lemma CostUntouched(e: Evaluator, r: Reading)
    requires e.limits.maxHostCost.None? || HostCostSpent in e.unavailable
    ensures ObserveHostCost(e, r) == e
  {
  }

  /** Cost: a good reading is recorded as read, any other latches the dimension for its reason. */
  lemma CostObserved(e: Evaluator, ev: Event)
    ensures var e' := Step(e, ev).0;
            if e.limits.maxHostCost.None? || HostCostSpent in e.unavailable then
              e'.hostCost == e.hostCost && (HostCostSpent in e'.unavailable <==> HostCostSpent in e.unavailable)
            else
              var limit := e.limits.maxHostCost.value;
              if GoodReading(limit, e.hasMeter, e.hostCost, ev.reading) then
                e'.hostCost == Some(ev.reading.cost) && HostCostSpent !in e'.unavailable
              else && HostCostSpent in e'.unavailable
                   && FaultOf(limit, e.hasMeter, e.hostCost, ev.reading, e'.unavailable[HostCostSpent].reason)
                   && LatchSays(e'.unavailable[HostCostSpent], limit, ev.reading)
                   && e'.hostCost == if e'.unavailable[HostCostSpent].reason.NonMonotonic? then None else e.hostCost
  {
    hide Step, GoodReading, FaultOf, LatchSays;
    StepShape(e, ev);
    var t := if ev.call.OnModelCallComplete? then ObserveTokens(e, ev.call.usage) else e;
    if ev.call.OnModelCallComplete? {
      TokensEffect(e, ev.call.usage);
      TokensLeaveTimeAndCost(e, ev.call.usage);
    }
    var b := ObserveElapsed(t, ev.now);
    ElapsedEffect(t, ev.now);
    ElapsedLeavesCost(t, ev.now);
    if b.limits.maxHostCost.None? || HostCostSpent in b.unavailable {
      CostUntouched(b, ev.reading);
    } else {
      CostReading(b, ev.reading);
    }
    hide ObserveHostCost, ObserveElapsed, ObserveTokens;
  }

  lemma ElapsedLeavesCost(e: Evaluator, now: nat)
    ensures var t := ObserveElapsed(e, now);
            t.hostCost == e.hostCost && (HostCostSpent in t.unavailable <==> HostCostSpent in e.unavailable)
  {
  }

  /** The cost known before call `k` of a run: the reading of the call before. */
  function CostBefore(e: Evaluator, evs: seq<Event>, k: nat): Option<HostCost>
    requires k < |evs|
  {
    if k == 0 then e.hostCost else if evs[k - 1].reading.Reads? then Some(evs[k - 1].reading.cost) else None
  }

  ghost predicate AllReadingsGood(e: Evaluator, evs: seq<Event>, limit: HostCost) {
    forall k :: 0 <= k < |evs| ==> GoodReading(limit, e.hasMeter, CostBefore(e, evs, k), evs[k].reading)
  }

  /**
   Over any run with a cost limit: cost stays available exactly while every reading is good,
   and then the cost on record is the last reading, as the meter gave it.
   */
  lemma {:induction false} CostIsTheLastReading(e: Evaluator, evs: seq<Event>, limit: HostCost)
    requires e.limits.maxHostCost == Some(limit) && HostCostSpent !in e.unavailable
    ensures HostCostSpent !in Run(e, evs).unavailable <==> AllReadingsGood(e, evs, limit)
    ensures HostCostSpent !in Run(e, evs).unavailable && evs != [] ==>
              evs[|evs| - 1].reading.Reads? && Run(e, evs).hostCost == Some(evs[|evs| - 1].reading.cost)
    ensures evs == [] ==> Run(e, evs).hostCost == e.hostCost
    ensures Run(e, evs).hasMeter == e.hasMeter
  {
    hide Step, GoodReading, AllReadingsGood;
    if evs == [] {
      NoReadings(e, limit);
    } else {
      var n := |evs| - 1;
      var before, ev := evs[..n], evs[n];
      CostIsTheLastReading(e, before, limit);
      RunLatches(e, before);
      CostObserved(Run(e, before), ev);
      StepLatches(Run(e, before), ev);
      StepKeepsMeter(Run(e, before), ev);
      OneMoreReading(e, evs, limit);
      GoodIsRead(limit, e.hasMeter, CostBefore(e, evs, n), ev.reading);
    }
  }

  lemma NoReadings(e: Evaluator, limit: HostCost)
    ensures AllReadingsGood(e, [], limit)
  {
  }

  lemma OneMoreReading(e: Evaluator, evs: seq<Event>, limit: HostCost)
    requires evs != []
    ensures var n := |evs| - 1;
            AllReadingsGood(e, evs, limit) <==>
            AllReadingsGood(e, evs[..n], limit) && GoodReading(limit, e.hasMeter, CostBefore(e, evs, n), evs[n].reading)
  {
    hide GoodReading;
    var n := |evs| - 1;
    assert forall k :: 0 <= k < n ==> evs[..n][k] == evs[k] && CostBefore(e, evs[..n], k) == CostBefore(e, evs, k);
  }

  lemma GoodIsRead(limit: HostCost, hasMeter: bool, before: Option<HostCost>, r: Reading)
    ensures GoodReading(limit, hasMeter, before, r) ==> r.Reads?
  {
  }

  lemma StepKeepsMeter(e: Evaluator, ev: Event)
    ensures Step(e, ev).0.hasMeter == e.hasMeter
  {
    hide Step, Observed;
    StepShape(e, ev);
    TokensThenBoundary(e, ev);
  }
}

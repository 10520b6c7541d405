/**
 The run budget evaluator (budget.rs): six dimensions, sticky "unavailable" latches,
 and checks at the boundaries of a run.  The clock and the host cost meter are inputs
 of each boundary.
 */
module Budget {
  import opened Common
  import LexOrder

  datatype Policy = ContinueAndMark | Stop

  datatype Dimension = TotalTokens | UncachedInputTokens | ToolCalls | ToolCallsByName | WallTime | HostCostSpent

  datatype Boundary = AtRunStart | AtCycleStart | AtModelCallComplete | AtToolBatchPreflight | AtToolBatchComplete | AtTerminal

  datatype ExhaustionReason = LimitReached | LimitExceeded | MetricUnavailable

  datatype UnavailableReason =
    | AccountingMissing | UsageMissing | MeterMissing | MeterUnavailable | MeterError
    | UnitMismatch | CurrencyMismatch | NonMonotonic | IntegerOverflow

  datatype HostCost = HostCost(unit: string, currency: Option<string>, amount: nat)

  datatype Unavailable = Unavailable(
    dimension: Dimension,
    reason: UnavailableReason,
    expectedUnit: Option<string>,
    observedUnit: Option<string>,
    expectedCurrency: Option<string>,
    observedCurrency: Option<string>)

  datatype Limits = Limits(
    maxTotalTokens: Option<nat>,
    maxUncachedInputTokens: Option<nat>,
    maxToolCalls: Option<nat>,
    maxToolCallsByName: map<string, nat>,
    maxWallTimeMs: Option<nat>,
    maxHostCost: Option<HostCost>,
    policy: Policy)

  datatype Usage = Usage(
    cycles: nat,
    totalTokens: Option<nat>,
    uncachedInputTokens: Option<nat>,
    toolCalls: nat,
    toolCallsByName: map<string, nat>,
    elapsedMs: nat,
    hostCost: Option<HostCost>,
    unavailable: seq<Unavailable>)

  const DEFAULT_USAGE := Usage(0, Some(0), Some(0), 0, map[], 0, None, [])

  datatype Exhaustion = Exhaustion(
    dimension: Dimension,
    toolName: Option<string>,
    reason: ExhaustionReason,
    limit: nat,
    observed: Option<nat>,
    attemptedIncrement: Option<nat>,
    overshoot: Option<nat>,
    unit: string,
    currency: Option<string>,
    boundary: Boundary,
    unavailableReason: Option<UnavailableReason>)

  datatype UsageSource = ProviderReported | Estimated | SourceMissing

  /** The part of a model's token report the budget reads; `uncached` is present only when the provider reported it. */
  datatype TokenUsage = TokenUsage(source: UsageSource, total: Option<nat>, cacheReported: bool, uncached: Option<nat>)

  datatype Reading = Reads(cost: HostCost) | ReadsNothing | ReadFails

  datatype Evaluator = Evaluator(
    limits: Limits,
    hasMeter: bool,
    startedNs: nat,
    cycles: nat,
    totalTokens: Option<nat>,
    uncachedInputTokens: Option<nat>,
    toolCalls: nat,
    toolCallsByName: map<string, nat>,
    baseElapsedMs: nat,
    elapsedMs: nat,
    hostCost: Option<HostCost>,
    unavailable: map<Dimension, Unavailable>)

  // ---- Validation -------------------------------------------------------------------

  predicate OptionalWireInteger(n: Option<nat>) {
    n.Some? ==> WireInteger(n.value)
  }

  predicate NonBlankIfPresent(s: Option<string>) {
    s.Some? ==> NonBlank(s.value)
  }

  predicate ValidCost(c: HostCost) {
    NonBlank(c.unit) && NonBlankIfPresent(c.currency) && WireInteger(c.amount)
  }

  predicate ValidCounts(m: map<string, nat>) {
    forall name :: name in m ==> NonBlank(name) && WireInteger(m[name])
  }

  predicate ValidUnavailable(u: Unavailable) {
    NonBlankIfPresent(u.expectedUnit) && NonBlankIfPresent(u.observedUnit) && NonBlankIfPresent(u.expectedCurrency) && NonBlankIfPresent(u.observedCurrency)
  }

  predicate DistinctDimensions(us: seq<Unavailable>) {
    forall i, j :: 0 <= i < j < |us| ==> us[i].dimension != us[j].dimension
  }

  predicate ValidLimits(l: Limits) {
    && OptionalWireInteger(l.maxTotalTokens) && OptionalWireInteger(l.maxUncachedInputTokens)
    && OptionalWireInteger(l.maxToolCalls) && OptionalWireInteger(l.maxWallTimeMs)
    && ValidCounts(l.maxToolCallsByName)
    && (l.maxHostCost.Some? ==> ValidCost(l.maxHostCost.value))
  }

  predicate HasLimits(l: Limits) {
    || l.maxTotalTokens.Some? || l.maxUncachedInputTokens.Some? || l.maxToolCalls.Some?
    || l.maxToolCallsByName != map[] || l.maxWallTimeMs.Some? || l.maxHostCost.Some?
  }

  predicate ValidUsage(u: Usage) {
    && WireInteger(u.cycles) && OptionalWireInteger(u.totalTokens) && OptionalWireInteger(u.uncachedInputTokens)
    && WireInteger(u.toolCalls) && WireInteger(u.elapsedMs)
    && ValidCounts(u.toolCallsByName)
    && (u.hostCost.Some? ==> ValidCost(u.hostCost.value))
    && DistinctDimensions(u.unavailable)
    && (forall i :: 0 <= i < |u.unavailable| ==> ValidUnavailable(u.unavailable[i]))
  }

  // ---- Construction and snapshot ------------------------------------------------------

  const PRECEDENCE: seq<Dimension> := [WallTime, TotalTokens, UncachedInputTokens, HostCostSpent, ToolCalls, ToolCallsByName]

  /** Collecting observations into a map keyed by dimension. */
  function ByDimension(us: seq<Unavailable>): map<Dimension, Unavailable> {
    if us == [] then map[] else map[us[0].dimension := us[0]] + ByDimension(us[1..])
  }

  function WithClock(limits: Limits, hasMeter: bool, initial: Option<Usage>, nowNs: nat): Result<Evaluator> {
    var u := if initial.Some? then initial.value else DEFAULT_USAGE;
    if !ValidLimits(limits) then Err("invalid budget limits")
    else if !HasLimits(limits) then Err("BudgetEvaluator requires at least one configured limit")
    else if !ValidUsage(u) then Err("invalid budget usage")
    else Ok(Evaluator(limits, hasMeter, nowNs, u.cycles, u.totalTokens, u.uncachedInputTokens, u.toolCalls,
                      u.toolCallsByName, u.elapsedMs, u.elapsedMs, u.hostCost, ByDimension(u.unavailable)))
  }

  /** The observations sorted by precedence, from position `i` on. */
  function InPrecedence(m: map<Dimension, Unavailable>, i: nat): seq<Unavailable>
    requires i <= |PRECEDENCE|
    decreases |PRECEDENCE| - i
  {
    if i == |PRECEDENCE| then []
    else (if PRECEDENCE[i] in m then [m[PRECEDENCE[i]]] else []) + InPrecedence(m, i + 1)
  }

  function Snapshot(e: Evaluator): Usage {
    Usage(e.cycles, e.totalTokens, e.uncachedInputTokens, e.toolCalls, e.toolCallsByName, e.elapsedMs, e.hostCost,
          InPrecedence(e.unavailable, 0))
  }

  // ---- Observers -------------------------------------------------------------------------

  function SaturatingAdd(a: nat, b: nat): nat {
    if a + b <= U64_MAX then a + b else U64_MAX
  }

  /** `entry(..).or_insert_with(..)`: the first reason is kept. */
  function Latch(e: Evaluator, u: Unavailable): Evaluator {
    if u.dimension in e.unavailable then e else e.(unavailable := e.unavailable[u.dimension := u])
  }

  function ElapsedAt(e: Evaluator, nowNs: nat): nat {
    e.baseElapsedMs + (if nowNs > e.startedNs then nowNs - e.startedNs else 0) / 1_000_000
  }

  function ObserveElapsed(e: Evaluator, nowNs: nat): Evaluator {
    if WallTime in e.unavailable then e
    else if ElapsedAt(e, nowNs) > MAX_WIRE_INTEGER then
      Latch(e, Unavailable(WallTime, IntegerOverflow, Some("milliseconds"), None, None, None))
    else e.(elapsedMs := if ElapsedAt(e, nowNs) > e.elapsedMs then ElapsedAt(e, nowNs) else e.elapsedMs)
  }

  function LatchCost(e: Evaluator, limit: HostCost, reason: UnavailableReason, seen: Option<HostCost>): Evaluator {
    Latch(e, Unavailable(HostCostSpent, reason, Some(limit.unit),
                         if seen.Some? then Some(seen.value.unit) else None,
                         limit.currency,
                         if seen.Some? then seen.value.currency else None))
  }

  function ObserveHostCost(e: Evaluator, reading: Reading): Evaluator {
    if e.limits.maxHostCost.None? || HostCostSpent in e.unavailable then e
    else
      var limit := e.limits.maxHostCost.value;
      if !e.hasMeter then LatchCost(e, limit, MeterMissing, None)
      else
        match reading
        case ReadsNothing => LatchCost(e, limit, MeterUnavailable, None)
        case ReadFails => LatchCost(e, limit, MeterError, None)
        case Reads(cost) =>
          if !ValidCost(cost) then LatchCost(e, limit, MeterError, None)
          else if cost.unit != limit.unit then LatchCost(e, limit, UnitMismatch, Some(cost))
          else if cost.currency != limit.currency then LatchCost(e, limit, CurrencyMismatch, Some(cost))
          else if e.hostCost.Some? && cost.amount < e.hostCost.value.amount then
            LatchCost(e.(hostCost := None), limit, NonMonotonic, Some(cost))
          else e.(hostCost := Some(cost))
  }

  function TokensUnavailable(d: Dimension, reason: UnavailableReason): Unavailable {
    Unavailable(d, reason, Some("tokens"), None, None, None)
  }

  function TotalIncrement(u: TokenUsage): Option<nat> {
    if u.source.SourceMissing? then None else u.total
  }

  function UncachedIncrement(u: TokenUsage): Option<nat> {
    if u.cacheReported then u.uncached else None
  }

  /** A token counter and its new latch, after one report. */
  function AddTokens(current: Option<nat>, increment: Option<nat>): (Option<nat>, Option<UnavailableReason>) {
    if increment.None? then (None, Some(UsageMissing))
    else if current.None? then (None, None)
    else if current.value + increment.value <= MAX_WIRE_INTEGER then (Some(current.value + increment.value), None)
    else (None, Some(IntegerOverflow))
  }

  function LatchTokens(e: Evaluator, d: Dimension, reason: Option<UnavailableReason>): Evaluator {
    if reason.Some? then Latch(e, TokensUnavailable(d, reason.value)) else e
  }

  function ObserveTokens(e: Evaluator, u: TokenUsage): Evaluator {
    var (total, totalLatch) := AddTokens(e.totalTokens, TotalIncrement(u));
    var (uncached, uncachedLatch) := AddTokens(e.uncachedInputTokens, UncachedIncrement(u));
    LatchTokens(LatchTokens(e.(totalTokens := total, uncachedInputTokens := uncached), TotalTokens, totalLatch),
                UncachedInputTokens, uncachedLatch)
  }

  function ObserveBoundary(e: Evaluator, nowNs: nat, reading: Reading): Evaluator {
    ObserveHostCost(ObserveElapsed(e, nowNs), reading)
  }

  // ---- Checks ------------------------------------------------------------------------------

  function LimitOf(l: Limits, d: Dimension): Option<nat> {
    match d
    case TotalTokens => l.maxTotalTokens
    case UncachedInputTokens => l.maxUncachedInputTokens
    case ToolCalls => l.maxToolCalls
    case WallTime => l.maxWallTimeMs
    case HostCostSpent => if l.maxHostCost.Some? then Some(l.maxHostCost.value.amount) else None
    case ToolCallsByName => None
  }

  function UnitOf(l: Limits, d: Dimension): string {
    match d
    case TotalTokens => "tokens"
    case UncachedInputTokens => "tokens"
    case ToolCalls => "calls"
    case ToolCallsByName => "calls"
    case WallTime => "milliseconds"
    case HostCostSpent => if l.maxHostCost.Some? then l.maxHostCost.value.unit else ""
  }

  function CurrencyOf(l: Limits, d: Dimension): Option<string> {
    if d.HostCostSpent? && l.maxHostCost.Some? then l.maxHostCost.value.currency else None
  }

  function ObservedOf(e: Evaluator, d: Dimension): Option<nat> {
    match d
    case TotalTokens => e.totalTokens
    case UncachedInputTokens => e.uncachedInputTokens
    case ToolCalls => Some(e.toolCalls)
    case WallTime => Some(e.elapsedMs)
    case HostCostSpent => if e.hostCost.Some? then Some(e.hostCost.value.amount) else None
    case ToolCallsByName => None
  }

  /** The three scans over the precedence list. */
  datatype Check = Strict | Admission(scope: set<Dimension>) | Exceeded(scope: set<Dimension>)

  /** What a scan reports at one dimension. */
  function Offence(e: Evaluator, b: Boundary, c: Check, d: Dimension): Option<Exhaustion> {
    var limit, observed := LimitOf(e.limits, d), ObservedOf(e, d);
    var unit, currency := UnitOf(e.limits, d), CurrencyOf(e.limits, d);
    match c
    case Strict =>
      if d !in e.unavailable || limit.None? then None
      else Some(Exhaustion(d, None, MetricUnavailable, limit.value, None, None, None, unit, currency, b,
                           Some(e.unavailable[d].reason)))
    case Admission(scope) =>
      if d !in scope || d in e.unavailable || limit.None? || observed.None? || observed.value < limit.value then None
      else Some(Exhaustion(d, None, LimitReached, limit.value, observed, None, Some(observed.value - limit.value), unit, currency, b, None))
    case Exceeded(scope) =>
      if d !in scope || d in e.unavailable || limit.None? || observed.None? || observed.value <= limit.value then None
      else Some(Exhaustion(d, None, LimitExceeded, limit.value, observed, None, Some(observed.value - limit.value), unit, currency, b, None))
  }

  /** `DIMENSION_PRECEDENCE.iter().find_map(..)`, from position `i` on. */
  function FindFrom(e: Evaluator, b: Boundary, c: Check, i: nat): Option<Exhaustion>
    requires i <= |PRECEDENCE|
    decreases |PRECEDENCE| - i
  {
    if i == |PRECEDENCE| then None
    else
      var here := Offence(e, b, c, PRECEDENCE[i]);
      if here.Some? then here else FindFrom(e, b, c, i + 1)
  }

  /** `strict_unavailable`, and then the limits in scope. */
  function Verdict(e: Evaluator, b: Boundary, c: Check): Option<Exhaustion> {
    var strict := if e.limits.policy.Stop? then FindFrom(e, b, Strict, 0) else None;
    if strict.Some? then strict else FindFrom(e, b, c, 0)
  }

  const TIME_AND_COST: set<Dimension> := {WallTime, HostCostSpent}

  const MODEL_SCOPE: set<Dimension> := {WallTime, TotalTokens, UncachedInputTokens, HostCostSpent}

  const EVERY_DIMENSION: set<Dimension> := {WallTime, TotalTokens, UncachedInputTokens, HostCostSpent, ToolCalls, ToolCallsByName}

  // ---- Tool batches ---------------------------------------------------------------------------

  /** A Rust `Vec` never holds more than `isize::MAX` elements. */
  type ToolBatch = names: seq<string> | |names| <= I64_MAX

  function CountOf(m: map<string, nat>, name: string): nat {
    if name in m then m[name] else 0
  }

  function BatchByName(names: seq<string>): map<string, nat> {
    map name | name in names :: multiset(names)[name]
  }

  function ProjectedFor(e: Evaluator, names: ToolBatch, name: string): nat {
    SaturatingAdd(CountOf(e.toolCallsByName, name), multiset(names)[name])
  }

  /** The named limits that this batch would pass. */
  function OverLimit(e: Evaluator, names: ToolBatch): set<string> {
    set name | name in e.limits.maxToolCallsByName && name in names && ProjectedFor(e, names, name) > e.limits.maxToolCallsByName[name]
  }

  function CountExhaustion(d: Dimension, toolName: Option<string>, limit: nat, observed: nat, increment: nat): Exhaustion {
    var sum := SaturatingAdd(observed, increment);
    Exhaustion(d, toolName, LimitReached, limit, Some(observed), Some(increment),
               Some(if sum > limit then sum - limit else 0), "calls", None, AtToolBatchPreflight, None)
  }

  ghost function LeastOver(over: set<string>): (m: string)
    requires over != {}
    ensures LexOrder.IsLeast(over, m)
  {
    LexOrder.LeastExists(over);
    var m :| LexOrder.IsLeast(over, m);
    m
  }

  function AddCounts(m: map<string, nat>, batch: map<string, nat>): map<string, nat> {
    map name | name in m.Keys + batch.Keys ::
      if name in batch then SaturatingAdd(CountOf(m, name), batch[name]) else CountOf(m, name)
  }

  lemma AddOneCount(m: map<string, nat>, done: map<string, nat>, name: string, count: nat)
    requires name !in done
    ensures AddCounts(m, map[]) == m
    ensures var sum := AddCounts(m, done);
            sum[name := SaturatingAdd(CountOf(sum, name), count)] == AddCounts(m, done[name := count])
  {
  }

  // ---- Boundaries --------------------------------------------------------------------------------

  function RunStart(e: Evaluator, now: nat, r: Reading): (Evaluator, Option<Exhaustion>) {
    var o := ObserveBoundary(e, now, r);
    (o, Verdict(o, AtRunStart, Admission(TIME_AND_COST)))
  }

  function ModelCallStart(e: Evaluator, now: nat, r: Reading): (Evaluator, Option<Exhaustion>) {
    var o := ObserveBoundary(e, now, r);
    (o, Verdict(o, AtCycleStart, Admission(MODEL_SCOPE)))
  }

  function CycleStart(e: Evaluator, now: nat, r: Reading): (Evaluator, Option<Exhaustion>) {
    var (o, x) := ModelCallStart(e, now, r);
    (if x.None? then o.(cycles := SaturatingAdd(o.cycles, 1)) else o, x)
  }

  function ModelCallComplete(e: Evaluator, u: TokenUsage, now: nat, r: Reading): (Evaluator, Option<Exhaustion>) {
    var o := ObserveBoundary(ObserveTokens(e, u), now, r);
    (o, Verdict(o, AtModelCallComplete, Exceeded(MODEL_SCOPE)))
  }

  ghost function PreflightTools(e: Evaluator, names: ToolBatch, now: nat, r: Reading): (Evaluator, Option<Exhaustion>) {
    var o := ObserveBoundary(e, now, r);
    var x := Verdict(o, AtToolBatchPreflight, Admission(TIME_AND_COST));
    var projected, over := SaturatingAdd(o.toolCalls, |names|), OverLimit(o, names);
    if x.Some? then (o, x)
    else if o.limits.maxToolCalls.Some? && projected > o.limits.maxToolCalls.value then
      (o, Some(CountExhaustion(ToolCalls, None, o.limits.maxToolCalls.value, o.toolCalls, |names|)))
    else if over != {} then
      var n := LeastOver(over);
      (o, Some(CountExhaustion(ToolCallsByName, Some(n), o.limits.maxToolCallsByName[n], CountOf(o.toolCallsByName, n), multiset(names)[n])))
    else (o.(toolCalls := projected, toolCallsByName := AddCounts(o.toolCallsByName, BatchByName(names))), None)
  }

  function ToolBatchComplete(e: Evaluator, failed: bool, now: nat, r: Reading): (Evaluator, Option<Exhaustion>) {
    var o := ObserveBoundary(e, now, r);
    (o, if failed then None else Verdict(o, AtToolBatchComplete, Exceeded(TIME_AND_COST)))
  }

  function Terminal(e: Evaluator, now: nat, r: Reading): (Evaluator, Option<Exhaustion>) {
    var o := ObserveBoundary(e, now, r);
    (o, Verdict(o, AtTerminal, Exceeded(EVERY_DIMENSION)))
  }

  // ---- The evaluator in place -----------------------------------------------------------------------

  class BudgetEvaluator {
    const limits: Limits
    const hasMeter: bool
    const startedNs: nat
    var cycles: nat
    var totalTokens: Option<nat>
    var uncachedInputTokens: Option<nat>
    var toolCalls: nat
    var toolCallsByName: map<string, nat>
    const baseElapsedMs: nat
    var elapsedMs: nat
    var hostCost: Option<HostCost>
    var unavailable: map<Dimension, Unavailable>

    function Value(): Evaluator
      reads this
    {
      Evaluator(limits, hasMeter, startedNs, cycles, totalTokens, uncachedInputTokens, toolCalls, toolCallsByName,
                baseElapsedMs, elapsedMs, hostCost, unavailable)
    }

    constructor (e: Evaluator)
      ensures Value() == e
    {
      limits, hasMeter, startedNs, baseElapsedMs := e.limits, e.hasMeter, e.startedNs, e.baseElapsedMs;
      cycles, totalTokens, uncachedInputTokens := e.cycles, e.totalTokens, e.uncachedInputTokens;
      toolCalls, toolCallsByName := e.toolCalls, e.toolCallsByName;
      elapsedMs, hostCost, unavailable := e.elapsedMs, e.hostCost, e.unavailable;
    }

    method LatchUnavailable(u: Unavailable)
      modifies this`unavailable
      ensures Value() == Latch(old(Value()), u)
    {
      if u.dimension !in unavailable {
        unavailable := unavailable[u.dimension := u];
      }
    }

    method Elapsed(nowNs: nat)
      modifies this`unavailable, this`elapsedMs
      ensures Value() == ObserveElapsed(old(Value()), nowNs)
    {
      if WallTime in unavailable {
        return;
      }
      var delta := if nowNs > startedNs then nowNs - startedNs else 0;
      var elapsed := baseElapsedMs + delta / 1_000_000;
      if elapsed > MAX_WIRE_INTEGER {
        LatchUnavailable(Unavailable(WallTime, IntegerOverflow, Some("milliseconds"), None, None, None));
        return;
      }
      if elapsed > elapsedMs {
        elapsedMs := elapsed;
      }
    }

    method LatchHostCost(limit: HostCost, reason: UnavailableReason, seen: Option<HostCost>)
      modifies this`unavailable
      ensures Value() == LatchCost(old(Value()), limit, reason, seen)
    {
      LatchUnavailable(Unavailable(HostCostSpent, reason, Some(limit.unit),
                                   if seen.Some? then Some(seen.value.unit) else None,
                                   limit.currency,
                                   if seen.Some? then seen.value.currency else None));
    }

    method HostCostReading(reading: Reading)
      modifies this`unavailable, this`hostCost
      ensures Value() == ObserveHostCost(old(Value()), reading)
    {
      if limits.maxHostCost.None? || HostCostSpent in unavailable {
        return;
      }
      var limit := limits.maxHostCost.value;
      if !hasMeter {
        LatchHostCost(limit, MeterMissing, None);
        return;
      }
      match reading
      case ReadsNothing => LatchHostCost(limit, MeterUnavailable, None);
      case ReadFails => LatchHostCost(limit, MeterError, None);
      case Reads(cost) =>
        if !ValidCost(cost) {
          LatchHostCost(limit, MeterError, None);
        } else if cost.unit != limit.unit {
          LatchHostCost(limit, UnitMismatch, Some(cost));
        } else if cost.currency != limit.currency {
          LatchHostCost(limit, CurrencyMismatch, Some(cost));
        } else if hostCost.Some? && cost.amount < hostCost.value.amount {
          hostCost := None;
          LatchHostCost(limit, NonMonotonic, Some(cost));
        } else {
          hostCost := Some(cost);
        }
    }

    method AtBoundary(nowNs: nat, reading: Reading)
      modifies this`unavailable, this`elapsedMs, this`hostCost
      ensures Value() == ObserveBoundary(old(Value()), nowNs, reading)
    {
      Elapsed(nowNs);
      HostCostReading(reading);
    }

    method Tokens(u: TokenUsage)
      modifies this
      ensures Value() == ObserveTokens(old(Value()), u)
    {
      if u.source.SourceMissing? || u.total.None? {
        totalTokens := None;
        LatchUnavailable(TokensUnavailable(TotalTokens, UsageMissing));
      } else if totalTokens.Some? {
        if totalTokens.value + u.total.value <= MAX_WIRE_INTEGER {
          totalTokens := Some(totalTokens.value + u.total.value);
        } else {
          totalTokens := None;
          LatchUnavailable(TokensUnavailable(TotalTokens, IntegerOverflow));
        }
      }
      if u.cacheReported && u.uncached.Some? {
        if uncachedInputTokens.Some? {
          if uncachedInputTokens.value + u.uncached.value <= MAX_WIRE_INTEGER {
            uncachedInputTokens := Some(uncachedInputTokens.value + u.uncached.value);
          } else {
            uncachedInputTokens := None;
            LatchUnavailable(TokensUnavailable(UncachedInputTokens, IntegerOverflow));
          }
        }
      } else {
        uncachedInputTokens := None;
        LatchUnavailable(TokensUnavailable(UncachedInputTokens, UsageMissing));
      }
    }

    method StartRun(now: nat, r: Reading) returns (x: Option<Exhaustion>)
      modifies this
      ensures (Value(), x) == RunStart(old(Value()), now, r)
    {
      AtBoundary(now, r);
      x := Verdict(Value(), AtRunStart, Admission(TIME_AND_COST));
    }

    method StartModelCall(now: nat, r: Reading) returns (x: Option<Exhaustion>)
      modifies this
      ensures (Value(), x) == ModelCallStart(old(Value()), now, r)
    {
      AtBoundary(now, r);
      x := Verdict(Value(), AtCycleStart, Admission(MODEL_SCOPE));
    }

    method StartCycle(now: nat, r: Reading) returns (x: Option<Exhaustion>)
      modifies this
      ensures (Value(), x) == CycleStart(old(Value()), now, r)
    {
      x := StartModelCall(now, r);
      if x.None? {
        cycles := SaturatingAdd(cycles, 1);
      }
    }

    method CompleteModelCall(u: TokenUsage, now: nat, r: Reading) returns (x: Option<Exhaustion>)
      modifies this
      ensures (Value(), x) == ModelCallComplete(old(Value()), u, now, r)
    {
      Tokens(u);
      AtBoundary(now, r);
      x := Verdict(Value(), AtModelCallComplete, Exceeded(MODEL_SCOPE));
    }

    /** Count the names of a batch one by one. */
    static method CountNames(names: ToolBatch) returns (batch: map<string, nat>)
      ensures batch == BatchByName(names)
    {
      batch := map[];
      for i := 0 to |names|
        invariant batch == BatchByName(names[..i])
      {
        assert names[..i + 1] == names[..i] + [names[i]];
        batch := batch[names[i] := CountOf(batch, names[i]) + 1];
      }
      assert names[..|names|] == names;
    }

    /** The first named limit, in key order, that the batch would pass. */
    method FirstOver(names: ToolBatch, batch: map<string, nat>) returns (name: Option<string>)
      requires batch == BatchByName(names)
      ensures if OverLimit(Value(), names) == {} then name.None?
              else name.Some? && LexOrder.IsLeast(OverLimit(Value(), names), name.value)
    {
      var left := limits.maxToolCallsByName.Keys;
      while left != {}
        invariant left <= limits.maxToolCallsByName.Keys
        invariant OverLimit(Value(), names) <= left
        decreases |left|
      {
        var n := LexOrder.Least(left);
        if n in batch && SaturatingAdd(CountOf(toolCallsByName, n), batch[n]) > limits.maxToolCallsByName[n] {
          assert n in OverLimit(Value(), names);
          return Some(n);
        }
        left := left - {n};
      }
      name := None;
    }

    /** Add the counts of an admitted batch to the totals, name by name. */
    method AddNames(batch: map<string, nat>)
      modifies this`toolCallsByName
      ensures toolCallsByName == AddCounts(old(toolCallsByName), batch)
    {
      ghost var before := toolCallsByName;
      ghost var done: map<string, nat> := map[];
      var left := batch.Keys;
      AddOneCount(before, done, "", 0);
      while left != {}
        invariant forall n :: n in left ==> n in batch && n !in done
        invariant forall n :: n in batch ==> n in left || n in done
        invariant forall n :: n in done ==> n in batch && done[n] == batch[n]
        invariant toolCallsByName == AddCounts(before, done)
        decreases left
      {
        var n :| n in left;
        AddOneCount(before, done, n, batch[n]);
        toolCallsByName := toolCallsByName[n := SaturatingAdd(CountOf(toolCallsByName, n), batch[n])];
        left := left - {n};
        done := done[n := batch[n]];
      }
      assert done == batch;
    }

    method Preflight(names: ToolBatch, now: nat, r: Reading) returns (x: Option<Exhaustion>)
      modifies this
      ensures (Value(), x) == PreflightTools(old(Value()), names, now, r)
    {
      AtBoundary(now, r);
      x := Verdict(Value(), AtToolBatchPreflight, Admission(TIME_AND_COST));
      if x.Some? {
        return;
      }
      var increment := |names|;
      if limits.maxToolCalls.Some? && SaturatingAdd(toolCalls, increment) > limits.maxToolCalls.value {
        return Some(CountExhaustion(ToolCalls, None, limits.maxToolCalls.value, toolCalls, increment));
      }
      var batch := CountNames(names);
      var over := FirstOver(names, batch);
      if over.Some? {
        var n := over.value;
        LexOrder.LeastIsUnique(OverLimit(Value(), names), n, LeastOver(OverLimit(Value(), names)));
        return Some(CountExhaustion(ToolCallsByName, over, limits.maxToolCallsByName[n], CountOf(toolCallsByName, n), batch[n]));
      }
      toolCalls := SaturatingAdd(toolCalls, increment);
      AddNames(batch);
    }

    method CompleteToolBatch(failed: bool, now: nat, r: Reading) returns (x: Option<Exhaustion>)
      modifies this
      ensures (Value(), x) == ToolBatchComplete(old(Value()), failed, now, r)
    {
      AtBoundary(now, r);
      if failed {
        return None;
      }
      x := Verdict(Value(), AtToolBatchComplete, Exceeded(TIME_AND_COST));
    }

    method Finish(now: nat, r: Reading) returns (x: Option<Exhaustion>)
      modifies this
      ensures (Value(), x) == Terminal(old(Value()), now, r)
    {
      AtBoundary(now, r);
      x := Verdict(Value(), AtTerminal, Exceeded(EVERY_DIMENSION));
    }
  }
}

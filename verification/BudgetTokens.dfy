/** Token accounting over whole runs (budget.rs): exact sums, latches, and how far a limit can be overshot. */
module BudgetTokens {
  import opened Common
  import opened Budget
  import opened BudgetRuns

  type TokenDimension = d: Dimension | d.TotalTokens? || d.UncachedInputTokens? witness TotalTokens

  function Counter(e: Evaluator, d: TokenDimension): Option<nat> {
    if d.TotalTokens? then e.totalTokens else e.uncachedInputTokens
  }

  /** What a report adds: its total unless the source is missing, its uncached input only if the provider reported it. */
  function Increment(u: TokenUsage, d: TokenDimension): Option<nat> {
    if d.TotalTokens? && (u.source.ProviderReported? || u.source.Estimated?) then u.total
    else if d.UncachedInputTokens? && u.cacheReported then u.uncached
    else None
  }

  /** The token reports of the completed model calls; None where the report is missing. */
  function Reports(evs: seq<Event>, d: TokenDimension): seq<Option<nat>> {
    if evs == [] then []
    else Reports(evs[..|evs| - 1], d) +
         if evs[|evs| - 1].call.OnModelCallComplete? then [Increment(evs[|evs| - 1].call.usage, d)] else []
  }

  function SumOf(reports: seq<Option<nat>>): nat {
    if reports == [] then 0
    else SumOf(reports[..|reports| - 1]) + if reports[|reports| - 1].Some? then reports[|reports| - 1].value else 0
  }

  /** The first thing that goes wrong: a missing report, or a partial sum past the wire limit. */
  function FirstFault(start: nat, reports: seq<Option<nat>>): Option<UnavailableReason> {
    if reports == [] then None
    else
      var earlier := FirstFault(start, reports[..|reports| - 1]);
      if earlier.Some? then earlier
      else if reports[|reports| - 1].None? then Some(UsageMissing)
      else if start + SumOf(reports) > MAX_WIRE_INTEGER then Some(IntegerOverflow)
      else None
  }

  /** Nothing goes wrong exactly when every report is present and the whole sum fits. */
  lemma {:induction false} NoFaultIff(start: nat, reports: seq<Option<nat>>)
    requires start <= MAX_WIRE_INTEGER
    ensures FirstFault(start, reports).None? <==>
            (forall i :: 0 <= i < |reports| ==> reports[i].Some?) && start + SumOf(reports) <= MAX_WIRE_INTEGER
  {
    if reports != [] {
      var n := |reports| - 1;
      NoFaultIff(start, reports[..n]);
      assert forall i :: 0 <= i < n ==> reports[..n][i] == reports[i];
    }
  }

  lemma LatchTokensOne(e: Evaluator, d: Dimension, reason: Option<UnavailableReason>, d': Dimension)
    ensures var o := LatchTokens(e, d, reason);
            && o == e.(unavailable := o.unavailable)
            && (d' in o.unavailable <==> d' in e.unavailable || (d' == d && reason.Some?))
            && (d' in e.unavailable ==> o.unavailable[d'] == e.unavailable[d'])
            && (d' !in e.unavailable && d' in o.unavailable ==> o.unavailable[d'].reason == reason.value)
  {
  }

  /** What a report does to one of the two counters. */
  lemma ReportTokens(e: Evaluator, u: TokenUsage, d: TokenDimension)
    ensures var o := ObserveTokens(e, u);
            var (c, fault) := AddTokens(Counter(e, d), Increment(u, d));
            && Counter(o, d) == c
            && (d in o.unavailable <==> d in e.unavailable || fault.Some?)
            && (d in e.unavailable ==> o.unavailable[d] == e.unavailable[d])
            && (d !in e.unavailable && fault.Some? ==> o.unavailable[d].reason == fault.value)
  {
    hide LatchTokens, AddTokens;
    var (total, totalLatch) := AddTokens(e.totalTokens, TotalIncrement(u));
    var (uncached, uncachedLatch) := AddTokens(e.uncachedInputTokens, UncachedIncrement(u));
    var t := e.(totalTokens := total, uncachedInputTokens := uncached);
    LatchTokensOne(t, TotalTokens, totalLatch, d);
    LatchTokensOne(LatchTokens(t, TotalTokens, totalLatch), UncachedInputTokens, uncachedLatch, d);
  }

  lemma StepTokens(e: Evaluator, ev: Event, d: TokenDimension)
    ensures var e' := Step(e, ev).0;
            if ev.call.OnModelCallComplete? then
              var (c, fault) := AddTokens(Counter(e, d), Increment(ev.call.usage, d));
              && Counter(e', d) == c
              && (d in e'.unavailable <==> d in e.unavailable || fault.Some?)
              && (d !in e.unavailable && fault.Some? ==> e'.unavailable[d].reason == fault.value)
            else Counter(e', d) == Counter(e, d) && (d in e'.unavailable <==> d in e.unavailable)
    ensures d in e.unavailable ==> d in Step(e, ev).0.unavailable && Step(e, ev).0.unavailable[d] == e.unavailable[d]
  {
    hide Step, ObserveBoundary, ObserveTokens, AddTokens, Increment;
    StepShape(e, ev);
    if ev.call.OnModelCallComplete? {
      ReportTokens(e, ev.call.usage, d);
      BoundaryEffect(ObserveTokens(e, ev.call.usage), ev.now, ev.reading);
    } else {
      BoundaryEffect(e, ev.now, ev.reading);
    }
  }

  lemma FoldOne(start: nat, reports: seq<Option<nat>>, r: Option<nat>)
    ensures SumOf(reports + [r]) == SumOf(reports) + if r.Some? then r.value else 0
    ensures FirstFault(start, reports + [r]) ==
            if FirstFault(start, reports).Some? then FirstFault(start, reports)
            else if r.None? then Some(UsageMissing)
            else if start + SumOf(reports) + r.value > MAX_WIRE_INTEGER then Some(IntegerOverflow)
            else None
  {
    var all := reports + [r];
    assert all[..|all| - 1] == reports;
  }

  /** The counter and latch of a dimension are those of these reports. */
  ghost predicate TokensAre(e: Evaluator, d: TokenDimension, start: nat, reports: seq<Option<nat>>) {
    var fault := FirstFault(start, reports);
    if fault.None? then Counter(e, d) == Some(start + SumOf(reports)) && d !in e.unavailable
    else Counter(e, d).None? && d in e.unavailable && e.unavailable[d].reason == fault.value
  }

  lemma StepTokensAre(e: Evaluator, ev: Event, d: TokenDimension, start: nat, reports: seq<Option<nat>>)
    requires TokensAre(e, d, start, reports)
    ensures TokensAre(Step(e, ev).0, d, start,
                      reports + if ev.call.OnModelCallComplete? then [Increment(ev.call.usage, d)] else [])
  {
    hide Step;
    StepTokens(e, ev, d);
    if ev.call.OnModelCallComplete? {
      FoldOne(start, reports, Increment(ev.call.usage, d));
    } else {
      assert reports + [] == reports;
    }
  }

  /**
   A token counter is the exact sum of the reports until one is missing or a partial
   sum passes the wire limit; from then on it is unknown, and latched for that reason.
   */
  lemma {:induction false} TokensAreAFold(e: Evaluator, evs: seq<Event>, d: TokenDimension, start: nat)
    requires Counter(e, d) == Some(start) && start <= MAX_WIRE_INTEGER && d !in e.unavailable
    ensures TokensAre(Run(e, evs), d, start, Reports(evs, d))
  {
    hide Step;
    if evs != [] {
      var earlier, ev := evs[..|evs| - 1], evs[|evs| - 1];
      TokensAreAFold(e, earlier, d, start);
      StepTokensAre(Run(e, earlier), ev, d, start, Reports(earlier, d));
    }
  }

  // ---- Overshoot --------------------------------------------------------------------------

  /** A model call was admitted and has not completed yet. */
  ghost predicate Armed(e: Evaluator, evs: seq<Event>) {
    if evs == [] then false
    else
      var call := evs[|evs| - 1].call;
      if call.OnModelCallComplete? then false
      else ((call.OnCycleStart? || call.OnModelCallStart?) && Answer(e, evs).None?) || Armed(e, evs[..|evs| - 1])
  }

  /** Each completed model call follows its own admitted start. */
  ghost predicate Disciplined(e: Evaluator, evs: seq<Event>) {
    evs == [] ||
    (&& Disciplined(e, evs[..|evs| - 1])
     && (evs[|evs| - 1].call.OnModelCallComplete? ==> Armed(e, evs[..|evs| - 1])))
  }

  /** An admitted model call finds every available token counter below its limit. */
  lemma AdmissionMeansBelow(e: Evaluator, ev: Event, d: TokenDimension)
    requires ev.call.OnCycleStart? || ev.call.OnModelCallStart?
    requires Step(e, ev).1.None? && d !in Step(e, ev).0.unavailable
    requires LimitOf(e.limits, d).Some? && Counter(Step(e, ev).0, d).Some?
    ensures Counter(Step(e, ev).0, d).value < LimitOf(e.limits, d).value
  {
    StepJudgesObserved(e, ev);
    TokensThenBoundary(e, ev);
    var o := Observed(e, ev);
    var (b, c) := CheckOf(ev.call);
    ScanFinds(o, b, c, d);
    assert d in MODEL_SCOPE;
    assert ObservedOf(o, d) == Counter(o, d) == Counter(Step(e, ev).0, d);
    assert Offence(o, b, c, d).None?;
  }

  /**
   While a token total stays available and every completed call had its own admitted
   start, the recorded total is below the limit plus the size of the last call.
   */
  lemma {:induction false} OvershootIsBounded(e: Evaluator, evs: seq<Event>, d: TokenDimension)
    requires LimitOf(e.limits, d).Some? && Disciplined(e, evs)
    ensures var s, limit, reports := Run(e, evs), LimitOf(e.limits, d).value, Reports(evs, d);
            d !in s.unavailable && Counter(s, d).Some? ==>
              && (Armed(e, evs) ==> Counter(s, d).value < limit)
              && (reports != [] ==> reports[|reports| - 1].Some? && Counter(s, d).value < limit + reports[|reports| - 1].value)
  {
    hide Step;
    if evs != [] {
      var earlier, ev := evs[..|evs| - 1], evs[|evs| - 1];
      var p, s := Run(e, earlier), Run(e, evs);
      OvershootIsBounded(e, earlier, d);
      RunLatches(e, earlier);
      StepTokens(p, ev, d);
      if d !in s.unavailable && Counter(s, d).Some? {
        assert d !in p.unavailable && Counter(p, d).Some?;
        if (ev.call.OnCycleStart? || ev.call.OnModelCallStart?) && Answer(e, evs).None? {
          AdmissionMeansBelow(p, ev, d);
        }
      }
    }
  }
}

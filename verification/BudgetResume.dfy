/** Snapshots and resumed runs (budget.rs). */
module BudgetResume {
  import opened Common
  import opened Budget
  import opened BudgetRuns
  import opened BudgetVerdicts

  /** Sorted by precedence, one observation per dimension. */
  predicate Ranked(us: seq<Unavailable>) {
    forall i, j :: 0 <= i < j < |us| ==> Rank(us[i].dimension) < Rank(us[j].dimension)
  }

  predicate WellKeyed(m: map<Dimension, Unavailable>) {
    forall d :: d in m ==> m[d].dimension == d
  }

  /** The entries of rank `i` and later. */
  function From(m: map<Dimension, Unavailable>, i: nat): map<Dimension, Unavailable> {
    map d | d in m && Rank(d) >= i :: m[d]
  }

  /** The snapshot lists the latches sorted by precedence. */
  lemma {:induction false} SnapshotIsRanked(m: map<Dimension, Unavailable>, i: nat)
    requires WellKeyed(m) && i <= |PRECEDENCE|
    ensures Ranked(InPrecedence(m, i))
    ensures forall k :: 0 <= k < |InPrecedence(m, i)| ==>
              var u := InPrecedence(m, i)[k]; Rank(u.dimension) >= i && u.dimension in m && m[u.dimension] == u
    decreases |PRECEDENCE| - i
  {
    hide Ranked, Rank, InPrecedence;
    ListStep(m, i);
    if i < |PRECEDENCE| {
      SnapshotIsRanked(m, i + 1);
      RankIsPosition(PRECEDENCE[i]);
      var rest := InPrecedence(m, i + 1);
      if PRECEDENCE[i] in m {
        RankedCons(m[PRECEDENCE[i]], rest);
        ListedCons(m, m[PRECEDENCE[i]], rest, i);
      }
    }
  }

  lemma ListStep(m: map<Dimension, Unavailable>, i: nat)
    requires i <= |PRECEDENCE|
    ensures i == |PRECEDENCE| ==> InPrecedence(m, i) == [] && Ranked(InPrecedence(m, i))
    ensures i < |PRECEDENCE| ==>
              var d, rest := PRECEDENCE[i], InPrecedence(m, i + 1);
              InPrecedence(m, i) == if d in m then [m[d]] + rest else rest
  {
    hide Rank;
    if i < |PRECEDENCE| {
      var rest := InPrecedence(m, i + 1);
      assert [] + rest == rest;
    }
  }

  lemma ListedCons(m: map<Dimension, Unavailable>, u: Unavailable, us: seq<Unavailable>, i: nat)
    requires u.dimension in m && m[u.dimension] == u && Rank(u.dimension) == i
    requires forall k :: 0 <= k < |us| ==> Rank(us[k].dimension) >= i + 1 && us[k].dimension in m && m[us[k].dimension] == us[k]
    ensures var all := [u] + us;
            forall k :: 0 <= k < |all| ==> Rank(all[k].dimension) >= i && all[k].dimension in m && m[all[k].dimension] == all[k]
  {
    hide Rank;
    var all := [u] + us;
    forall k | 0 <= k < |all| ensures Rank(all[k].dimension) >= i && all[k].dimension in m && m[all[k].dimension] == all[k] {
      if k > 0 { assert all[k] == us[k - 1]; }
    }
  }

  lemma RankedCons(u: Unavailable, us: seq<Unavailable>)
    requires Ranked(us) && forall k :: 0 <= k < |us| ==> Rank(u.dimension) < Rank(us[k].dimension)
    ensures Ranked([u] + us)
  {
    hide Rank;
    var all := [u] + us;
    assert forall k :: 1 <= k < |all| ==> all[k] == us[k - 1];
  }

  /** Collecting the listed latches gives the map back. */
  lemma {:induction false} SnapshotCollects(m: map<Dimension, Unavailable>, i: nat)
    requires WellKeyed(m) && i <= |PRECEDENCE|
    ensures ByDimension(InPrecedence(m, i)) == From(m, i)
    decreases |PRECEDENCE| - i
  {
    hide ByDimension, From;
    if i == |PRECEDENCE| {
      NothingFromTheEnd(m);
    } else {
      SnapshotCollects(m, i + 1);
      FromStep(m, i);
      CollectStep(m, i);
    }
  }

  lemma NothingFromTheEnd(m: map<Dimension, Unavailable>)
    ensures From(m, |PRECEDENCE|) == map[] == ByDimension([])
  {
    forall d | d in m ensures Rank(d) < |PRECEDENCE| { RankIsPosition(d); }
  }

  lemma CollectStep(m: map<Dimension, Unavailable>, i: nat)
    requires WellKeyed(m) && i < |PRECEDENCE|
    ensures var d := PRECEDENCE[i];
            ByDimension(InPrecedence(m, i)) == (if d in m then map[d := m[d]] else map[]) + ByDimension(InPrecedence(m, i + 1))
  {
    hide ByDimension;
    var d, rest := PRECEDENCE[i], InPrecedence(m, i + 1);
    if d in m {
      CollectCons(m[d], rest);
    } else {
      assert [] + rest == rest;
    }
  }

  lemma CollectCons(u: Unavailable, us: seq<Unavailable>)
    ensures ByDimension([u] + us) == map[u.dimension := u] + ByDimension(us)
  {
    assert ([u] + us)[1..] == us;
  }

  lemma FromStep(m: map<Dimension, Unavailable>, i: nat)
    requires i < |PRECEDENCE|
    ensures var d := PRECEDENCE[i];
            From(m, i) == (if d in m then map[d := m[d]] else map[]) + From(m, i + 1)
  {
    var d := PRECEDENCE[i];
    RankIsPosition(d);
    forall c | c in m && Rank(c) == i ensures c == d { RankIsPosition(c); }
  }

  /** A latch below rank `i` does not show in the list from `i` on. */
  lemma {:induction false} EarlierLatchIsSkipped(u: Unavailable, m: map<Dimension, Unavailable>, i: nat)
    requires i <= |PRECEDENCE| && Rank(u.dimension) < i
    ensures InPrecedence(map[u.dimension := u] + m, i) == InPrecedence(m, i)
    decreases |PRECEDENCE| - i
  {
    if i < |PRECEDENCE| {
      RankIsPosition(PRECEDENCE[i]);
      EarlierLatchIsSkipped(u, m, i + 1);
    }
  }

  lemma {:induction false} CollectedKeys(us: seq<Unavailable>, d: Dimension)
    ensures d in ByDimension(us) <==> exists k :: 0 <= k < |us| && us[k].dimension == d
    ensures d in ByDimension(us) ==> ByDimension(us)[d].dimension == d && ByDimension(us)[d] in us
  {
    if us != [] {
      CollectedKeys(us[1..], d);
      if k :| 0 <= k < |us| && us[k].dimension == d && k > 0 {
        assert us[1..][k - 1].dimension == d;
      }
    }
  }

  /** A list already sorted by precedence is listed back unchanged. */
  lemma {:induction false} RankedIsListedBack(us: seq<Unavailable>, i: nat)
    requires Ranked(us) && i <= |PRECEDENCE|
    requires us != [] ==> Rank(us[0].dimension) >= i
    ensures InPrecedence(ByDimension(us), i) == us
    decreases |PRECEDENCE| - i
  {
    if us != [] { RankIsPosition(us[0].dimension); }
    if i < |PRECEDENCE| {
      RankIsPosition(PRECEDENCE[i]);
      if us != [] && Rank(us[0].dimension) == i {
        RankedIsListedBack(us[1..], i + 1);
        HeadIsListed(us, i);
      } else {
        RankedIsListedBack(us, i + 1);
        AbsentIsSkipped(us, i);
      }
    }
  }

  lemma AbsentIsSkipped(us: seq<Unavailable>, i: nat)
    requires Ranked(us) && i < |PRECEDENCE| && (us != [] ==> Rank(us[0].dimension) > i)
    ensures InPrecedence(ByDimension(us), i) == InPrecedence(ByDimension(us), i + 1)
  {
    hide ByDimension;
    RankIsPosition(PRECEDENCE[i]);
    CollectedKeys(us, PRECEDENCE[i]);
    assert forall k :: 0 < k < |us| ==> Rank(us[0].dimension) < Rank(us[k].dimension);
    var rest := InPrecedence(ByDimension(us), i + 1);
    assert [] + rest == rest;
  }

  lemma HeadIsListed(us: seq<Unavailable>, i: nat)
    requires Ranked(us) && us != [] && i < |PRECEDENCE| && us[0].dimension == PRECEDENCE[i] && Rank(us[0].dimension) == i
    requires InPrecedence(ByDimension(us[1..]), i + 1) == us[1..]
    ensures InPrecedence(ByDimension(us), i) == us
  {
    hide Ranked, Rank;
    var u, m := us[0], ByDimension(us);
    EarlierLatchIsSkipped(u, ByDimension(us[1..]), i + 1);
    HeadLatched(us);
    assert InPrecedence(m, i) == [u] + InPrecedence(m, i + 1);
    assert us == [u] + us[1..];
  }

  lemma HeadLatched(us: seq<Unavailable>)
    requires Ranked(us) && us != []
    ensures us[0].dimension in ByDimension(us) && ByDimension(us)[us[0].dimension] == us[0]
  {
    hide Rank;
    var d := us[0].dimension;
    CollectedKeys(us[1..], d);
    assert forall k :: 0 <= k < |us[1..]| ==> us[1..][k] == us[k + 1];
  }

  lemma RankedIsDistinct(us: seq<Unavailable>)
    requires Ranked(us)
    ensures DistinctDimensions(us)
  {
    forall i, j | 0 <= i < j < |us| ensures us[i].dimension != us[j].dimension {
      assert Rank(us[i].dimension) < Rank(us[j].dimension);
    }
  }

  function Resumed(e: Evaluator, nowNs: nat): Evaluator {
    e.(startedNs := nowNs, baseElapsedMs := e.elapsedMs)
  }

  /**
   Resuming from a snapshot rebuilds every field of the evaluator except the clock
   origin, and the snapshot of the resumed evaluator is the same snapshot.
   */
  lemma ResumeRestores(e: Evaluator, nowNs: nat)
    requires ValidLimits(e.limits) && HasLimits(e.limits) && WellKeyed(e.unavailable) && ValidUsage(Snapshot(e))
    ensures WithClock(e.limits, e.hasMeter, Some(Snapshot(e)), nowNs) == Ok(Resumed(e, nowNs))
    ensures Snapshot(Resumed(e, nowNs)) == Snapshot(e)
  {
    hide ValidUsage, ValidLimits, HasLimits;
    SnapshotCollects(e.unavailable, 0);
    assert From(e.unavailable, 0) == e.unavailable;
  }

  /**
   Any valid usage can be resumed; the next snapshot carries the same observations
   sorted by precedence, so it is the same usage exactly when that was already sorted.
   */
  lemma SnapshotAfterResume(limits: Limits, hasMeter: bool, u: Usage, nowNs: nat)
    requires ValidLimits(limits) && HasLimits(limits) && ValidUsage(u)
    ensures WithClock(limits, hasMeter, Some(u), nowNs).Ok?
    ensures var again := Snapshot(WithClock(limits, hasMeter, Some(u), nowNs).value);
            && again == u.(unavailable := again.unavailable)
            && Ranked(again.unavailable) && ByDimension(again.unavailable) == ByDimension(u.unavailable)
            && (again == u <==> Ranked(u.unavailable))
  {
    hide ValidUsage, ValidLimits, HasLimits;
    var m := ByDimension(u.unavailable);
    forall d | d in m ensures m[d].dimension == d { CollectedKeys(u.unavailable, d); }
    SnapshotIsRanked(m, 0);
    SnapshotCollects(m, 0);
    assert From(m, 0) == m;
    if Ranked(u.unavailable) {
      RankedIsListedBack(u.unavailable, 0);
    }
  }

  /** An evaluator is made exactly from valid limits, at least one of them, and valid usage; no usage means none so far. */
  lemma WithClockIff(limits: Limits, hasMeter: bool, initial: Option<Usage>, nowNs: nat)
    ensures WithClock(limits, hasMeter, initial, nowNs).Ok? <==>
            ValidLimits(limits) && HasLimits(limits) && (initial.Some? ==> ValidUsage(initial.value))
    ensures HasLimits(limits) <==> limits.(policy := Stop) != Limits(None, None, None, map[], None, None, Stop)
    ensures var r := WithClock(limits, hasMeter, None, nowNs);
            r.Ok? ==> r.value == Evaluator(limits, hasMeter, nowNs, 0, Some(0), Some(0), 0, map[], 0, 0, None, map[])
  {
  }

  function Missing(d: Dimension): Unavailable {
    Unavailable(d, UsageMissing, None, None, None, None)
  }

  /** A valid usage that lists tokens before time comes back reordered. */
  lemma UnrankedUsageIsReordered(limits: Limits, hasMeter: bool, nowNs: nat)
    requires ValidLimits(limits) && HasLimits(limits)
    ensures var u := DEFAULT_USAGE.(unavailable := [Missing(TotalTokens), Missing(WallTime)]);
            && ValidUsage(u) && WithClock(limits, hasMeter, Some(u), nowNs).Ok?
            && Snapshot(WithClock(limits, hasMeter, Some(u), nowNs).value) != u
  {
    var u := DEFAULT_USAGE.(unavailable := [Missing(TotalTokens), Missing(WallTime)]);
    assert ValidUsage(u);
    assert Rank(u.unavailable[0].dimension) > Rank(u.unavailable[1].dimension);
    hide ValidUsage, Rank, WithClock, Snapshot;
    SnapshotAfterResume(limits, hasMeter, u, nowNs);
  }

  // ---- When is the snapshot of a run valid? ------------------------------------------------

  predicate WellFormed(e: Evaluator) {
    && ValidLimits(e.limits) && WellKeyed(e.unavailable)
    && (forall d :: d in e.unavailable ==> ValidUnavailable(e.unavailable[d]))
    && OptionalWireInteger(e.totalTokens) && OptionalWireInteger(e.uncachedInputTokens) && WireInteger(e.elapsedMs)
    && (e.hostCost.Some? ==> ValidCost(e.hostCost.value))
  }

  lemma LatchKeepsWellFormed(e: Evaluator, u: Unavailable)
    requires WellFormed(e) && ValidUnavailable(u)
    ensures WellFormed(Latch(e, u))
  {
  }

  lemma UnitsAreText()
    ensures NonBlank("tokens") && NonBlank("milliseconds")
  {
    assert !IsWhitespace("tokens"[0]) && !IsWhitespace("milliseconds"[0]);
  }

  lemma BoundaryKeepsWellFormed(e: Evaluator, now: nat, r: Reading)
    requires WellFormed(e)
    ensures WellFormed(ObserveBoundary(e, now, r))
  {
    UnitsAreText();
    var t := ObserveElapsed(e, now);
    LatchKeepsWellFormed(e, Unavailable(WallTime, IntegerOverflow, Some("milliseconds"), None, None, None));
    assert WellFormed(t);
    CostKeepsWellFormed(t, r);
  }

  lemma LatchCostKeepsWellFormed(e: Evaluator, limit: HostCost, reason: UnavailableReason, seen: Option<HostCost>)
    requires WellFormed(e) && ValidCost(limit) && (seen.Some? ==> ValidCost(seen.value))
    ensures WellFormed(LatchCost(e, limit, reason, seen))
  {
    LatchKeepsWellFormed(e, Unavailable(HostCostSpent, reason, Some(limit.unit),
                                        if seen.Some? then Some(seen.value.unit) else None,
                                        limit.currency,
                                        if seen.Some? then seen.value.currency else None));
  }

  lemma CostKeepsWellFormed(e: Evaluator, r: Reading)
    requires WellFormed(e)
    ensures WellFormed(ObserveHostCost(e, r))
  {
    hide LatchCost;
    if e.limits.maxHostCost.Some? {
      var limit := e.limits.maxHostCost.value;
      LatchCostKeepsWellFormed(e, limit, MeterMissing, None);
      LatchCostKeepsWellFormed(e, limit, MeterUnavailable, None);
      LatchCostKeepsWellFormed(e, limit, MeterError, None);
      if r.Reads? && ValidCost(r.cost) {
        LatchCostKeepsWellFormed(e, limit, UnitMismatch, Some(r.cost));
        LatchCostKeepsWellFormed(e, limit, CurrencyMismatch, Some(r.cost));
        LatchCostKeepsWellFormed(e.(hostCost := None), limit, NonMonotonic, Some(r.cost));
      }
    }
  }

  lemma TokensKeepWellFormed(e: Evaluator, u: TokenUsage)
    requires WellFormed(e)
    ensures WellFormed(ObserveTokens(e, u))
  {
    UnitsAreText();
    var (total, totalLatch) := AddTokens(e.totalTokens, TotalIncrement(u));
    var (uncached, uncachedLatch) := AddTokens(e.uncachedInputTokens, UncachedIncrement(u));
    var t := e.(totalTokens := total, uncachedInputTokens := uncached);
    if totalLatch.Some? {
      LatchKeepsWellFormed(t, TokensUnavailable(TotalTokens, totalLatch.value));
    }
    if uncachedLatch.Some? {
      LatchKeepsWellFormed(LatchTokens(t, TotalTokens, totalLatch), TokensUnavailable(UncachedInputTokens, uncachedLatch.value));
    }
  }

  lemma {:induction false} RunKeepsWellFormed(e: Evaluator, evs: seq<Event>)
    requires WellFormed(e)
    ensures WellFormed(Run(e, evs))
  {
    hide Step, ObserveBoundary, ObserveTokens;
    if evs != [] {
      var s, ev := Run(e, evs[..|evs| - 1]), evs[|evs| - 1];
      RunKeepsWellFormed(e, evs[..|evs| - 1]);
      StepShape(s, ev);
      BoundaryKeepsWellFormed(s, ev.now, ev.reading);
      if ev.call.OnModelCallComplete? {
        TokensKeepWellFormed(s, ev.call.usage);
        BoundaryKeepsWellFormed(ObserveTokens(s, ev.call.usage), ev.now, ev.reading);
      }
    }
  }

  /**
   A run from default usage can be resumed from its snapshot exactly when its admitted
   cycles and tool calls fit the wire and no admitted tool name was blank.
   */
  lemma SnapshotValidIff(e: Evaluator, evs: seq<Event>)
    requires WellFormed(e) && e.cycles == 0 && e.toolCalls == 0 && e.toolCallsByName == map[]
    ensures ValidUsage(Snapshot(Run(e, evs))) <==>
            && AdmittedCycles(e, evs) <= MAX_WIRE_INTEGER
            && |AdmittedNames(e, evs)| <= MAX_WIRE_INTEGER
            && forall n :: n in AdmittedNames(e, evs) ==> NonBlank(n)
  {
    hide Step, Run, AdmittedNames, AdmittedCycles, InPrecedence;
    RunKeepsWellFormed(e, evs);
    CountersAreAFold(e, evs);
    var s, names := Run(e, evs), AdmittedNames(e, evs);
    SnapshotIsRanked(s.unavailable, 0);
    RankedIsDistinct(InPrecedence(s.unavailable, 0));
    forall n | n in names ensures multiset(names)[n] <= |names| {
      assert |multiset(names)| == |names|;
      assert |multiset(names)[n := 0]| == |multiset(names)| - multiset(names)[n];
    }
  }

  const ONE_TOOL_CALL := Limits(None, None, Some(1), map[], None, None, ContinueAndMark)

  const BLANK_NAME := Event(OnPreflight([""]), 0, ReadsNothing)

  /** A batch of one blank tool name is admitted, and the run can then not be resumed. */
  lemma BlankToolNameCannotBeResumed()
    ensures var r := WithClock(ONE_TOOL_CALL, false, None, 0);
            && r.Ok? && Answer(r.value, [BLANK_NAME]).None?
            && !ValidUsage(Snapshot(Run(r.value, [BLANK_NAME])))
  {
    var e := WithClock(ONE_TOOL_CALL, false, None, 0).value;
    assert [BLANK_NAME][..0] == [] && Run(e, []) == e;
    BlankBatchIsAdmitted(e);
    assert AdmittedNames(e, [BLANK_NAME]) == [] + [""] == [""];
    assert !NonBlank("");
    hide Step, InPrecedence, AdmittedNames;
    SnapshotValidIff(e, [BLANK_NAME]);
    assert "" in AdmittedNames(e, [BLANK_NAME]);
  }

  lemma BlankBatchIsAdmitted(e: Evaluator)
    requires e.limits == ONE_TOOL_CALL && e.toolCalls == 0
    ensures Step(e, BLANK_NAME).1.None?
  {
    var o := ObserveBoundary(e, 0, ReadsNothing);
    BoundaryEffect(e, 0, ReadsNothing);
    ScanFinds(o, AtToolBatchPreflight, Admission(TIME_AND_COST), WallTime);
  }

  // ---- Elapsed time over resumed segments -----------------------------------------------------

  /** One life of the evaluator: when it was created or resumed, and its calls. */
  datatype Segment = Segment(startedNs: nat, events: seq<Event>)

  predicate MonotoneClock(seg: Segment) {
    && (forall i :: 0 <= i < |seg.events| ==> seg.events[i].now >= seg.startedNs)
    && (forall i, j :: 0 <= i < j < |seg.events| ==> seg.events[i].now <= seg.events[j].now)
  }

  /** The time a segment observed between its start and its last call. */
  function ActiveNs(seg: Segment): nat
    requires MonotoneClock(seg)
  {
    if seg.events == [] then 0 else seg.events[|seg.events| - 1].now - seg.startedNs
  }

  lemma StepElapsed(e: Evaluator, ev: Event)
    requires WallTime !in e.unavailable && ElapsedAt(e, ev.now) <= MAX_WIRE_INTEGER
    ensures var e' := Step(e, ev).0;
            && WallTime !in e'.unavailable && e'.startedNs == e.startedNs && e'.baseElapsedMs == e.baseElapsedMs
            && e'.elapsedMs == if ElapsedAt(e, ev.now) > e.elapsedMs then ElapsedAt(e, ev.now) else e.elapsedMs
  {
    hide Step;
    StepShape(e, ev);
    TokensThenBoundary(e, ev);
    if ev.call.OnModelCallComplete? {
      TokensLeaveTime(e, ev.call.usage);
      BoundaryEffect(ObserveTokens(e, ev.call.usage), ev.now, ev.reading);
    } else {
      BoundaryEffect(e, ev.now, ev.reading);
    }
  }

  lemma TokensLeaveTime(e: Evaluator, u: TokenUsage)
    ensures var t := ObserveTokens(e, u);
            && t.elapsedMs == e.elapsedMs && t.baseElapsedMs == e.baseElapsedMs && t.startedNs == e.startedNs
            && (WallTime in t.unavailable <==> WallTime in e.unavailable)
  {
  }

  /** Within a segment the elapsed time is the base plus whole milliseconds since the start. */
  lemma {:induction false} SegmentElapsed(e: Evaluator, seg: Segment)
    requires MonotoneClock(seg) && WallTime !in e.unavailable
    requires e.startedNs == seg.startedNs && e.baseElapsedMs == e.elapsedMs
    requires e.elapsedMs + ActiveNs(seg) / 1_000_000 <= MAX_WIRE_INTEGER
    ensures var s := Run(e, seg.events);
            && WallTime !in s.unavailable && s.startedNs == e.startedNs && s.baseElapsedMs == e.baseElapsedMs
            && s.elapsedMs == e.elapsedMs + ActiveNs(seg) / 1_000_000
    decreases |seg.events|
  {
    hide Step;
    if seg.events != [] {
      var n := |seg.events| - 1;
      var shorter := Segment(seg.startedNs, seg.events[..n]);
      assert MonotoneClock(shorter);
      assert ActiveNs(shorter) <= ActiveNs(seg);
      SegmentElapsed(e, shorter);
      StepElapsed(Run(e, seg.events[..n]), seg.events[n]);
    }
  }

  predicate MonotoneClocks(segs: seq<Segment>) {
    forall i :: 0 <= i < |segs| ==> MonotoneClock(segs[i])
  }

  function TotalActiveNs(segs: seq<Segment>): nat
    requires MonotoneClocks(segs)
  {
    if segs == [] then 0 else TotalActiveNs(segs[..|segs| - 1]) + ActiveNs(segs[|segs| - 1])
  }

  /** Each segment resumes from the snapshot of the one before. */
  ghost function RunSegments(e: Evaluator, segs: seq<Segment>): Evaluator {
    if segs == [] then e
    else Run(Resumed(RunSegments(e, segs[..|segs| - 1]), segs[|segs| - 1].startedNs), segs[|segs| - 1].events)
  }

  /**
   Over n resumed segments the elapsed milliseconds never exceed the observed active
   time, and lag it by less than n milliseconds.
   */
  lemma {:induction false} ElapsedTracksActiveTime(e: Evaluator, segs: seq<Segment>)
    requires MonotoneClocks(segs) && WallTime !in e.unavailable && e.elapsedMs == 0
    requires TotalActiveNs(segs) / 1_000_000 <= MAX_WIRE_INTEGER
    ensures var s := RunSegments(e, segs);
            && WallTime !in s.unavailable
            && s.elapsedMs * 1_000_000 <= TotalActiveNs(segs)
            && (segs != [] ==> TotalActiveNs(segs) < (s.elapsedMs + |segs|) * 1_000_000)
  {
    if segs != [] {
      var earlier, seg := segs[..|segs| - 1], segs[|segs| - 1];
      ElapsedTracksActiveTime(e, earlier);
      var s := RunSegments(e, earlier);
      WholeMilliseconds(s.elapsedMs, TotalActiveNs(earlier), ActiveNs(seg));
      SegmentElapsed(Resumed(s, seg.startedNs), seg);
    }
  }

  lemma WholeMilliseconds(ms: nat, before: nat, more: nat)
    requires ms * 1_000_000 <= before && (before + more) / 1_000_000 <= MAX_WIRE_INTEGER
    ensures ms + more / 1_000_000 <= MAX_WIRE_INTEGER
    ensures more - 1_000_000 < more / 1_000_000 * 1_000_000 <= more
  {
  }
}

/** How far repeated skips lead the instruction count astray. */
module RepeatedSkips {
  import opened Machine
  import opened Equivalence
  import opened Hooks
  import opened GoldenRun
  import opened StatsRun
  import opened Aftermath
  import opened Injection
  import opened ExactlyOnce
  import opened Drift

  /** The hooks a skip fault can have behind the counting hook. */
  predicate OnlySkips(hooks: seq<Hook>) {
    forall i :: 12 <= i < |hooks| ==> hooks[i].kind.RepeatIP? || hooks[i].kind.Equivalent?
  }

  /** Each repeat made has counted once too often; the rest of the countdown is still to come. */
  predicate IsCounted(r: Run, rule: FaultRule) {
    && r.rule.operation.Skip? && r.rule.lifespan.count == rule.lifespan.count && !r.restart && OnlySkips(r.hooks)
    && r.trail.drift + r.rule.lifespan.live == rule.lifespan.count
    && r.rule.lifespan.live <= rule.lifespan.count
  }

  lemma {:induction false} RepeatCounts(e: Env, r: Run, at: Site, rule: FaultRule)
    requires IsCounted(r, rule) && r.rule.lifespan.live >= 1
    ensures IsCounted(RepeatIPHook(e, r, at), rule)
  {
    hide WritePc;
  }

  lemma {:induction false} CheckCounts(e: Env, r: Run, rule: FaultRule)
    requires IsCounted(r, rule)
    ensures IsCounted(CheckEquivalent(e, r), rule)
  {
    hide StateHashes, Known, Record;
  }

  lemma {:induction false} SkipVisitCounts(e: Env, r: Run, at: Site, i: nat, rule: FaultRule)
    requires HasFaulted(e, r) && IsCounted(r, rule) && 12 <= i < |r.hooks|
    ensures IsCounted(Visit(e, r, at, i), rule)
  {
    hide RepeatIPHook, CheckEquivalent, IsCounted;
    assert IsCalled(r, at, i) ==> r.hooks[i].kind.RepeatIP? || r.hooks[i].kind.Equivalent? by { OnlyThese(r, rule); }
    if IsCalled(r, at, i) {
      if r.hooks[i].kind.RepeatIP? {
        StillToCome(e, r, i);
        RepeatCounts(e, r, at, rule);
      } else {
        CheckCounts(e, r, rule);
      }
    }
  }

  lemma {:induction false} OnlyThese(r: Run, rule: FaultRule)
    requires IsCounted(r, rule)
    ensures OnlySkips(r.hooks)
  {
  }

  lemma {:induction false} StillToCome(e: Env, r: Run, i: nat)
    requires HasFaulted(e, r) && 12 <= i < |r.hooks| && r.hooks[i].deletions == 0 && r.hooks[i].kind.RepeatIP?
    ensures r.rule.lifespan.live >= 1
  {
    hide SetupHooks;
  }

  lemma {:induction false} SkipDispatchCounts(e: Env, r: Run, at: Site, i: nat, rule: FaultRule)
    requires HasFaulted(e, r) && IsCounted(r, rule) && r.control.Going? && 12 <= i <= |r.hooks|
    ensures IsCounted(Dispatch(e, r, at, i), rule)
    decreases |r.hooks| - i
  {
    hide Visit, HasFaulted;
    if i < |r.hooks| {
      OneVisit(e, r, at, i);
      SkipVisitCounts(e, r, at, i, rule);
      LaterVisit(e, r, at, i);
      var s := Visit(e, r, at, i);
      if s.control.Going? {
        SkipDispatchCounts(e, s, at, i + 1, rule);
      } else {
        EndsThere(e, s, at, i + 1);
      }
    }
  }

  lemma {:induction false} EndsCount(e: Env, r: Run, at: Site, b: bool, rule: FaultRule)
    requires IsCounted(r, rule)
    ensures IsCounted(AtEndAddress(r), rule) && IsCounted(AtHardStop(e, r), rule) && IsCounted(AtSkip(e, r, at), rule)
    ensures IsCounted(r.(inRange := b), rule) && IsCounted(Count(r.(inRange := b)), rule)
  {
    hide WritePc;
  }

  lemma {:induction false} FinishCounts(e: Env, r: Run, rule: FaultRule)
    requires IsCounted(r, rule)
    ensures IsCounted(Finish(e, r), rule) && IsCounted(AfterSegment(e, r), rule)
  {
  }

  lemma {:induction false} SkipStepCounts(e: Env, r: Run, rule: FaultRule, budget: nat)
    requires (GoesOn(e, r, budget) || IsOver(r, budget)) && IsCounted(r, rule)
    ensures IsCounted(Step(e, r), rule)
  {
    assert !r.restart;
    assert r.phase.Running? ==> HasFaulted(e, r) && r.control.Going?;
    hide Dispatch, HasFaulted, AtEndAddress, AtHardStop, AtSkip, Count, Finish, AfterSegment, FlagAt, IsCounted;
    if r.phase.Running? {
      var at := SiteOf(e.p, r.cpu);
      var r1 := r.(inRange := FlagAt(e, r.inRange, at.address));
      FaultedPrefix(e, r, at);
      EndsCount(e, r, at, r1.inRange, rule);
      EndsCount(e, r1, at, r1.inRange, rule);
      if at.address != e.p.codeEnd && at.address !in e.p.skips && at.address !in e.p.hardStops {
        CountingKeeps(e, r, r1.inRange);
        CountKeepsHooks(r1);
        Behind12(e, Count(r1));
        SkipDispatchCounts(e, Count(r1), at, 12, rule);
      }
      FinishCounts(e, Dispatch(e, r, at, 0), rule);
    } else {
      FinishCounts(e, r, rule);
    }
  }

  lemma {:induction false} CountKeepsHooks(r: Run)
    ensures Count(r).control == r.control && Count(r).hooks == r.hooks
  {
  }

  lemma {:induction false} SkipStepsCount(e: Env, r: Run, rule: FaultRule, budget: nat, n: nat)
    requires (GoesOn(e, r, budget) || IsOver(r, budget)) && IsCounted(r, rule)
    ensures IsCounted(Steps(e, r, n), rule)
  {
    hide Step, GoesOn, IsOver, IsCounted;
    if n > 0 {
      SkipStepsCount(e, r, rule, budget, n - 1);
      FaultedSteps(e, r, budget, n - 1);
      SkipStepCounts(e, Steps(e, r, n - 1), rule, budget);
    }
  }

  // ----- from the fault -----

  lemma {:induction false} SkipCounts(e: Env, o: Origin, w: Run, at: Site)
    requires AtTheHook(e, o, w, at) && RepeatsSkip(w.rule)
    ensures IsCounted(FaultIPHook(e, w, at), w.rule)
  {
    FreshHooks(e, o, w, at);
    assert IsTheLine(w) && w.rule.operation.Skip? && w.trail.drift == 0 && !w.restart;
    hide AtTheHook, LaterHooks, SetupHooks, WritePc;
  }

  lemma {:induction false} LineCounts(e: Env, o: Origin, trace: seq<Cpu>, rule: FaultRule, lines: seq<Line>,
                                      classes: seq<Class<FaultRule>>)
    requires HasItsLine(e, trace, rule, lines) && Accepts(rule) && RepeatsSkip(rule)
    requires o.Restored? || !RestoresCheckpoint(e, rule, lines)
    ensures var r := Step(e, Before(e, o, trace, rule, lines, classes, FaultDispatch(e, trace, rule, lines)));
            && IsCounted(r, rule)
            && (GoesOn(e, r, RestartBudget(o, rule)) || IsOver(r, RestartBudget(o, rule)))
  {
    FiresThereOnly(e, trace, rule, lines);
    var u := FaultDispatch(e, trace, rule, lines);
    var at, w := SiteOf(e.p, trace[u]), Within(e, o, trace, rule, lines, classes, u);
    hide Dispatch, SetupHooks, AtTheHook, RestoresCheckpoint, Finish, FaultIPHook, Accepts, Fires, IsGolden,
         IsRecorded, IsCounted, GoesOn, IsOver;
    assert rule.target.InstructionPointer? && !SkippedAt(e.p, trace,
                                                         u) by { NotSkippedThere(e, trace, rule, lines, u); }
    ReachWithin(e, o, trace, rule, lines, classes, u);
    AtItsLine(e, o, trace, rule, lines, classes, u);
    OneVisit(e, w, at, 9);
    OneVisit(e, w, at, 10);
    IPFires(e, o, w, at);
    EndsThere(e, FaultIPHook(e, w, at), at, 11);
    SkipCounts(e, o, w, at);
    FinishCounts(e, FaultIPHook(e, w, at), rule);
    LineInjects(e, o, trace, rule, lines, classes, u);
  }

  lemma {:induction false} NotSkippedThere(e: Env, trace: seq<Cpu>, rule: FaultRule, lines: seq<Line>, u: nat)
    requires u < |trace| && Fires(e, trace, rule, lines, u)
    ensures !SkippedAt(e.p, trace, u)
  {
  }

  /** A rule that repeats its skip: at every point from the fault on, on any program, the count is ahead
      of the in-range instructions gone past by the number of repeats made, which is what the countdown
      has counted. */
  lemma {:induction false} RepeatsLeadAstray(e: Env, o: Origin, trace: seq<Cpu>, rule: FaultRule, lines: seq<Line>,
                                             classes: seq<Class<FaultRule>>, n: nat)
    requires HasItsLine(e, trace, rule, lines) && Accepts(rule) && RepeatsSkip(rule)
    requires o.Restored? || !RestoresCheckpoint(e, rule, lines)
    ensures var faulted := Step(e, Before(e, o, trace, rule, lines, classes, FaultDispatch(e, trace, rule, lines)));
            var r := Steps(e, faulted, n);
            var repeats := rule.lifespan.count - r.rule.lifespan.live;
            && 0 <= repeats == r.trail.drift && !RestartsOutside(r)
            && (r.control.Aborted? || r.state.EquivalentRs? ||
                r.count == r.trail.passed + (if r.phase.Ended? then 0 else 1) + repeats)
  {
    hide HasItsLine, Accepts, RepeatsSkip, RestoresCheckpoint, Before, Step, GoesOn, IsOver;
    LineCounts(e, o, trace, rule, lines, classes);
    var faulted := Step(e, Before(e, o, trace, rule, lines, classes, FaultDispatch(e, trace, rule, lines)));
    SkipStepsCount(e, faulted, rule, RestartBudget(o, rule), n);
    FaultedSteps(e, faulted, RestartBudget(o, rule), n);
    FaultedIsAhead(e, Steps(e, faulted, n), RestartBudget(o, rule));
  }
}

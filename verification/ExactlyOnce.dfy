/** A run injects its fault exactly once, at its line, and keeps its numbering. */
module ExactlyOnce {
  import opened Machine
  import opened Equivalence
  import opened Hooks
  import opened GoldenRun
  import opened StatsRun
  import opened Aftermath
  import opened Injection

  /** A rule for one of the recorded lines. */
  ghost predicate HasItsLine(e: Env, trace: seq<Cpu>, rule: FaultRule, lines: seq<Line>) {
    && IsGolden(e.p, trace) && IsRecorded(e, trace, lines)
    && e.mode.FaultMode? && rule.isSet && 1 <= rule.instruction <= TotalLines(e.p, trace)
  }

  /** The dispatch of the rule's line. */
  ghost function FaultDispatch(e: Env, trace: seq<Cpu>, rule: FaultRule, lines: seq<Line>): nat
    requires HasItsLine(e, trace, rule, lines)
  {
    DispatchOf(e.p, trace, rule.instruction, Last(trace))
  }

  /** The primary hook finds its line there, and nowhere else. */
  lemma {:induction false} FiresThereOnly(e: Env, trace: seq<Cpu>, rule: FaultRule, lines: seq<Line>)
    requires HasItsLine(e, trace, rule, lines)
    ensures FaultDispatch(e, trace, rule, lines) < Last(trace)
    ensures forall t :: 0 <= t < Last(trace) ==>
              (Fires(e, trace, rule, lines, t) <==> t == FaultDispatch(e, trace, rule, lines))
  {
    hide IsLine, LinesBefore;
    var u := FaultDispatch(e, trace, rule, lines);
    forall t | 0 <= t < Last(trace)
      ensures Fires(e, trace, rule, lines, t) <==> t == u
    {
      LinesGrow(e.p, trace, if t < u then t else u, if t < u then u else t);
    }
  }

  /** Up to its fault the run is the golden run; from then on it has faulted once. */
  lemma {:induction false} InjectsOnce(e: Env, o: Origin, trace: seq<Cpu>, rule: FaultRule, lines: seq<Line>,
                                       classes: seq<Class<FaultRule>>, t: nat, n: nat)
    requires HasItsLine(e, trace, rule, lines) && Accepts(rule)
    requires o.Restored? || !RestoresCheckpoint(e, rule, lines)
    requires t <= FaultDispatch(e, trace, rule, lines)
    ensures var u := FaultDispatch(e, trace, rule, lines);
            var r := Steps(e, Before(e, o, trace, rule, lines, classes, t), n);
            if t + n <= u then r == Before(e, o, trace, rule, lines, classes, t + n)
            else HasInjected(e, o, rule, Pc(e.p, trace[u]), r)
  {
    hide Before, Fires, HasInjected, IsGolden, IsRecorded, Step, Accepts, RestoresCheckpoint, TotalLines;
    FiresThereOnly(e, trace, rule, lines);
    var u := FaultDispatch(e, trace, rule, lines);
    if t + n <= u {
      FollowsGolden(e, o, trace, rule, lines, classes, t, t + n);
    } else {
      FollowsGolden(e, o, trace, rule, lines, classes, t, u);
      LineInjects(e, o, trace, rule, lines, classes, u);
      var r := Step(e, Before(e, o, trace, rule, lines, classes, u));
      StepsAdd(e, Before(e, o, trace, rule, lines, classes, t), u - t + 1, t + n - u - 1);
      StaysInjected(e, o, rule, Pc(e.p, trace[u]), r, t + n - u - 1);
    }
  }

  lemma {:induction false} StaysInjected(e: Env, o: Origin, rule: FaultRule, address: nat, r: Run, n: nat)
    requires HasInjected(e, o, rule, address, r)
    ensures HasInjected(e, o, rule, address, Steps(e, r, n))
  {
    hide GoesOn, IsOver, Steps;
    FaultedSteps(e, r, RestartBudget(o, rule), n);
  }

  /** The count is one more than the number of in-range instructions the run has gone past, or zero
      before the range is first entered; a run that ended reports that number.  The drift is what the
      count has been led astray.  A run stopped as equivalent has counted the instruction it stopped at. */
  predicate IsNumbered(r: Run) {
    r.control.Aborted? || r.state.EquivalentRs? ||
    if r.phase.Ended? then r.count == r.trail.passed + r.trail.drift
    else r.count == r.trail.passed + 1 + r.trail.drift || r.count == r.trail.passed == r.trail.drift == 0
  }

  /** How far the count of a run past its fault is ahead of the in-range instructions it has gone past,
      counting the one it is about to execute while it goes on. */
  function Ahead(r: Run): int {
    r.count - r.trail.passed - if r.phase.Ended? then 0 else 1
  }

  lemma {:induction false} FaultedIsAhead(e: Env, r: Run, budget: nat)
    requires GoesOn(e, r, budget) || IsOver(r, budget)
    ensures r.control.Aborted? || r.state.EquivalentRs? || Ahead(r) == r.trail.drift
  {
    hide HasFaulted;
  }

  lemma {:induction false} InjectedIsAhead(e: Env, o: Origin, rule: FaultRule, address: nat, r: Run)
    requires HasInjected(e, o, rule, address, r)
    ensures r.control.Aborted? || r.state.EquivalentRs? || Ahead(r) == r.trail.drift
  {
    hide GoesOn, IsOver, Ahead;
    FaultedIsAhead(e, r, RestartBudget(o, rule));
  }

  lemma {:induction false} BeforeIsNumbered(e: Env, o: Origin, trace: seq<Cpu>, rule: FaultRule, lines: seq<Line>,
                                            classes: seq<Class<FaultRule>>, t: nat)
    requires t < |trace|
    ensures var r := Before(e, o, trace, rule, lines, classes, t);
            IsNumbered(r) && r.trail.fired == [] && r.trail.restarts <= RestartBudget(o, rule)
            && r.trail.restarts == (if o.Restored? then 1 else 0)
  {
    hide SetupHooks;
    LineIsEntered(e.p, trace, t);
  }

  lemma {:induction false} InjectedIsNumbered(e: Env, o: Origin, rule: FaultRule, address: nat, r: Run)
    requires HasInjected(e, o, rule, address, r)
    ensures IsNumbered(r) && r.trail.fired == [Firing(rule.instruction, address)]
    ensures r.trail.restarts <= RestartBudget(o, rule)
  {
    hide HasFaulted;
  }

  /** From the start address: nothing is injected before the line is dispatched, and after that there
      is exactly one injection, at the line and at its address, for the whole run. */
  lemma {:induction false} FaultsExactlyOnce(e: Env, trace: seq<Cpu>, rule: FaultRule, lines: seq<Line>,
                                             classes: seq<Class<FaultRule>>, n: nat)
    requires HasItsLine(e, trace, rule, lines) && Accepts(rule) && !RestoresCheckpoint(e, rule, lines)
    ensures var u := FaultDispatch(e, trace, rule, lines);
            var r := Steps(e, Launched(e, rule, lines, classes), n);
            && r.trail.fired == (if n <= u then [] else [Firing(rule.instruction, Pc(e.p, trace[u]))])
            && IsNumbered(r)
            && r.trail.restarts <= RestartBudget(FromStart, rule) <= 1 + rule.lifespan.count
            && (r.trail.fired != [] && !r.control.Aborted? && !r.state.EquivalentRs? ==> Ahead(r) == r.trail.drift)
  {
    hide Before, Launched, HasInjected, IsNumbered, Steps, IsGolden, Ahead;
    LaunchedIsBefore(e, trace, rule, lines, classes);
    InjectsOnce(e, FromStart, trace, rule, lines, classes, 0, n);
    var u := FaultDispatch(e, trace, rule, lines);
    if n <= u {
      BeforeIsNumbered(e, FromStart, trace, rule, lines, classes, n);
    } else {
      InjectedIsNumbered(e, FromStart, rule, Pc(e.p, trace[u]), Steps(e, Launched(e, rule, lines, classes), n));
      InjectedIsAhead(e, FromStart, rule, Pc(e.p, trace[u]), Steps(e, Launched(e, rule, lines, classes), n));
    }
  }
}

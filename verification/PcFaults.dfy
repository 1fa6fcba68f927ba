/** A fault of the program counter and a fault of another register, in one class. */
module PcFaults {
  import opened Utils
  import opened Machine
  import opened Hooks
  import opened Equivalence
  import opened GoldenRun
  import opened StatsRun
  import opened Aftermath
  import opened Injection
  import opened ExactlyOnce
  import opened Pruning
  import opened MixedLifespans

  /** a is on the program counter, b is not; both last for ever. */
  predicate PcAndOther(p: Program, a: FaultRule, b: FaultRule) {
    a.target.Register? && b.target.Register? && a.instruction == b.instruction && a.number == p.pcReg != b.number
    && a.lifespan.count == b.lifespan.count == 0
  }

  /** If they leave one state, neither changed anything. */
  lemma {:induction false} NothingChanged(p: Program, c: Cpu, a: FaultRule, b: FaultRule, size: nat)
    requires PcAndOther(p, a, b) && Accepts(a) && Accepts(b) && FaultedCpu(p, c, a, size) == FaultedCpu(p, c, b, size)
    ensures FaultedCpu(p, c, a, size) == FaultedCpu(p, c, b, size) == c
  {
    hide FaultReg;
    var v, w := FaultReg(a.mask, a.operation, ReadReg(c, a.number), size),
        FaultReg(b.mask, b.operation, ReadReg(c, b.number), size);
    assert v.Some? && w.Some? by { BothFault(c, a, size); BothFault(c, b, size); }
    var x, y := WritePc(p, c, v.value), c.regs[b.number := w.value];
    assert x.regs == y;
    assert p.pcReg in x.regs && b.number in y;
    assert y == c.regs;
  }

  lemma {:induction false} BothFault(c: Cpu, a: FaultRule, size: nat)
    requires a.target.Register? && Accepts(a)
    ensures FaultReg(a.mask, a.operation, ReadReg(c, a.number), size).Some?
  {
    hide Bitwise;
  }

  /** The same run, with one instruction more gone past and counted. */
  function UpOne(r: Run): Run {
    r.(count := r.count + 1, trail := r.trail.(passed := r.trail.passed + 1))
  }

  /** r is where s is, but it has counted one instruction more. */
  ghost predicate Lags(r: Run, s: Run) {
    Agree(r, UpOne(s))
  }

  /** Nothing is left of a lifespan. */
  ghost predicate LastsForEver(e: Env, r: Run, budget: nat) {
    (GoesOn(e, r, budget) && MayRevert(r) && r.hk.lifespan == 0) || IsOver(r, budget)
  }

  lemma {:induction false} UpOneGoesOn(e: Env, r: Run, budget: nat)
    ensures GoesOn(e, r, budget) ==> GoesOn(e, UpOne(r), budget)
    ensures IsOver(r, budget) ==> IsOver(UpOne(r), budget)
    ensures MayRevert(UpOne(r)) <==> MayRevert(r)
  {
    hide FaultedHooks;
  }

  lemma {:induction false} UpOneRemoves(r: Run, state: RunState)
    ensures Stop(RemoveIfSet(UpOne(r).(state := state), CountInstructions))
            == UpOne(Stop(RemoveIfSet(r.(state := state), CountInstructions)))
  {
  }

  lemma {:induction false} UpOneEnds(e: Env, r: Run, at: Site)
    ensures AtEndAddress(UpOne(r)) == UpOne(AtEndAddress(r)) && AtHardStop(e, UpOne(r)) == UpOne(AtHardStop(e, r))
    ensures AtSkip(e, UpOne(r), at) == UpOne(AtSkip(e, r, at))
  {
    UpOneWrites(r, AtSkip(e, r, at).cpu, Skipped);
    hide RemoveIfSet, Stop, UpOne, WritePc;
    UpOneIs(r);
    UpOneRemoves(r, HardStopped);
    UpOneRemoves(r, if r.state.Faulted? then EndAddressAndFaulted else if r.state.EquivalentRs? then EquivalentRs
                 else EndAddress);
  }

  lemma {:induction false} UpOneFlags(r: Run, b: bool)
    ensures UpOne(r.(inRange := b)) == UpOne(r).(inRange := b)
  {
  }

  lemma {:induction false} UpOneWrites(r: Run, c: Cpu, control: Control)
    ensures UpOne(r.(cpu := c, control := control)) == UpOne(r).(cpu := c, control := control)
  {
  }

  lemma {:induction false} UpOneIs(r: Run)
    ensures var u := UpOne(r); u == r.(count := u.count, trail := u.trail)
  {
  }

  lemma {:induction false} UpOnePasses(r: Run)
    ensures Pass(UpOne(r)) == UpOne(Pass(r))
  {
  }

  lemma {:induction false} UpOneSegment(e: Env, r: Run)
    requires r.count >= 1 || (r.restart && !r.state.Errored?)
    ensures AfterSegment(e, UpOne(r)) == UpOne(AfterSegment(e, r))
  {
    hide WritePc;
  }

  lemma {:induction false} UpOneFinishes(e: Env, r: Run)
    ensures Finish(e, UpOne(r)) == UpOne(Finish(e, r))
  {
    hide Pass, UpOne, After, Finish;
    if r.control.Going? {
      UpOneIs(r);
      Afterwards(e, r, r, e.p.exec(r.cpu));
      Afterwards(e, UpOne(r), UpOne(r), e.p.exec(r.cpu));
      UpOneExecutes(r, e.p.exec(r.cpu));
    } else {
      UpOneStops(e, r);
    }
  }

  lemma {:induction false} UpOneExecutes(r: Run, exec: Exec)
    ensures var x, y := After(UpOne(r), exec), After(r, exec);
            x.(rule := UpOne(r).rule, hooks := UpOne(r).hooks, hk := UpOne(r).hk)
              == UpOne(y.(rule := r.rule, hooks := r.hooks, hk := r.hk))
  {
  }

  lemma {:induction false} UpOneStops(e: Env, r: Run)
    requires !r.control.Going?
    ensures Finish(e, UpOne(r)) == UpOne(Finish(e, r))
  {
    UpOnePasses(r);
    UpOneWrites(r, r.cpu, Going);
    UpOneWrites(Pass(r), Pass(r).cpu, Going);
    UpOnePhases(r, Ended);
    UpOnePhases(r, Stopped);
    hide Pass, UpOne;
    UpOneIs(r);
    UpOneIs(Pass(r));
  }

  lemma {:induction false} UpOnePhases(r: Run, phase: Phase)
    ensures UpOne(r.(phase := phase)) == UpOne(r).(phase := phase)
  {
  }

  lemma {:induction false} UpOneCounts(e: Env, r: Run, exec: Exec)
    ensures After(Counted(e, UpOne(r)), exec) == UpOne(After(Counted(e, r), exec))
    ensures UpOne(r).hk == r.hk && UpOne(r).rule == r.rule && UpOne(r).cpu == r.cpu && UpOne(r).phase == r.phase
    ensures UpOne(r).hooks == r.hooks && UpOne(r).inRange == r.inRange
  {
  }

  lemma {:induction false} NoCountdown(e: Env, r: Run)
    requires r.hk.lifespan == 0
    ensures !Counts(e, r) && !Reverts(e, r) && Executes(e, r) == e.p.exec(r.cpu) && TickedRule(e, r) == r.rule
  {
  }

  /** An ordinary step of a run with no lifespan left. */
  lemma {:induction false} UpOneOrdinary(e: Env, s: Run, budget: nat)
    requires GoesOn(e, s, budget) && MayRevert(s) && s.hk.lifespan == 0 && s.phase.Running?
    requires IsOrdinary(e, Pc(e.p, s.cpu))
    ensures Agree(Step(e, UpOne(s)), UpOne(Step(e, s))) && MayRevert(Step(e, s)) && Step(e, s).hk.lifespan == 0
  {
    UpOneGoesOn(e, s, budget);
    UpOneCounts(e, s, e.p.exec(s.cpu));
    hide GoesOn, Step, Counted, After, MayRevert, Executes, TickedRule, Reverts, IsOrdinary;
    NoCountdown(e, s);
    NoCountdown(e, UpOne(s));
    OrdinaryStep(e, s, budget);
    OrdinaryStep(e, UpOne(s), budget);
    var x := After(Counted(e, s), e.p.exec(s.cpu));
    AfterKeeps(Counted(e, s), e.p.exec(s.cpu));
    AgreeWithItself(s);
    CountedAgree(e, s, s);
    SameButHooks(UpOne(x), Step(e, UpOne(s)), Step(e, s));
  }

  lemma {:induction false} SameButHooks(x: Run, r: Run, s: Run)
    requires r == x.(rule := x.rule, hooks := r.hooks, hk := x.hk)
    requires UpOne(s) == x.(rule := x.rule, hooks := s.hooks, hk := x.hk)
    ensures Agree(r, UpOne(s))
  {
  }

  lemma {:induction false} UpOneOther(e: Env, s: Run, budget: nat)
    requires GoesOn(e, s, budget) && MayRevert(s) && s.hk.lifespan == 0
    requires (s.phase.Running? ==> !IsOrdinary(e, Pc(e.p, s.cpu)))
    ensures Step(e, UpOne(s)) == UpOne(Step(e, s)) && Step(e, s).hk.lifespan == 0
    ensures GoesOn(e, Step(e, s), budget) ==> MayRevert(Step(e, s))
  {
    OtherStepKeeps(e, s, budget);
    UpOneGoesOn(e, s, budget);
    IsGoing(e, s, budget);
    IsGoing(e, UpOne(s), budget);
    if s.phase.Stopped? {
      UpOneSegment(e, s);
    }
    hide GoesOn, Dispatch, HasFaulted, Finish, AfterSegment, FlagAt, MayRevert, AtEndAddress, AtHardStop, AtSkip;
    var at := SiteOf(e.p, s.cpu);
    if s.phase.Running? {
      FaultedPrefix(e, s, at);
      FaultedPrefix(e, UpOne(s), at);
      UpOneEnds(e, s, at);
      UpOneEnds(e, s.(inRange := FlagAt(e, s.inRange, at.address)), at);
      UpOneFlags(s, FlagAt(e, s.inRange, at.address));
      UpOneFinishes(e, Dispatch(e, s, at, 0));
    }
  }

  lemma {:induction false} UpOneStep(e: Env, s: Run, budget: nat)
    requires LastsForEver(e, s, budget)
    ensures Agree(Step(e, UpOne(s)), UpOne(Step(e, s))) && LastsForEver(e, Step(e, s), budget)
  {
    hide GoesOn, IsOver, Step, MayRevert, IsOrdinary, Agree;
    if GoesOn(e, s, budget) && MayRevert(s) && s.hk.lifespan == 0 {
      FaultedStep(e, s, budget);
      if s.phase.Running? && IsOrdinary(e, Pc(e.p, s.cpu)) {
        UpOneOrdinary(e, s, budget);
      } else {
        UpOneOther(e, s, budget);
        AgreeWithItself(UpOne(Step(e, s)));
      }
    } else {
      OverStaysOver(e, s, budget);
      UpOneOver(e, s, budget);
      AgreeWithItself(UpOne(Step(e, s)));
    }
  }

  lemma {:induction false} UpOneOver(e: Env, s: Run, budget: nat)
    requires IsOver(s, budget)
    ensures Step(e, UpOne(s)) == UpOne(Step(e, s))
  {
    if s.phase.Stopped? {
      UpOneSegment(e, s);
    }
    hide AfterSegment;
  }

  // ----- the two runs -----

  lemma {:induction false} UpOneSteps(e: Env, r: Run, s: Run, budget: nat, n: nat)
    requires LastsForEver(e, s, budget) && Lags(r, s) && (GoesOn(e, r, budget) || IsOver(r, budget))
    requires GoesOn(e, r, budget) ==> MayRevert(r)
    requires forall m: nat :: m < n ==> !Reverts(e, Steps(e, r, m))
    ensures Lags(Steps(e, r, n), Steps(e, s, n)) && LastsForEver(e, Steps(e, s, n), budget)
    ensures Together(e, Steps(e, r, n), UpOne(Steps(e, s, n)), budget, budget)
  {
    hide GoesOn, IsOver, Step, MayRevert, Agree, Together, Reverts, LastsForEver;
    if n == 0 {
      LagsTogether(e, r, s, budget);
    } else {
      UpOneSteps(e, r, s, budget, n - 1);
      var r1, s1 := Steps(e, r, n - 1), Steps(e, s, n - 1);
      NeverReverts(e, s1, budget);
      TogetherStep(e, r1, UpOne(s1), budget, budget);
      TogetherAgrees(e, r1, UpOne(s1), budget, budget);
      NoDifference(e, r1, UpOne(s1));
      UpOneStep(e, s1, budget);
      AgreeTwice(Step(e, r1), Step(e, UpOne(s1)), UpOne(Step(e, s1)));
      Remains(e, Step(e, r1), Step(e, s1), UpOne(s1), budget);
    }
  }

  lemma {:induction false} LagsTogether(e: Env, r: Run, s: Run, budget: nat)
    requires LastsForEver(e, s, budget) && Lags(r, s) && (GoesOn(e, r, budget) || IsOver(r, budget))
    requires GoesOn(e, r, budget) ==> MayRevert(r)
    ensures Together(e, r, UpOne(s), budget, budget)
  {
    hide GoesOn, IsOver, MayRevert, Agree, UpOne;
    UpOneGoesOn(e, s, budget);
    EitherWay(e, r, UpOne(s), budget, budget);
    EitherOr(e, UpOne(s), budget);
  }

  lemma {:induction false} Remains(e: Env, r: Run, s: Run, u: Run, budget: nat)
    requires LastsForEver(e, s, budget) && Lags(r, s) && Together(e, r, Step(e, u), budget, budget)
    ensures Together(e, r, UpOne(s), budget, budget)
  {
    hide GoesOn, IsOver, MayRevert, Agree, UpOne, Step;
    EitherOr(e, r, budget);
    LagsTogether(e, r, s, budget);
  }

  lemma {:induction false} AgreeTwice(r: Run, s: Run, t: Run)
    requires Agree(r, s) && Agree(s, t)
    ensures Agree(r, t)
  {
  }

  lemma {:induction false} NeverReverts(e: Env, s: Run, budget: nat)
    requires LastsForEver(e, s, budget)
    ensures !Reverts(e, UpOne(s))
  {
    hide HasFaulted, LifespanNotStarted;
  }

  lemma {:induction false} NoDifference(e: Env, r: Run, s: Run)
    requires Agree(r, s) && !Reverts(e, r) && !Reverts(e, s)
    ensures RevertsAgree(e, r, s)
  {
    hide Reverts, Executes;
  }

  lemma {:induction false} OrdinaryLine(e: Env, trace: seq<Cpu>, u: nat)
    requires IsGolden(e.p, trace) && u < Last(trace) && IsLine(e.p, trace, u)
    ensures IsOrdinary(e, Pc(e.p, trace[u])) && FlagAt(e, true, Pc(e.p, trace[u]))
  {
  }

  /** The two ends of the fault's dispatch. */
  lemma {:induction false} EndsDiffer(e: Env, w: Run, v: Run, at: Site, d: Run, g: Run)
    requires Alike(w, v) && IsMade(e, w, at, d) && IsMade(e, v, at, g) && PcAndOther(e.p, w.rule, v.rule)
    requires FaultedCpu(e.p, w.cpu, w.rule, at.size) == FaultedCpu(e.p, v.cpu, v.rule, at.size) == w.cpu
    requires w.inRange && w.phase.Running? && !w.restart
    ensures d.control.PcWritten? && g.control.Going? && d.hk.lifespan == g.hk.lifespan == 0 && g.phase.Running?
    ensures !g.restart
    ensures d.cpu == g.cpu == w.cpu && d.inRange && d.phase.Running? && g.state.Faulted?
    ensures Agree(Pass(d).(control := Going, count := d.count + 1), UpOne(g))
  {
    hide FaultedCpu, Fire, MayRevert;
    FireOnlyLogs(w, at);
    FireOnlyLogs(v, at);
  }

  lemma {:induction false} CountsAgain(e: Env, d: Run)
    requires d.control.PcWritten? && d.inRange && FlagAt(e, true, Pc(e.p, d.cpu))
    ensures var r := Finish(e, d);
            Counted(e, r) == Pass(d).(control := Going, count := d.count + 1) && r.phase == d.phase && r.cpu == d.cpu
  {
  }

  lemma {:induction false} AgainIs(e: Env, w: Run, v: Run, at: Site, d: Run, g: Run, budget: nat)
    requires Alike(w, v) && IsMade(e, w, at, d) && IsMade(e, v, at, g) && PcAndOther(e.p, w.rule, v.rule)
    requires FaultedCpu(e.p, w.cpu, w.rule, at.size) == FaultedCpu(e.p, v.cpu, v.rule, at.size) == w.cpu
    requires w.inRange && w.phase.Running? && !w.restart && at.address == Pc(e.p, w.cpu)
    requires IsOrdinary(e, at.address) && FlagAt(e, true, at.address)
    requires GoesOn(e, Finish(e, d), budget) || IsOver(Finish(e, d), budget)
    requires GoesOn(e, Finish(e, g), budget) || IsOver(Finish(e, g), budget)
    ensures var r, s := Finish(e, d), Finish(e, g);
            && Lags(Step(e, r), s) && LastsForEver(e, s, budget) && MayRevert(Step(e, r))
            && (GoesOn(e, Step(e, r), budget) || IsOver(Step(e, r), budget))
  {
    EndsDiffer(e, w, v, at, d, g);
    CountsAgain(e, d);
    MadeFinishes(e, w, at, d);
    MadeFinishes(e, v, at, g);
    var r := Finish(e, d);
    assert GoesOn(e, r, budget) by { RunningGoesOn(e, r, budget); }
    hide IsMade, Alike, FaultedCpu, Finish, GoesOn, IsOver, Step, MayRevert, Counted, After, Agree, Pass, IsOrdinary,
         FlagAt, UpOne;
    FaultedStep(e, r, budget);
    NoCountdown(e, r);
    OrdinaryStep(e, r, budget);
    var x, exec := Counted(e, r), e.p.exec(w.cpu);
    Afterwards(e, g, g, exec);
    UpOneIs(g);
    AgreeAfter(x, UpOne(g), exec);
    UpOneExecutes(g, exec);
    AfterKeeps(x, exec);
    AfterKeeps(UpOne(g), exec);
    AfterKeeps(g, exec);
    SameRest(After(x, exec), Step(e, r), After(UpOne(g), exec), UpOne(Finish(e, g)));
  }

  lemma {:induction false} RunningGoesOn(e: Env, r: Run, budget: nat)
    requires (GoesOn(e, r, budget) || IsOver(r, budget)) && r.phase.Running?
    ensures GoesOn(e, r, budget)
  {
  }

  lemma {:induction false} AgreeAfter(r: Run, s: Run, exec: Exec)
    requires Agree(r, s)
    ensures Agree(After(r, exec), After(s, exec))
  {
  }

  lemma {:induction false} SameRest(x: Run, r: Run, y: Run, s: Run)
    requires Agree(x, y) && r == x.(rule := r.rule, hooks := r.hooks, hk := x.hk.(lifespan := r.hk.lifespan))
    requires s == y.(rule := s.rule, hooks := s.hooks, hk := y.hk.(lifespan := s.hk.lifespan))
    requires r.rule.instruction == s.rule.instruction
    ensures Agree(r, s)
  {
  }

  lemma {:induction false} WithinLine(e: Env, o: Origin, trace: seq<Cpu>, rule: FaultRule, lines: seq<Line>,
                                      classes: seq<Class<FaultRule>>, u: nat)
    requires u < |trace| && IsLine(e.p, trace, u)
    ensures var w := Within(e, o, trace, rule, lines, classes, u);
            w.inRange && w.phase.Running? && !w.restart && w.cpu == trace[u]
  {
    hide SetupHooks;
  }

  /** The program counter's fault ends its dispatch without executing the line; the line is dispatched
      again, and counted again. */
  lemma {:induction false} LineAgain(e: Env, o: Origin, trace: seq<Cpu>, a: FaultRule, b: FaultRule, lines: seq<Line>,
                                     ca: seq<Class<FaultRule>>, cb: seq<Class<FaultRule>>)
    requires !e.stopOnEquivalence && LeaveOneState(e, o, trace, a, b, lines) && PcAndOther(e.p, a, b)
    ensures var r, s := AfterFault(e, o, trace, a, lines, ca), AfterFault(e, o, trace, b, lines, cb);
            var budget := RestartBudget(o, a);
            && Lags(Step(e, r), s) && LastsForEver(e, s, budget)
            && (GoesOn(e, Step(e, r), budget) || IsOver(Step(e, r), budget))
            && (GoesOn(e, Step(e, r), budget) ==> MayRevert(Step(e, r)))
  {
    hide Before, Within, FaultedCpu, Accepts, IsGolden, IsRecorded, RestoresCheckpoint, Fires, Step, Finish, IsMade,
         Agree, MayRevert, Alike, GoesOn, IsOver, IsLine, AtTheHook, IsOrdinary, FlagAt, Lags;
    SameDispatch(e, o, trace, a, b, lines);
    var u := FaultDispatch(e, trace, a, lines);
    var at := SiteOf(e.p, trace[u]);
    var d := FaultStepIs(e, o, trace, a, lines, ca, u);
    var g := FaultStepIs(e, o, trace, b, lines, cb, u);
    var w, v := Within(e, o, trace, a, lines, ca, u), Within(e, o, trace, b, lines, cb, u);
    AtTheLine(e, o, trace, a, b, lines, ca, cb, u);
    WithinAlike(e, o, trace, a, b, lines, ca, cb, u);
    NothingChanged(e.p, trace[u], a, b, e.p.size(trace[u]));
    MadeFinishes(e, w, at, d);
    MadeFinishes(e, v, at, g);
    LineInjects(e, o, trace, a, lines, ca, u);
    LineInjects(e, o, trace, b, lines, cb, u);
    WithinLine(e, o, trace, a, lines, ca, u);
    WithinLine(e, o, trace, b, lines, cb, u);
    OrdinaryLine(e, trace, u);
    AgainIs(e, w, v, at, d, g, RestartBudget(o, a));
  }

  /** Two lasting faults of one line, one of the program counter and one of another register, that leave
      one state.  Neither changed anything; but the first run dispatches and counts the line twice.
      From then on it is where the second run is, one step later and with a count one higher. */
  lemma {:induction false} PcFaultLags(e: Env, o: Origin, trace: seq<Cpu>, a: FaultRule, b: FaultRule, lines: seq<Line>,
                                       ca: seq<Class<FaultRule>>, cb: seq<Class<FaultRule>>, n: nat)
    requires !e.stopOnEquivalence && LeaveOneState(e, o, trace, a, b, lines) && PcAndOther(e.p, a, b)
    ensures var u := FaultDispatch(e, trace, a, lines);
            FaultedCpu(e.p, trace[u], a, e.p.size(trace[u])) == FaultedCpu(e.p, trace[u], b, e.p.size(trace[u]))
              == trace[u]
    ensures Lags(Steps(e, AfterFault(e, o, trace, a, lines, ca), n + 1),
                 Steps(e, AfterFault(e, o, trace, b, lines, cb), n))
  {
    LineAgain(e, o, trace, a, b, lines, ca, cb);
    SameDispatch(e, o, trace, a, b, lines);
    var u := FaultDispatch(e, trace, a, lines);
    NothingChanged(e.p, trace[u], a, b, e.p.size(trace[u]));
    hide FaultedCpu, Accepts, HasItsLine, RestoresCheckpoint, AfterFault, Lags, LastsForEver, GoesOn, IsOver,
         MayRevert, Reverts, Step;
    var r, s := AfterFault(e, o, trace, a, lines, ca), AfterFault(e, o, trace, b, lines, cb);
    forall m: nat ensures Steps(e, Step(e, r), m) == Steps(e, r, m + 1) && !Reverts(e, Steps(e, Step(e, r), m)) {
      RevertsOnTime(e, o, trace, a, lines, ca, m + 1);
      LaterBy(e, r, m);
    }
    UpOneSteps(e, Step(e, r), s, RestartBudget(o, a), n);
  }

  lemma {:induction false} LaterBy(e: Env, r: Run, m: nat)
    ensures Steps(e, Step(e, r), m) == Steps(e, r, m + 1)
  {
    hide Step;
    assert Steps(e, r, 1) == Step(e, Steps(e, r, 0));
    StepsAdd(e, r, 1, m);
  }
}

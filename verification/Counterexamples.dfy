/** Inputs on which a property fails, one for each condition that a theorem elsewhere asks for. */
module Counterexamples {
  import opened Utils
  import opened Machine
  import opened Hooks
  import opened GoldenRun
  import opened StatsRun
  import opened Snapshots
  import opened Aftermath
  import opened Injection
  import opened ExactlyOnce
  import opened Replay
  import opened Drift
  import opened Lifespans
  import opened Pruning
  import opened MixedLifespans
  import opened Placement
  import opened Examples
  import FaultedBytes
  import Enumeration
  import LaterTests
  import PcFaults
  import Repeats
  import WorkItem

  // ----- one key, two lifespans -----

  /** Set register 1 to 7 at line 1. */
  function SetRule(lifespan: Lifespan): FaultRule {
    FaultRule(1, Register, false, 1, None, Operation.Set, 7, true, 0, lifespan)
  }

  const FOR_EVER := Lifespan(NoMode, 0, 0, 0, [])
  const REVERTED_ONCE := Lifespan(Revert, 1, 0, 0, [])

  lemma {:induction false} SetsIt(lifespan: Lifespan)
    ensures FaultedCpu(Straight(9, 3), Cpu2(1, 0), SetRule(lifespan), 1) == Cpu2(1, 7)
    ensures Accepts(SetRule(lifespan))
  {
    assert Cpu2(1, 0).regs[1 := 7] == Cpu2(1, 7).regs;
  }

  /** After its fault the run is at address 2, with 7 in the register. */
  lemma {:induction false} SetThere(lifespan: Lifespan)
    requires FaultsOnce(SetRule(lifespan))
    ensures var e, rule := StraightEnv(9, 3), SetRule(lifespan);
            && HasItsLine(e, Walk(3), rule, StraightTable(3)) && FaultDispatch(e, Walk(3), rule, StraightTable(3)) == 1
            && var r := AfterFault(e, FromStart, Walk(3), rule, StraightTable(3), []);
               && r.cpu == Cpu2(2, 7) && r.phase.Running? && GoesOn(e, r, lifespan.count) && MayRevert(r)
               && r.hk.lifespan == (if IsReverted(rule) then 14 else 0)
               && HasTicked(e, r, rule, 0, 0, lifespan.count) && r.lines == StraightTable(3) && r.rule.instruction == 1
  {
    var e, trace, rule, lines := StraightEnv(9, 3), Walk(3), SetRule(lifespan), StraightTable(3);
    StraightHasLines(9, 3, rule);
    SetsIt(lifespan);
    GoesStraight(9, 3, 1, 0);
    GoesStraight(9, 3, 1, 7);
    hide IsGolden, IsRecorded, Straight, IsMade, Finish, GoesOn, IsOver, MayRevert, HasTicked, Fires, Step,
         StraightTable, Within, IsReverted;
    FiresThereOnly(e, trace, rule, lines);
    NoRestoreThere(rule);
    StartsTicking(e, FromStart, trace, rule, lines, []);
    var d := FaultStepIs(e, FromStart, trace, rule, lines, [], 1);
    var w := Within(e, FromStart, trace, rule, lines, [], 1);
    AtTheLine(e, FromStart, trace, rule, rule, lines, [], [], 1);
    MadeThereToo(e, w, SiteOf(e.p, trace[1]), d);
    MadeFinishes(e, w, SiteOf(e.p, trace[1]), d);
    LineInjects(e, FromStart, trace, rule, lines, [], 1);
    WithinKeeps(e, trace, rule, lines);
    PcFaults.RunningGoesOn(e, Finish(e, d), lifespan.count);
  }

  lemma {:induction false} NoRestoreThere(rule: FaultRule)
    ensures !RestoresCheckpoint(StraightEnv(9, 3), rule, StraightTable(3))
  {
  }

  lemma {:induction false} WithinKeeps(e: Env, trace: seq<Cpu>, rule: FaultRule, lines: seq<Line>)
    requires |trace| > 1
    ensures var w := Within(e, FromStart, trace, rule, lines, [], 1);
            w.lines == lines && w.phase.Running?
  {
    hide SetupHooks;
  }

  lemma {:induction false} MadeThereToo(e: Env, w: Run, at: Site, d: Run)
    requires IsMade(e, w, at, d) && w.rule.number != e.p.pcReg
    requires e.p.exec(FaultedCpu(e.p, w.cpu, w.rule, at.size)).Next?
    ensures Finish(e, d).cpu == e.p.exec(FaultedCpu(e.p, w.cpu, w.rule, at.size)).cpu
    ensures Finish(e, d).phase == w.phase && Finish(e, d).lines == w.lines
  {
    hide FaultedCpu, Fire;
    FireOnlyLogs(w, at);
  }

  /** The instruction at address 2, with the revert before it or without. */
  lemma {:induction false} NextThere(lifespan: Lifespan)
    requires lifespan == FOR_EVER || lifespan == REVERTED_ONCE
    ensures var e, rule := StraightEnv(9, 3), SetRule(lifespan);
            && HasItsLine(e, Walk(3), rule, StraightTable(3))
            && var r := AfterFault(e, FromStart, Walk(3), rule, StraightTable(3), []);
               && Step(e, r).cpu == (if lifespan == FOR_EVER then Cpu2(3, 7) else Cpu2(3, 0))
               && Step(e, r).phase.Running? && GoesOn(e, Step(e, r), lifespan.count)
  {
    hide GoesOn, IsOver, MayRevert, Step, AfterFault, HasItsLine, Reverts, Executes, HasTicked, StraightEnv, IsReverted;
    SetThere(lifespan);
    var e, rule := StraightEnv(9, 3), SetRule(lifespan);
    var r := AfterFault(e, FromStart, Walk(3), rule, StraightTable(3), []);
    RevertsThere(e, r, rule, lifespan);
    ExecutesThere(e, r, lifespan);
    NextIs(e, r, lifespan.count);
  }

  lemma {:induction false} ExecutesThere(e: Env, r: Run, lifespan: Lifespan)
    requires e == StraightEnv(9, 3) && r.cpu == Cpu2(2, 7) && r.rule.number == 1 && r.rule.lifespan.originalValue == 0
    requires Reverts(e, r) <==> lifespan == REVERTED_ONCE
    ensures Executes(e, r) == Next(if lifespan == REVERTED_ONCE then Cpu2(3, 0) else Cpu2(3, 7))
  {
    hide Reverts;
    GoesStraight(9, 3, 2, 7);
    GoesStraight(9, 3, 2, 0);
    assert Cpu2(2, 7).regs[1 := 0] == Cpu2(2, 0).regs;
  }

  lemma {:induction false} NextIs(e: Env, r: Run, budget: nat)
    requires GoesOn(e, r, budget) && MayRevert(r) && r.phase.Running? && IsOrdinary(e, Pc(e.p, r.cpu))
    requires Executes(e, r).Next?
    ensures Step(e, r).cpu == Executes(e, r).cpu && Step(e, r).phase.Running? && GoesOn(e, Step(e, r), budget)
  {
    hide GoesOn, IsOver, MayRevert, Step, Executes, Counted, IsOrdinary;
    OrdinaryStep(e, r, budget);
    FaultedStep(e, r, budget);
    AgreeWithItself(r);
    CountedAgree(e, r, r);
    PcFaults.RunningGoesOn(e, Step(e, r), budget);
  }

  lemma {:induction false} RevertsThere(e: Env, r: Run, rule: FaultRule, lifespan: Lifespan)
    requires e == StraightEnv(9, 3) && rule == SetRule(lifespan) && (lifespan == FOR_EVER || lifespan == REVERTED_ONCE)
    requires r.cpu == Cpu2(2, 7) && r.phase.Running? && GoesOn(e, r, lifespan.count)
    requires HasTicked(e, r, rule, 0, 0, lifespan.count)
    requires r.hk.lifespan == (if IsReverted(rule) then 14 else 0) && r.lines == StraightTable(3)
    requires r.rule.instruction == 1
    ensures Reverts(e, r) <==> lifespan == REVERTED_ONCE
    ensures IsOrdinary(e, Pc(e.p, r.cpu)) && r.rule.number == 1 && r.rule.lifespan.originalValue == 0
  {
    hide HasFaulted, MayRevert;
    GoesStraight(9, 3, 2, 7);
    EitherOr(e, r, lifespan.count);
  }

  /** A faulted run at the end address ends there. */
  lemma {:induction false} EndsHere(e: Env, r: Run, budget: nat)
    requires GoesOn(e, r, budget) && r.phase.Running? && Pc(e.p, r.cpu) == e.p.codeEnd
    ensures var s := Steps(e, r, 2);
            s.phase.Ended? && s.cpu == r.cpu && s.state.EndAddressAndFaulted?
              && s.count == (if r.count == 0 then 0 else r.count - 1) && s.trail == r.trail
  {
    TwoSteps(e, r);
    MixedLifespans.IsGoing(e, r, budget);
    WorkItem.WasFaulted(e, r);
    hide GoesOn, HasFaulted, Dispatch, Steps;
    FaultedPrefix(e, r, SiteOf(e.p, r.cpu));
    EndIs(e, r);
  }

  lemma {:induction false} EndIs(e: Env, r: Run)
    requires r.state.Faulted? && !r.restart
    ensures var s := AfterSegment(e, Finish(e, AtEndAddress(r)));
            && Finish(e, AtEndAddress(r)).phase.Stopped?
            && s.phase.Ended? && s.cpu == r.cpu && s.state.EndAddressAndFaulted? && s.trail == r.trail
            && s.count == (if r.count == 0 then 0 else r.count - 1)
  {
    hide SetHandle, HandleOf;
  }

  lemma {:induction false} WholeRun(lifespan: Lifespan)
    requires lifespan == FOR_EVER || lifespan == REVERTED_ONCE
    ensures var e, rule := StraightEnv(9, 3), SetRule(lifespan);
            var s := Steps(e, Launched(e, rule, StraightTable(3), []), 5);
            && HasItsLine(e, Walk(3), rule, StraightTable(3)) && Accepts(rule)
            && s.phase.Ended? && s.state.EndAddressAndFaulted? && s.cpu == if lifespan == FOR_EVER then Cpu2(3, 7)
               else Cpu2(3, 0)
  {
    hide GoesOn, IsOver, MayRevert, Step, AfterFault, HasItsLine, HasTicked, Steps, Launched, RestoresCheckpoint,
         FaultDispatch, StraightEnv, Walk, StraightTable, Accepts, WorkItem.StartsAs, WorkItem.Delay, Pc;
    var e, rule := StraightEnv(9, 3), SetRule(lifespan);
    SetThere(lifespan);
    NextThere(lifespan);
    StartsThere(lifespan);
    var r := AfterFault(e, FromStart, Walk(3), rule, StraightTable(3), []);
    EndsThereToo(lifespan);
    EndsHere(e, Step(e, r), lifespan.count);
    PcFaults.LaterBy(e, r, 2);
    WorkItem.AfterDelay(e, Walk(3), rule, StraightTable(3), [], FromStart, 0, 3);
  }

  lemma {:induction false} EndsThereToo(lifespan: Lifespan)
    ensures var e := StraightEnv(9, 3);
            Pc(e.p, Cpu2(3, 0)) == Pc(e.p, Cpu2(3, 7)) == e.p.codeEnd
  {
    GoesStraight(9, 3, 3, 0);
    GoesStraight(9, 3, 3, 7);
  }

  lemma {:induction false} StartsThere(lifespan: Lifespan)
    requires FaultsOnce(SetRule(lifespan))
    ensures var e, rule := StraightEnv(9, 3), SetRule(lifespan);
            && WorkItem.StartsAs(e, Walk(3), rule, StraightTable(3), FromStart, 0) && Accepts(rule)
            && HasItsLine(e, Walk(3), rule, StraightTable(3))
            && WorkItem.Delay(e, Walk(3), rule, StraightTable(3), FromStart, 0) == 2
  {
    hide HasItsLine, FaultDispatch, Walk, StraightTable, AfterFault, GoesOn, MayRevert, HasTicked;
    SetsIt(lifespan);
    SetThere(lifespan);
    NoRestoreThere(SetRule(lifespan));
  }

  /** One program and two rules for its first line: the same fault, for ever and reverted once.  Their
      faults leave one state, and so one key; the second run, which the test would have stopped as known,
      ends with another CPU than the first. */
  lemma {:induction false} OneKeyTwoOutcomes()
    ensures var e, a, b := StraightEnv(9, 3), SetRule(FOR_EVER), SetRule(REVERTED_ONCE);
            var lines := StraightTable(3);
            && LeaveOneState(e, FromStart, Walk(3), a, b, lines) && AreMixed(e.p, a, b) && HashesAreInjective(e.p)
            && WorkItem.KeyOf(e, FromStart, Walk(3), a, lines) == WorkItem.KeyOf(e, FromStart, Walk(3), b, lines)
            && var r, s := Steps(e, Launched(e, a, lines, []), 5), Steps(e, Launched(e, b, lines, []), 5);
               && r.phase.Ended? && s.phase.Ended? && r.state == s.state
               && ReadReg(r.cpu, 1) == 7 && ReadReg(s.cpu, 1) == 0
  {
    hide Steps, Launched, HasItsLine, Walk, StraightTable, HashesAreInjective, LeaveOneState, WorkItem.KeyOf, Straight;
    HashesReadAll(9, 3);
    OneKey();
    WholeRun(FOR_EVER);
    WholeRun(REVERTED_ONCE);
  }

  lemma {:induction false} OneKey()
    ensures var e, a, b := StraightEnv(9, 3), SetRule(FOR_EVER), SetRule(REVERTED_ONCE);
            var lines := StraightTable(3);
            && LeaveOneState(e, FromStart, Walk(3), a, b, lines) && AreMixed(e.p, a, b)
            && WorkItem.KeyOf(e, FromStart, Walk(3), a, lines) == WorkItem.KeyOf(e, FromStart, Walk(3), b, lines)
  {
    hide Steps, Launched, HasItsLine, Walk, StraightTable, StateHashes, FaultedCpu, AfterFault, GoesOn, MayRevert,
         HasTicked, FaultDispatch;
    SetsIt(FOR_EVER);
    SetsIt(REVERTED_ONCE);
    SetThere(FOR_EVER);
    SetThere(REVERTED_ONCE);
    NoRestoreThere(SetRule(FOR_EVER));
    NoRestoreThere(SetRule(REVERTED_ONCE));
    WalkThere();
  }

  lemma {:induction false} WalkThere()
    ensures |Walk(3)| == 4 && Walk(3)[1] == Cpu2(1, 0)
  {
  }

  // ----- a revert outside the fault range -----

  const REVERTED_TWICE := Lifespan(Revert, 2, 0, 0, [])

  /** Make the byte of line 1 a 5, for two instructions; lines 1 and 2 are in range, address 3 is not. */
  const CHANGES := FaultRule(1, Instruction, false, 0, None, Operation.Set, 5, true, 0, REVERTED_TWICE)

  /** A step of a run whose fault is in place. */
  lemma {:induction false} LivingStepIs(e: Env, r: Run, v: Reversion, exact: bool, budget: nat)
    requires Living(e, r, v, exact) && GoesOn(e, r, budget) && r.phase.Running? && v.hook == 12
    requires IsOrdinary(e, Pc(e.p, r.cpu))
    ensures Step(e, r) == Finish(e, RevertInstructionHook(e, Counted(e, r), SiteOf(e.p, r.cpu)))
  {
    hide Living, HasFaulted, Dispatch, Visit, RevertInstructionHook, Finish, FlagAt, Follows, FaultedHooks;
    var at := SiteOf(e.p, r.cpu);
    MixedLifespans.IsGoing(e, r, budget);
    FaultedPrefix(e, r, at);
    CountsForLiving(e, r, v, exact, budget, FlagAt(e, r.inRange, at.address));
    var x := Counted(e, r);
    TwelveAndOne(e, x, v, r.count, exact);
    OneVisit(e, x, at, 12);
    RevertVisit(e, x, at, v, r.count, exact);
    HooksStay(e, x, at);
    NothingBehind(e, RevertInstructionHook(e, x, at), at);
  }

  lemma {:induction false} TwelveAndOne(e: Env, r: Run, v: Reversion, was: nat, exact: bool)
    requires AboutToLive(e, r, v, was, exact) && v.hook == 12
    ensures |r.hooks| == 13 && r.control.Going?
  {
    hide LineAt;
  }

  lemma {:induction false} HooksStay(e: Env, r: Run, at: Site)
    ensures |RevertInstructionHook(e, r, at).hooks| == |r.hooks|
  {
    hide WriteMem, LineAt;
  }

  /** Where the run stands with the changed byte in place, and what its countdown and its count are. */
  ghost predicate Stands(r: Run, pc: nat, count: nat, live: nat) {
    && r.cpu == CpuWith(pc, if pc > 1 then 5 else 0, 5) && r.phase.Running? && r.control.Going? && r.inRange
    && r.count == count == r.trail.passed + 1 && r.rule.lifespan.live == live && r.rule.instruction == 1
    && r.trail.drift == 0 && !r.restart && |r.trail.writes| == 1
  }

  lemma {:induction false} GoesFrom(pc: nat, x: nat, b: Byte)
    requires pc < 2 * PAGE
    ensures Straight(3, 4).exec(CpuWith(pc, x, b)) == Next(CpuWith(pc + 1, x + if pc == 1 then b as nat else 0, b))
    ensures Pc(Straight(3, 4), CpuWith(pc, x, b)) == pc
    ensures WritePc(Straight(3, 4), CpuWith(pc, x, b), pc) == CpuWith(pc, x, b)
  {
    AddsOn(1, pc, x, b);
    assert CpuWith(pc, x, b).regs[0 := pc] == CpuWith(pc, x, b).regs;
  }

  /** The revert hook declines or counts down, and the instruction is executed. */
  lemma {:induction false} StandsNext(r: Run, pc: nat, count: nat, live: nat)
    requires Stands(r, pc, count, live) && 1 <= pc < 3 && live == 2 && 1 <= count <= 2
    ensures var e := StraightEnv(3, 4);
            Stands(Finish(e, RevertInstructionHook(e, Counted(e, r), SiteOf(e.p, r.cpu))), pc + 1, count + 1,
                   if count == 1 then 2 else 1)
  {
    hide Adds, Memory, HashContext, HashBytes, WriteMem;
    GoesFrom(pc, if pc > 1 then 5 else 0, 5);
  }

  /** Outside the range the count does not go up, but it is stepped back. */
  lemma {:induction false} RevertsOutside(r: Run)
    requires Stands(r, 3, 3, 1) && r.rule.lifespan.originalBytes == [0] && LineAt(r.lines, 1).address == 1
    ensures var e := StraightEnv(3, 4);
            var s := Finish(e, RevertInstructionHook(e, Counted(e, r), SiteOf(e.p, r.cpu)));
            && s.trail.drift == -1 && RestartsOutside(s) && s.count == s.trail.passed == 2 && s.restartAddress == 3
            && s.cpu == CpuWith(3, 5, 0) && s.phase.Stopped?
  {
    GoesFrom(3, 5, 5);
    WritesByte(3, 5, 5, 0);
    hide WriteMem, SetHandle, HandleOf, Adds, Memory, HashContext, HashBytes;
  }

  lemma {:induction false} RestartsAt(e: Env, w: Run, at: Site)
    requires IsTheLine(w) && FaultsBytes(w.rule.operation) && w.control.Going?
    ensures FaultInstructionHook(e, w, at).restartAddress == ThumbAddress(e.p, at.address)
  {
    hide WriteMem, ReadMem, FaultBytes, SetHandle, HandleOf;
  }

  lemma {:induction false} ChangesIt(e: Env, w: Run, at: Site, v: Reversion)
    requires e == StraightEnv(3, 4) && w.cpu == Cpu2(1, 0) && at == Site(1, 1) && w.rule == CHANGES && w.count == 1
    requires w.inRange
    requires IsTheLine(w) && w.control.Going? && v.line == 1 && v.count == 2 && w.trail.passed == 0
    requires var s := FaultInstructionHook(e, w, at);
             Fired(e, w, at, s, 0) && s.control.StopRequested? && s.restart && Living(e, s, v, true)
    ensures var s := Finish(e, FaultInstructionHook(e, w, at));
            Stands(Step(e, s), 1, 1, 2) && s.restart
  {
    hide HasFaulted, FaultInstructionHook;
    GoesFrom(1, 0, 5);
    WritesByte(1, 0, 0, 5);
    RestartsAt(e, w, at);
    var s := FaultInstructionHook(e, w, at);
    WorkItem.WasFaulted(e, s);
    FaultedBytes.FaultWrites(e, w, at);
    assert FaultBytes(5, Operation.Set, [0]) == [5];
  }

  /** Line 1 of the straight program, with its rule. */
  lemma {:induction false} ChangesFires()
    ensures var e, trace, lines := StraightEnv(3, 4), Walk(4), StraightTable(4);
            && HasItsLine(e, trace, CHANGES, lines) && FaultDispatch(e, trace, CHANGES, lines) == 1
            && Fires(e, trace, CHANGES, lines, 1)
            && Accepts(CHANGES) && RevertsInstruction(CHANGES) && !RestoresCheckpoint(e, CHANGES, lines)
            && IsGolden(e.p, trace) && |trace| == 5 && trace[1] == Cpu2(1, 0) && SiteOf(e.p, trace[1]) == Site(1, 1)
  {
    hide IsGolden, IsRecorded, Fires, Straight, IsLine, LinesBefore, StraightTable, Adds, Memory;
    var e, trace, lines := StraightEnv(3, 4), Walk(4), StraightTable(4);
    StraightHasLines(3, 4, CHANGES);
    LineIsMapped();
    GoesFrom(1, 0, 0);
    StraightStops(trace[1]);
    FiresThereOnly(e, trace, CHANGES, lines);
  }

  lemma {:induction false} ChangedThere() returns (v: Reversion)
    ensures var e, lines := StraightEnv(3, 4), StraightTable(4);
            && HasItsLine(e, Walk(4), CHANGES, lines) && v.hook == 12 && v.original == [0] && v.fault.address == 1
            && v.line == 1
            && var r := AfterFault(e, FromStart, Walk(4), CHANGES, lines, []);
               Lives(e, r, v, true, 2 + 1) && Stands(Step(e, r), 1, 1, 2)
  {
    ChangesFires();
    hide HasItsLine, IsGolden, Straight, Fires, Step, StraightTable, Within, Lives, FaultInstructionHook, Living,
         AtTheHook, Walk, FaultDispatch, RestoresCheckpoint, Accepts, RevertOf, Fired, Stands, Finish;
    var e, trace, lines := StraightEnv(3, 4), Walk(4), StraightTable(4);
    var at, w := Site(1, 1), Within(e, FromStart, trace, CHANGES, lines, [], 1);
    ReversionThere(e, trace[1]);
    v := RevertOf(e, trace[1], CHANGES, at);
    LineFaultLives(e, FromStart, trace, CHANGES, lines, []);
    InstructionStep(e, FromStart, trace, CHANGES, lines, [], 1);
    SiteIsLine(e, FromStart, trace, CHANGES, lines, [], 1);
    FaultIsMade(e, FromStart, w, at);
    HookIsReached(e, w, at);
    InstructionFires(e, FromStart, w, at);
    FaultLives(e, FromStart, w, at);
    ChangesIt(e, w, at, v);
  }

  lemma {:induction false} ReversionThere(e: Env, c: Cpu)
    requires e == StraightEnv(3, 4) && c == Cpu2(1, 0)
    ensures var v := RevertOf(e, c, CHANGES, Site(1, 1));
            v.line == 1 && v.count == 2 && v.hook == 12 && v.original == [0] && v.fault.address == 1
  {
    WritesByte(1, 0, 0, 0);
  }

  lemma {:induction false} HookIsReached(e: Env, w: Run, at: Site)
    requires AtTheHook(e, FromStart, w, at)
    ensures w.inRange && w.control.Going? && w.count == w.trail.passed + 1
  {
    hide SetupHooks;
  }

  lemma {:induction false} StandsAlive(e: Env, r: Run, v: Reversion, budget: nat, n: nat, pc: nat, count: nat,
                                       live: nat)
    requires Lives(e, r, v, true, budget) && Stands(Steps(e, r, n), pc, count, live)
    ensures GoesOn(e, Steps(e, r, n), budget) && Living(e, Steps(e, r, n), v, StaysInRange(e, r, n))
  {
    hide Steps, HasFaulted, Follows, StaysInRange;
    LivesSteps(e, r, v, budget, n);
  }

  lemma {:induction false} StandsOn(r: Run, v: Reversion, n: nat, pc: nat, count: nat, live: nat)
    requires var e := StraightEnv(3, 4);
             Lives(e, r, v, true, 3) && v.hook == 12 && Stands(Steps(e, r, n), pc, count, live)
    requires 1 <= pc <= 3
    ensures var e := StraightEnv(3, 4);
            Steps(e, r, n + 1) == Finish(e, RevertInstructionHook(e, Counted(e, Steps(e, r, n)),
                                                                  SiteOf(e.p, Steps(e, r, n).cpu)))
  {
    var e := StraightEnv(3, 4);
    assert IsOrdinary(e, pc) && Pc(e.p, Cpu2(pc, 0)) == pc by { GoesStraight(3, 4, pc, 0); }
    hide Lives, Living, GoesOn, Finish, Counted, StraightEnv, IsOrdinary, Pc, StaysInRange;
    StandsAlive(e, r, v, 3, n, pc, count, live);
    LivingStepIs(e, Steps(e, r, n), v, StaysInRange(e, r, n), 3);
  }

  /** Past its revert, out of range. */
  ghost predicate IsPast(e: Env, r: Run, pc: nat) {
    && GoesOn(e, r, 3) && |r.hooks| == 13 && r.hooks[12].deletions > 0 && r.cpu == CpuWith(pc, 5, 0)
    && r.count == r.trail.passed == 2 && !r.inRange && r.phase.Running?
  }

  lemma {:induction false} PastTheRestart(e: Env, s: Run)
    requires e == StraightEnv(3, 4) && (GoesOn(e, s, 3) || IsOver(s, 3)) && |s.hooks| == 13 && s.hooks[12].deletions > 0
    requires RestartsOutside(s) && s.count == s.trail.passed == 2 && s.restartAddress == 3
    requires s.cpu == CpuWith(3, 5, 0) && s.phase.Stopped?
    ensures IsPast(e, Step(e, s), 3)
  {
    hide FaultedHooks, Straight, Dispatch;
    GoesFrom(3, 5, 0);
    RestartGoesOn(e, s, 3);
  }

  lemma {:induction false} RestartGoesOn(e: Env, s: Run, budget: nat)
    requires (GoesOn(e, s, budget) || IsOver(s, budget)) && s.phase.Stopped? && s.restart
    ensures GoesOn(e, Step(e, s), budget) && Step(e, s).phase.Running?
    ensures !s.state.Errored?
  {
    hide FaultedHooks, WritePc;
  }

  lemma {:induction false} PastGoesOn(e: Env, r: Run)
    requires e == StraightEnv(3, 4) && IsPast(e, r, 3)
    ensures IsPast(e, Step(e, r), 4)
  {
    hide HasFaulted, Dispatch, Straight, Adds, Visit;
    GoesFrom(3, 5, 0);
    MixedLifespans.IsGoing(e, r, 3);
    var at := SiteOf(e.p, r.cpu);
    StraightStops(r.cpu);
    FaultedPrefix(e, r, at);
    var r1 := Counted(e, r);
    assert r1 == r;
    OneVisit(e, r, at, 12);
    DeletedIsQuiet(e, r, at, 12);
    NothingBehind(e, r, at);
    FaultedStep(e, r, 3);
  }

  lemma {:induction false} DeletedIsQuiet(e: Env, r: Run, at: Site, i: nat)
    requires i < |r.hooks| && r.hooks[i].deletions > 0
    ensures Visit(e, r, at, i) == r
  {
  }

  lemma {:induction false} StraightStops(c: Cpu)
    ensures var e := StraightEnv(3, 4);
            && e.p.codeEnd == 4 && e.p.skips.Keys == {} && e.p.hardStops == {} && e.p.faultEnd == 3
            && SiteOf(e.p, c) == Site(Pc(e.p, c), 1)
  {
  }

  /** A revert that comes outside the fault range steps the count back, and nothing makes up for it: the
      run has gone past two in-range instructions, and when it ends it reports one. */
  lemma {:induction false} RestartOutsideDrifts()
    ensures var e, lines := StraightEnv(3, 4), StraightTable(4);
            && HasItsLine(e, Walk(4), CHANGES, lines) && !RepeatsSkip(CHANGES)
            && Mapped(Walk(4)[1], Pc(e.p, Walk(4)[1]), e.p.size(Walk(4)[1]))
            && var r := AfterFault(e, FromStart, Walk(4), CHANGES, lines, []);
               var s, end := Steps(e, r, 4), Steps(e, r, 8);
               && RestartsOutside(s) && s.count == s.trail.passed == 2
               && end.phase.Ended? && end.trail.passed == 2 && end.count == 1 && end.cpu == CpuWith(4, 5, 0)
  {
    hide HasItsLine, Walk, StraightTable, AfterFault, Lives, Stands, Finish, Counted, RevertInstructionHook, IsPast;
    var v := ChangedThere();
    var e := StraightEnv(3, 4);
    var r := AfterFault(e, FromStart, Walk(4), CHANGES, StraightTable(4), []);
    assert Steps(e, r, 1) == Step(e, Steps(e, r, 0)) == Step(e, r);
    hide Step, Steps;
    StandsOn(r, v, 1, 1, 1, 2);
    StandsNext(Steps(e, r, 1), 1, 1, 2);
    StandsOn(r, v, 2, 2, 2, 2);
    StandsNext(Steps(e, r, 2), 2, 2, 2);
    StandsOn(r, v, 3, 3, 3, 1);
    SiteThere(e, r, v);
    RevertsOutside(Steps(e, r, 3));
    EndsPast(e, r, v);
    LineIsMapped();
  }

  lemma {:induction false} LineIsMapped()
    ensures |Walk(4)| == 5 && Walk(4)[1] == Cpu2(1, 0)
    ensures Mapped(Walk(4)[1], Pc(Straight(3, 4), Walk(4)[1]), Straight(3, 4).size(Walk(4)[1]))
  {
    GoesFrom(1, 0, 0);
    WritesByte(1, 0, 0, 0);
    hide Memory, Adds;
  }

  lemma {:induction false} SiteThere(e: Env, r: Run, v: Reversion)
    requires e == StraightEnv(3, 4) && Lives(e, r, v, true, 3) && Stands(Steps(e, r, 3), 3, 3, 1)
    requires v.original == [0] && v.fault.address == 1 && v.line == 1
    ensures var s := Steps(e, r, 3);
            s.rule.lifespan.originalBytes == [0] && LineAt(s.lines, 1).address == 1
  {
    hide Lives, Steps, GoesOn, StaysInRange;
    StandsAlive(e, r, v, 3, 3, 3, 3, 1);
  }

  lemma {:induction false} EndsPast(e: Env, r: Run, v: Reversion)
    requires e == StraightEnv(3, 4) && Lives(e, r, v, true, 3) && v.hook == 12
    requires var s := Steps(e, r, 4);
             && RestartsOutside(s) && s.count == s.trail.passed == 2 && s.restartAddress == 3 && s.trail.drift == -1
             && s.cpu == CpuWith(3, 5, 0) && s.phase.Stopped?
    ensures var end := Steps(e, r, 8);
            end.phase.Ended? && end.trail.passed == 2 && end.count == 1 && end.cpu == CpuWith(4, 5, 0)
  {
    hide Step, Lives, GoesOn, IsOver, Straight;
    var s := Steps(e, r, 4);
    LivesSteps(e, r, v, 3, 4);
    RestartIsReverted(e, s, v, StaysInRange(e, r, 4));
    PastTheRestart(e, s);
    PastGoesOn(e, Step(e, s));
    var t := Step(e, Step(e, s));
    assert t == Steps(e, r, 6);
    assert Pc(e.p, t.cpu) == e.p.codeEnd by { GoesFrom(4, 5, 0); StraightStops(t.cpu); }
    EndsHere(e, t, 3);
    StepsAdd(e, r, 6, 2);
  }

  lemma {:induction false} RestartIsReverted(e: Env, s: Run, v: Reversion, exact: bool)
    requires Lives(e, s, v, exact, 3) && v.hook == 12 && s.restart && s.phase.Stopped? && s.trail.drift == -1
    ensures (GoesOn(e, s, 3) || IsOver(s, 3)) && |s.hooks| == 13 && s.hooks[12].deletions > 0
  {
    hide HasFaulted, LineAt;
  }

  // ----- a 64-bit ARM core -----

  /** Two instructions of four bytes and the end address; the second instruction is line 1. */
  ghost const ARM64 := Program(Arch.Arm64, false, 0, 0, 8, 4, 9, {}, map[], STACK, MAIN, [], Cpu2(0, 0),
                               (c: Cpu) => Adds(4, c), _ => 4, HashContext, HashBytes)

  const ARM_TRACE := [Cpu2(0, 0), Cpu2(4, 0), Cpu2(8, 0)]

  /** The recorded table: line 1 is flagged, and its address has its low bit set. */
  ghost const ARM_TABLE := [BLANK_LINE, Line(5, 4, 1, true, Some(Save(ARM64, Cpu2(4, 0)))), BLANK_LINE]

  ghost const ARM_ENV := Env(ARM64, FaultMode, true, false)

  lemma {:induction false} ArmGoesOn(pc: nat)
    requires pc < 2 * PAGE
    ensures ARM64.exec(Cpu2(pc, 0)) == Next(Cpu2(pc + 4, 0)) && Pc(ARM64, Cpu2(pc, 0)) == pc
    ensures WritePc(ARM64, Cpu2(pc, 0), 0) == Cpu2(0, 0) && WritePc(ARM64, Cpu2(4, 0), 5) == Cpu2(5, 0)
  {
    AddsOn(4, pc, 0, 0);
    assert Cpu2(pc, 0).regs[0 := 0] == Cpu2(0, 0).regs;
    assert Cpu2(4, 0).regs[0 := 5] == Cpu2(5, 0).regs;
  }

  lemma {:induction false} ArmIsGolden()
    ensures IsGolden(ARM64, ARM_TRACE) && KeepsMapping(ARM64)
  {
    ArmGoesOn(0);
    ArmGoesOn(4);
    ArmGoesOn(8);
    hide WritePc;
    assert Advances(ARM64, ARM_TRACE[0], ARM_TRACE[1]) && Advances(ARM64, ARM_TRACE[1], ARM_TRACE[2]);
    ArmKeepsMapping();
  }

  lemma {:induction false} ArmKeepsMapping()
    ensures KeepsMapping(ARM64)
  {
    forall x: nat ensures x in ARM64.image.mem <==> IsMapped(ARM64, x) {
    }
  }

  lemma {:induction false} ArmLines()
    ensures !IsLine(ARM64, ARM_TRACE, 0) && IsLine(ARM64, ARM_TRACE, 1) && LinesBefore(ARM64, ARM_TRACE, 1) == 0
  {
    ArmGoesOn(0);
    ArmGoesOn(4);
    assert LinesBefore(ARM64, ARM_TRACE, 0) == 0 && !FlagAfter(ARM64, ARM_TRACE, 0) && FlagAfter(ARM64, ARM_TRACE, 1);
  }

  lemma {:induction false} ArmIsFlagged()
    ensures FlaggedAt(ARM_ENV, ARM_TRACE, SetRule(FOR_EVER), ARM_TABLE, 1)
  {
    ArmIsGolden();
    ArmLines();
    ArmGoesOn(4);
    hide IsGolden, KeepsMapping, IsLine, LinesBefore, Save;
    forall t | 0 <= t < Last(ARM_TRACE) && IsLine(ARM64, ARM_TRACE, t) ensures t == 1 {
    }
    assert IsRecorded(ARM_ENV, ARM_TRACE, ARM_TABLE);
  }

  /** The checkpoint at line 1 is restored one byte too high: the fault-free run is at address 4 there,
      and the restored run goes on at address 5. */
  lemma {:induction false} ArmRestoresTooHigh()
    ensures FlaggedAt(ARM_ENV, ARM_TRACE, SetRule(FOR_EVER), ARM_TABLE, 1) && !Resumable(ARM64, ARM_TRACE[1])
    ensures Pc(ARM64, ARM_TRACE[1]) == 4
    ensures var r := Steps(ARM_ENV, Launched(ARM_ENV, SetRule(FOR_EVER), ARM_TABLE, []), 2);
            r.phase.Running? && r.cpu == Cpu2(5, 0) && Pc(ARM64, r.cpu) == 5
  {
    ArmIsFlagged();
    ArmGoesOn(4);
    ArmGoesOn(5);
    hide FlaggedAt, Steps, Launched, Save;
    RestoresCheckpointInTwo(ARM_ENV, ARM_TRACE, SetRule(FOR_EVER), ARM_TABLE, [], 1);
  }

  /** A skip of the instruction at address 4 goes on at address 9. */
  lemma {:induction false} ArmSkipsTooFar()
    ensures Pc(ARM64, Cpu2(4, 0)) == 4 && ARM64.size(Cpu2(4, 0)) == 4
    ensures LaterTests.SkippedCpu(ARM64, Cpu2(4, 0), SiteOf(ARM64, Cpu2(4, 0))) == Cpu2(9, 0)
  {
    ArmGoesOn(4);
    assert Cpu2(4, 0).regs[0 := 9] == Cpu2(9, 0).regs;
  }

  // ----- a 32-bit ARM core in Thumb state -----

  ghost const ARM32 := ARM64.(arch := Arch.Arm32)

  /** An instruction fault is repeated at a Thumb instruction of four bytes: the run is resumed in ARM state. */
  lemma {:induction false} WideThumbLosesState()
    ensures var c := Cpu2(4, 0).(thumb := true);
            && Pc(ARM32, c) == 4 && ARM32.size(c) == 4 && Repeats.RepeatAddress(ARM32, c) == 4
            && WritePc(ARM32, c, 4) == Cpu2(4, 0) && !Cpu2(4, 0).thumb
  {
    ArmGoesOn(4);
    assert Cpu2(4, 0).regs[0 := 4] == Cpu2(4, 0).regs;
  }

  // ----- a rule range that starts at line 0 -----

  /** Lines 0 to 1 are to be faulted, with one checkpoint, placed evenly: it is placed on line 0, which
      is not a line. */
  lemma {:induction false} PlacedOnLineZero(place: nat -> nat)
    requires PlacesFor(place, x => x, 1, 0, 1)
    ensures IsEase(x => x) && place(1) == 0
  {
    assert Share(1, 1) == 0.5 && Lines(0.5, 2) == 1;
  }

  /** The table then names line 0 as the nearest checkpoint of every line.  That is not the sentinel, so
      every run restores; and it restores from entry 0 of the table, which nothing has written: the
      process ends, unless the entry happens to hold a flag and a snapshot. */
  lemma {:induction false} RestoresLineZero(e: Env, r: Run)
    requires e.mode.FaultMode? && e.fromCheckpoint && r.rule.isSet && r.state.NoneRs?
    requires LineAt(r.lines, r.rule.instruction).nearest == 0
    ensures RestoresCheckpoint(e, r.rule, r.lines) && (r.control.Going? ==>
              (AtStartAddress(e, r).control.Aborted? <==>
               LineAt(r.lines, 0).snapshot.None? || !LineAt(r.lines, 0).checkpoint))
  {
    hide Load, SetHandle;
  }

  // ----- adding bytes -----

  /** Adding 1 to the bytes of 255 gives those of 0, not those of 256: the carry is lost. */
  lemma {:induction false} AdditionLosesCarry()
    ensures var bytes := [255, 0];
            && FaultBytes(1, Operation.Add, bytes) == [0, 0] && LittleEndian(FaultBytes(1, Operation.Add, bytes)) == 0
            && Truncate(LittleEndian(bytes) + Truncate(1, 2), 2) == 256
  {
    assert FaultBytes(0, Operation.Add, [0]) == [0];
    assert LittleEndian([255, 0]) == 255 + 256 * LittleEndian([0]);
    assert LittleEndian([0, 0]) == 0 + 256 * LittleEndian([0]);
    TruncateIsMod(1, 2);
    TruncateIsMod(256, 2);
  }

  // ----- a second opcode filter -----

  function FilteredXor(mnemonic: string): Enumeration.FilterFault {
    Enumeration.FilterFault(Some(mnemonic), [Enumeration.LifespanFault(FOR_EVER,
                                                                       [Enumeration.OperationFault(Xor, [1])])])
  }

  /** An instruction target with the filters add and sub: for a sub two runs are counted, and none is
      launched. */
  lemma {:induction false} SecondFilterIsIgnored()
    ensures var t := Enumeration.TargetFault(Instruction, false, {}, [FilteredXor("add"), FilteredXor("sub")]);
            var op := Enumeration.Opcode("sub", {});
            && Enumeration.Matches(FilteredXor("sub").filter, op) && !Enumeration.IsFull(t, op)
            && Enumeration.Launches(1, Enumeration.RangeFault(1, 1, [t]), op) == []
            && Enumeration.CountTargets([t]) == 2
  {
    var add, sub := FilteredXor("add"), FilteredXor("sub");
    var t, op := Enumeration.TargetFault(Instruction, false, {}, [add, sub]), Enumeration.Opcode("sub", {});
    assert "sub"[0] == 's' && "add"[0] == 'a';
    assert Enumeration.OccursAt("sub", "sub", 0);
    assert !Enumeration.Contains("sub", "add");
    TwoAreCounted(t);
  }

  lemma {:induction false} TwoAreCounted(t: Enumeration.TargetFault)
    requires t.target.Instruction? && t.filters == [FilteredXor("add"), FilteredXor("sub")]
    ensures Enumeration.CountTargets([t]) == 2
  {
    OneIsCounted("add");
    OneIsCounted("sub");
    var first := [FilteredXor("add")];
    assert t.filters[..1] == first && first[..0] == [];
    assert Enumeration.CountFilters(first) == Enumeration.CountFilters(first[..0]) + 1;
    assert Enumeration.CountFilters(t.filters) == Enumeration.CountFilters(t.filters[..1]) + 1;
    assert [t][..0] == [] && [t][0] == t;
  }

  lemma {:induction false} OneIsCounted(mnemonic: string)
    ensures Enumeration.CountLifespans(FilteredXor(mnemonic).lifespans) == 1
  {
    var operations := [Enumeration.OperationFault(Xor, [1])];
    assert operations[..0] == [] && Enumeration.CountOperations(operations) == 1;
    var lifespans := FilteredXor(mnemonic).lifespans;
    assert lifespans[..0] == [];
  }
}

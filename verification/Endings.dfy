/** What the result of a run says about where it ended. */
module Endings {
  import opened Utils
  import opened Machine
  import opened Equivalence
  import opened Hooks
  import opened GoldenRun
  import opened StatsRun
  import opened Aftermath
  import opened Injection
  import opened ExactlyOnce
  import opened MixedLifespans
  import opened LaterTests
  import opened FaultEffects

  /** The last instruction's outcome. */
  ghost predicate LastDid(e: Env, exec: Exec) {
    exists c: Cpu :: e.p.exec(c) == exec
  }

  /** The run's result, and what it means: the end address was reached after the fault; a hard stop was
      reached; the state was known; the last instruction was trapped; or the emulator left by itself. */
  ghost predicate EndsAs(e: Env, r: Run) {
    r.control.Aborted? ||
    match r.state
    case EndAddressAndFaulted => Pc(e.p, r.cpu) == e.p.codeEnd
    case HardStopped => Pc(e.p, r.cpu) in e.p.hardStops && Pc(e.p, r.cpu) != e.p.codeEnd
    case EquivalentRs => e.stopOnEquivalence
    case Errored => LastDid(e, Trap(r.cpu, ErrorTrap))
    case Interrupted => LastDid(e, Trap(r.cpu, InterruptTrap))
    case Faulted => LastDid(e, Leave(r.cpu))
    case _ => false
  }

  predicate HasStopped(r: Run) {
    r.phase.Ended? || (r.phase.Stopped? && !r.restart)
  }

  /** Without the equivalence test no hook for it is installed. */
  predicate NoTest(e: Env, r: Run) {
    !e.stopOnEquivalence && (r.phase.Running? || r.restart) ==> r.hk.equivalent == 0
  }

  ghost predicate GoesWell(e: Env, r: Run, budget: nat) {
    IsFaulted(e, r, budget) && (HasStopped(r) ==> EndsAs(e, r)) && NoTest(e, r)
  }

  lemma {:induction false} OverIsNotPending(e: Env, r: Run, budget: nat)
    requires IsFaulted(e, r, budget) && r.phase.Stopped? && r.restart
    ensures !r.state.Errored?
  {
    hide FaultedHooks;
  }

  /** A dispatch that gets to the hooks behind the counting hook. */
  lemma {:induction false} FinishEnds(e: Env, x: Run, d: Run)
    requires LaterEffect(e, x, d) && x.phase.Running? && HasFaulted(e, x)
    requires d.control.StopRequested? && !d.restart ==> e.stopOnEquivalence
    ensures HasStopped(Finish(e, d)) ==> EndsAs(e, Finish(e, d))
  {
    hide FaultedHooks;
    assert d.control.Going? ==> LastDid(e, e.p.exec(d.cpu));
  }

  lemma {:induction false} ThereEnds(e: Env, r: Run, budget: nat)
    requires GoesWell(e, r, budget) && GetsThere(e, r)
    ensures (HasStopped(Step(e, r)) ==> EndsAs(e, Step(e, r))) && NoTest(e, Step(e, r))
  {
    hide IsFaulted, HasFaulted, Dispatch, Finish, LaterEffect, EndsAs, IsOrdinary, Counted, HasStopped;
    Reaches(e, r, budget);
    var x, at := Counted(e, r), SiteOf(e.p, r.cpu);
    HooksAreTwelve(e, x);
    LaterDispatch(e, x, at, 12);
    var d := Dispatch(e, x, at, 12);
    FinishKeeps(e, d);
    if !e.stopOnEquivalence {
      LifespanDispatch(e, x, at, 12);
      StopsOnlyKnown(e, x, d);
    }
    FinishEnds(e, x, d);
  }

  lemma {:induction false} HooksAreTwelve(e: Env, r: Run)
    requires HasFaulted(e, r)
    ensures |r.hooks| >= 12 && r.state.Faulted?
  {
    hide SetupHooks;
  }

  lemma {:induction false} StopsOnlyKnown(e: Env, x: Run, d: Run)
    requires LaterEffect(e, x, d) && d.state.Faulted?
    ensures d.control.StopRequested? ==> d.restart
  {
    hide HasFaulted;
  }

  lemma {:induction false} OtherEnds(e: Env, r: Run, budget: nat)
    requires GoesWell(e, r, budget) && !GetsThere(e, r)
    ensures (HasStopped(Step(e, r)) ==> EndsAs(e, Step(e, r))) && NoTest(e, Step(e, r))
  {
    hide IsFaulted, LastDid, AtSkip;
    StepOver(e, r, budget);
    if r.phase.Stopped? && r.restart {
      OverIsNotPending(e, r, budget);
    }
    AfterKeepsControl(e, r);
    hide Step;
  }

  lemma {:induction false} AfterKeepsControl(e: Env, r: Run)
    ensures r.phase.Stopped? && !r.restart ==> Step(e, r).control == r.control && Step(e, r).hk == r.hk
  {
  }

  lemma {:induction false} EndsSteps(e: Env, r: Run, budget: nat, n: nat)
    requires GoesWell(e, r, budget)
    ensures GoesWell(e, Steps(e, r, n), budget)
  {
    hide IsFaulted, Step, EndsAs, GetsThere, NoTest, HasStopped;
    if n > 0 {
      EndsSteps(e, r, budget, n - 1);
      var s := Steps(e, r, n - 1);
      StaysFaulted(e, s, budget);
      if GetsThere(e, s) {
        ThereEnds(e, s, budget);
      } else {
        OtherEnds(e, s, budget);
      }
    }
  }

  // ----- from the fault -----

  lemma {:induction false} DoneEnds(e: Env, r: Run, c: Cpu)
    requires HasDone(r, e.p.exec(c))
    ensures HasStopped(r) ==> EndsAs(e, r)
  {
    assert LastDid(e, e.p.exec(c));
  }

  lemma {:induction false} BeginsWell(e: Env, c: Cpu, rule: FaultRule, r: Run)
    requires Begins(e.p, c, rule, r)
    ensures !HasStopped(r)
  {
    hide ChangedCpu, SkippedCpu;
  }

  lemma {:induction false} EquivalentEnds(e: Env, r: Run)
    requires r.state.EquivalentRs? && e.stopOnEquivalence
    ensures EndsAs(e, r)
  {
  }

  lemma {:induction false} FaultGoesWell(e: Env, o: Origin, trace: seq<Cpu>, rule: FaultRule, lines: seq<Line>,
                                         classes: seq<Class<FaultRule>>)
    requires HasItsLine(e, trace, rule, lines) && Accepts(rule)
    requires o.Restored? || !RestoresCheckpoint(e, rule, lines)
    ensures GoesWell(e, AfterFault(e, o, trace, rule, lines, classes), RestartBudget(o, rule))
  {
    hide HasItsLine, RestoresCheckpoint, AfterFault, FaultDispatch, IsFaulted, TestWaits, EndsAs, HasStopped, Accepts,
         Begins, HasDone, LastsForEver;
    var r := AfterFault(e, o, trace, rule, lines, classes);
    FiresThereOnly(e, trace, rule, lines);
    var c := trace[FaultDispatch(e, trace, rule, lines)];
    if rule.target.Register? {
      RegisterFaultDoes(e, o, trace, rule, lines, classes);
      IsFaultedThere(e, o, trace, rule, lines, classes);
      if r.state.EquivalentRs? {
        EquivalentEnds(e, r);
      } else if rule.number == e.p.pcReg {
        assert !HasStopped(r) by { RunningHasNotStopped(r); }
      } else {
        DoneEnds(e, r, c.(regs := c.regs[rule.number
                                         := FaultReg(rule.mask, rule.operation, ReadReg(c, rule.number),
                                                           e.p.size(c)).value]));
      }
    } else {
      FaultBegins(e, o, trace, rule, lines, classes);
      BeginsWell(e, c, rule, r);
    }
  }

  lemma {:induction false} IsFaultedThere(e: Env, o: Origin, trace: seq<Cpu>, rule: FaultRule, lines: seq<Line>,
                                          classes: seq<Class<FaultRule>>)
    requires HasItsLine(e, trace, rule, lines) && Accepts(rule)
    requires o.Restored? || !RestoresCheckpoint(e, rule, lines)
    ensures IsFaulted(e, AfterFault(e, o, trace, rule, lines, classes), RestartBudget(o, rule))
  {
    hide RestoresCheckpoint, Before, Step, Accepts, IsGolden, IsRecorded, Fires, GoesOn, IsOver;
    FiresThereOnly(e, trace, rule, lines);
    LineInjects(e, o, trace, rule, lines, classes, FaultDispatch(e, trace, rule, lines));
  }

  lemma {:induction false} RunningHasNotStopped(r: Run)
    requires r.phase.Running?
    ensures !HasStopped(r)
  {
  }

  /** A fault run's result says where it ended: whatever the faulted program does, an ended run that the tool
      did not abort is at the end address, at a hard stop, in a state known before, or at an instruction that
      was trapped or left the emulator. */
  lemma {:induction false} FaultRunEndsAs(e: Env, o: Origin, trace: seq<Cpu>, rule: FaultRule, lines: seq<Line>,
                                          classes: seq<Class<FaultRule>>, n: nat)
    requires HasItsLine(e, trace, rule, lines) && Accepts(rule)
    requires o.Restored? || !RestoresCheckpoint(e, rule, lines)
    ensures var r := Steps(e, AfterFault(e, o, trace, rule, lines, classes), n);
            r.phase.Ended? ==> EndsAs(e, r)
  {
    hide HasItsLine, RestoresCheckpoint, AfterFault, Steps, EndsAs, Accepts, IsFaulted;
    FaultGoesWell(e, o, trace, rule, lines, classes);
    EndsSteps(e, AfterFault(e, o, trace, rule, lines, classes), RestartBudget(o, rule), n);
  }

  // ----- runs that are not fault runs -----

  lemma {:induction false} HandlesKeepState()
    ensures forall r: Run, kind :: Remove(r, kind).state == r.state && RemoveIfSet(r, kind).state == r.state
    ensures forall r: Run, kind, where :: Install(r, kind, where).state == r.state
  {
    hide SetHandle, HandleOf;
  }

  lemma {:induction false} RegisterNeverHardStops(e: Env, r: Run, at: Site)
    requires !r.state.HardStopped?
    ensures !FaultRegisterHook(e, r, at).state.HardStopped?
  {
    hide WritePc, WriteMem, ReadMem, FaultBytes, FaultReg, StateHashes, Known, Record, Remove, RemoveIfSet, Install;
    HandlesKeepState();
  }

  lemma {:induction false} InstructionNeverHardStops(e: Env, r: Run, at: Site)
    requires !r.state.HardStopped?
    ensures !FaultInstructionHook(e, r, at).state.HardStopped?
  {
    hide WritePc, WriteMem, ReadMem, FaultBytes, FaultReg, StateHashes, Known, Record, Remove, RemoveIfSet, Install;
    HandlesKeepState();
  }

  lemma {:induction false} SkipNeverHardStops(e: Env, r: Run, at: Site)
    requires !r.state.HardStopped?
    ensures !FaultIPHook(e, r, at).state.HardStopped? && !FaultAddressHook(r, at).state.HardStopped?
  {
    hide WritePc, WriteMem, ReadMem, FaultBytes, FaultReg, StateHashes, Known, Record, Remove, RemoveIfSet, Install;
    HandlesKeepState();
  }

  lemma {:induction false} RegisterLifespansNeverHardStop(e: Env, r: Run, at: Site)
    requires !r.state.HardStopped?
    ensures !RevertRegisterHook(e, r, at).state.HardStopped? && !RepeatRegisterHook(e, r, at).state.HardStopped?
    ensures !CheckEquivalent(e, r).state.HardStopped?
  {
    hide WritePc, FaultReg, StateHashes, Known, Record, Remove, RemoveIfSet, Install, LifespanNotStarted;
    HandlesKeepState();
  }

  lemma {:induction false} RevertNeverHardStops(e: Env, r: Run, at: Site)
    requires !r.state.HardStopped?
    ensures !RevertInstructionHook(e, r, at).state.HardStopped?
  {
    hide WritePc, WriteMem, ReadMem, FaultBytes, FaultReg, StateHashes, Known, Record, Remove, RemoveIfSet, Install;
    HandlesKeepState();
  }

  lemma {:induction false} RepeatNeverHardStops(e: Env, r: Run, at: Site)
    requires !r.state.HardStopped?
    ensures !RepeatInstructionHook(e, r, at).state.HardStopped?
  {
    hide WritePc, WriteMem, ReadMem, FaultBytes, FaultReg, StateHashes, Known, Record, Remove, RemoveIfSet, Install;
    HandlesKeepState();
  }

  lemma {:induction false} RepeatSkipNeverHardStops(e: Env, r: Run, at: Site)
    requires !r.state.HardStopped?
    ensures !RepeatIPHook(e, r, at).state.HardStopped?
  {
    hide WritePc, WriteMem, ReadMem, FaultBytes, FaultReg, StateHashes, Known, Record, Remove, RemoveIfSet, Install;
    HandlesKeepState();
  }

  lemma {:induction false} RangeNeverHardStops(e: Env, r: Run, at: Site)
    requires !r.state.HardStopped?
    ensures !AtStartAddress(e, r).state.HardStopped? && !AtEndAddress(r).state.HardStopped?
    ensures !AtSkip(e, r, at).state.HardStopped? && !AtStartFaults(r).state.HardStopped?
    ensures !AtStopFaults(r).state.HardStopped? && !RecordLine(e, r, at).state.HardStopped?
    ensures !Count(r).state.HardStopped?
  {
    hide WritePc, Load, Remove, RemoveIfSet, Install, RecordedLine;
    HandlesKeepState();
  }

  lemma {:induction false} VisitNeverHardStops(e: Env, r: Run, at: Site, i: nat)
    requires !e.mode.FaultMode? && i < |r.hooks| && !r.state.HardStopped?
    ensures !Visit(e, r, at, i).state.HardStopped?
  {
    hide AtSkip, AtEndAddress, AtStartAddress, AtStartFaults, AtStopFaults, Count, RecordLine, FaultAddressHook,
         FaultRegisterHook, FaultInstructionHook, FaultIPHook, RevertRegisterHook, RepeatRegisterHook,
         RevertInstructionHook, RepeatInstructionHook, RepeatIPHook, CheckEquivalent;
    RangeNeverHardStops(e, r, at);
    RegisterNeverHardStops(e, r, at);
    InstructionNeverHardStops(e, r, at);
    SkipNeverHardStops(e, r, at);
    RegisterLifespansNeverHardStop(e, r, at);
    RevertNeverHardStops(e, r, at);
    RepeatNeverHardStops(e, r, at);
    RepeatSkipNeverHardStops(e, r, at);
  }

  lemma {:induction false} DispatchNeverHardStops(e: Env, r: Run, at: Site, i: nat)
    requires !e.mode.FaultMode? && i <= |r.hooks| && !r.state.HardStopped?
    ensures !Dispatch(e, r, at, i).state.HardStopped?
    decreases Pending(r.hooks, i)
  {
    hide Visit;
    if i < |r.hooks| && r.control.Going? {
      VisitNeverHardStops(e, r, at, i);
      VisitDecreases(e, r, at, i);
      if Visit(e, r, at, i).control.Going? {
        DispatchNeverHardStops(e, Visit(e, r, at, i), at, i + 1);
      }
    }
  }

  /** A counting or stats run is never stopped by a hard stop, on any program. */
  lemma {:induction false} OnlyFaultRunsHardStop(e: Env, rule: FaultRule, lines: seq<Line>,
                                                 classes: seq<Class<FaultRule>>, n: nat)
    requires !e.mode.FaultMode?
    ensures !Steps(e, Launched(e, rule, lines, classes), n).state.HardStopped?
  {
    hide Dispatch, Finish, AfterSegment, SetupHooks, WritePc;
    if n > 0 {
      OnlyFaultRunsHardStop(e, rule, lines, classes, n - 1);
      var r := Steps(e, Launched(e, rule, lines, classes), n - 1);
      if r.phase.Running? {
        DispatchNeverHardStops(e, r, SiteOf(e.p, r.cpu), 0);
      }
      FinishNeverHardStops(e, r);
      FinishNeverHardStops(e, Dispatch(e, r, SiteOf(e.p, r.cpu), 0));
    }
  }

  lemma {:induction false} FinishNeverHardStops(e: Env, r: Run)
    ensures !r.state.HardStopped? ==> !Finish(e, r).state.HardStopped? && !AfterSegment(e, r).state.HardStopped?
  {
  }
}

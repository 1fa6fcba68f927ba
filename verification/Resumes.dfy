/** Where a run goes on after the tool stopped it to change an instruction. */
module Resumes {
  import opened Utils
  import opened Machine
  import opened Equivalence
  import opened Hooks
  import opened GoldenRun
  import opened Snapshots
  import opened Aftermath
  import opened Injection
  import opened ExactlyOnce
  import opened MixedLifespans
  import opened LaterTests
  import opened Lifespans

  // ----- the restart -----

  /** The restart loop resumes at the address it was given. */
  lemma {:induction false} ResumesThere(e: Env, r: Run, budget: nat)
    requires IsFaulted(e, r, budget) && r.phase.Stopped? && r.restart
    ensures var s := Step(e, r);
            s.cpu == WritePc(e.p, r.cpu, r.restartAddress) && s.phase.Running? && !s.restart && s.control.Going?
  {
    hide FaultedHooks, WritePc;
  }

  /** Resuming with other bytes in memory is exact if and only if resuming is. */
  lemma {:induction false} MemoryIsFree(p: Program, c: Cpu, d: Cpu, a: nat)
    requires d.regs == c.regs && d.thumb == c.thumb
    ensures WritePc(p, d, a) == d <==> WritePc(p, c, a) == c
    ensures Pc(p, d) == Pc(p, c)
  {
  }

  lemma {:induction false} WriteKeepsRegisters(c: Cpu, a: nat, bytes: Bytes)
    ensures WriteMem(c, a, bytes).regs == c.regs && WriteMem(c, a, bytes).thumb == c.thumb
  {
  }

  // ----- the fault -----

  /** After an instruction fault the run goes on with the faulted bytes in memory, and otherwise as it was,
      if and only if its CPU is resumable: then the faulted instruction is dispatched next. */
  lemma {:induction false} FaultResumes(e: Env, o: Origin, trace: seq<Cpu>, rule: FaultRule, lines: seq<Line>,
                                        classes: seq<Class<FaultRule>>)
    requires HasItsLine(e, trace, rule, lines) && Accepts(rule) && rule.target.Instruction?
    requires o.Restored? || !RestoresCheckpoint(e, rule, lines)
    ensures var c := trace[FaultDispatch(e, trace, rule, lines)];
            var bytes := FaultBytes(rule.mask, rule.operation, ReadMem(c, Pc(e.p, c), e.p.size(c)));
            var s := Step(e, AfterFault(e, o, trace, rule, lines, classes));
            && s.phase.Running? && (s.cpu == WriteMem(c, Pc(e.p, c), bytes) <==> Resumable(e.p, c))
            && (Resumable(e.p, c) ==> Pc(e.p, s.cpu) == Pc(e.p, c) && s.cpu.thumb == c.thumb)
  {
    FiresThereOnly(e, trace, rule, lines);
    hide HasItsLine, RestoresCheckpoint, AfterFault, FaultDispatch, Step, FaultBytes, ReadMem, WriteMem, IsFaulted,
         TestWaits, WritePc, Pc;
    var r, c := AfterFault(e, o, trace, rule, lines, classes), trace[FaultDispatch(e, trace, rule, lines)];
    FaultBegins(e, o, trace, rule, lines, classes);
    ResumesThere(e, r, RestartBudget(o, rule));
    var bytes := FaultBytes(rule.mask, rule.operation, ReadMem(c, Pc(e.p, c), e.p.size(c)));
    WriteKeepsRegisters(c, Pc(e.p, c), bytes);
    MemoryIsFree(e.p, c, r.cpu, ThumbAddress(e.p, Pc(e.p, c)));
  }

  // ----- the revert -----

  /** What the revert leaves when it comes. */
  lemma {:induction false} RevertLeaves(e: Env, r: Run, at: Site, v: Reversion)
    requires Follows(e, r, v) && r.rule.lifespan.originalBytes == v.original && r.hk.faultIt == 0
    ensures var s := RevertInstructionHook(e, r, at);
            s.restart && !r.restart ==>
              s.cpu == WriteMem(r.cpu, v.fault.address, v.original) && s.restartAddress == ThumbAddress(e.p, at.address)
  {
    hide WriteMem;
  }

  lemma {:induction false} RevertingDispatch(e: Env, r: Run, at: Site, v: Reversion, was: nat, exact: bool)
    requires AboutToLive(e, r, v, was, exact) && FaultedHooks(e, r.hooks, r.hk)
    ensures var d := Dispatch(e, r, at, 12);
            d.restart ==> d.control.StopRequested? && d.cpu == WriteMem(r.cpu, v.fault.address, v.original)
                          && d.restartAddress == ThumbAddress(e.p, at.address)
  {
    hide Visit, RevertInstructionHook, FaultedHooks, Dispatch, LineAt, WriteMem;
    OneVisit(e, r, at, 12);
    var r1 := if v.hook == 12 then r else Visit(e, r, at, 12);
    if v.hook == 13 {
      EquivalentVisit(e, r, at, v, was, exact);
      TestKeepsCpu(e, r, at, v);
      if r1.control.Going? {
        OneVisit(e, r1, at, 13);
      } else {
        EndsThere(e, r1, at, 13);
      }
    }
    if r1.control.Going? {
      RevertVisit(e, r1, at, v, was, exact);
      RevertLeaves(e, r1, at, v);
      RevertCall(e, r1, at, v, was, exact);
      Lifespans.NothingBehind(e, RevertInstructionHook(e, r1, at), at);
    }
  }

  lemma {:induction false} TestKeepsCpu(e: Env, r: Run, at: Site, v: Reversion)
    requires Follows(e, r, v) && v.hook == 13
    ensures Visit(e, r, at, 12).cpu == r.cpu
  {
    hide StateHashes, Record, Known, LineAt, SetHandle, HandleOf;
  }

  /** The step that reverts, and the turn of the restart loop after it. */
  lemma {:induction false} RevertStepResumes(e: Env, r: Run, v: Reversion, exact: bool, budget: nat)
    requires Living(e, r, v, exact) && GoesOn(e, r, budget) && |Step(e, r).trail.writes| == 2
    ensures r.phase.Running?
    ensures var s := Step(e, Step(e, r));
            s.phase.Running? && s.cpu == WritePc(e.p, WriteMem(r.cpu, v.fault.address, v.original),
                                                 ThumbAddress(e.p, Pc(e.p, r.cpu)))
  {
    LivingLog(e, r, v, exact);
    hide Living, HasFaulted, FaultedHooks, Dispatch, Finish, FlagAt, WriteMem, WritePc;
    StoppedKeepsLog(e, r);
    NotThereKeepsLog(e, r, budget);
    var at := SiteOf(e.p, r.cpu);
    StaysFaulted(e, r, budget);
    Reaches(e, r, budget);
    var x := Counted(e, r);
    CountsForLiving(e, r, v, exact, budget, FlagAt(e, r.inRange, at.address));
    LivingDispatch(e, x, at, v, r.count, exact);
    RevertingDispatch(e, x, at, v, r.count, exact);
    var d := Dispatch(e, x, at, 12);
    LogsOnly(e, d);
    StopFinishes(e, d);
    ResumesThere(e, Step(e, r), budget);
  }

  lemma {:induction false} LivingLog(e: Env, r: Run, v: Reversion, exact: bool)
    requires Living(e, r, v, exact)
    ensures r.trail.writes == [v.fault]
  {
  }

  lemma {:induction false} StoppedKeepsLog(e: Env, r: Run)
    ensures !r.phase.Running? ==> Step(e, r).trail.writes == r.trail.writes
  {
    hide WritePc;
  }

  lemma {:induction false} NotThereKeepsLog(e: Env, r: Run, budget: nat)
    requires GoesOn(e, r, budget)
    ensures r.phase.Running? && !GetsThere(e, r) ==> Step(e, r).trail.writes == r.trail.writes
  {
    if r.phase.Running? && !GetsThere(e, r) {
      RunningHasFaulted(e, r, budget);
      hide HasFaulted, Dispatch, AtEndAddress, AtHardStop, AtSkip, Finish, GoesOn, FlagAt;
      var at := SiteOf(e.p, r.cpu);
      FaultedPrefix(e, r, at);
      EndsKeepLog(e, r, at);
      EndsKeepLog(e, r.(inRange := FlagAt(e, r.inRange, at.address)), at);
      LogsOnly(e, Dispatch(e, r, at, 0));
    }
  }

  lemma {:induction false} EndsKeepLog(e: Env, r: Run, at: Site)
    ensures AtEndAddress(r).trail == AtHardStop(e, r).trail == AtSkip(e, r, at).trail == r.trail
  {
    hide SetHandle, HandleOf, WritePc;
  }

  lemma {:induction false} LogsOnly(e: Env, d: Run)
    ensures Finish(e, d).trail.writes == d.trail.writes
  {
  }

  /** A revert-n instruction fault: when the tool writes the original bytes back, the run goes on one turn of
      the restart loop later, with those bytes in memory and otherwise as it was when it was interrupted, if
      and only if its CPU then is resumable; the interrupted instruction is dispatched next. */
  lemma {:induction false} RevertResumes(e: Env, o: Origin, trace: seq<Cpu>, rule: FaultRule, lines: seq<Line>,
                                         classes: seq<Class<FaultRule>>, n: nat)
    requires HasItsLine(e, trace, rule, lines) && Accepts(rule) && RevertsInstruction(rule)
    requires o.Restored? || !RestoresCheckpoint(e, rule, lines)
    requires var faulted := AfterFault(e, o, trace, rule, lines, classes);
             |Steps(e, faulted, n).trail.writes| == 1 && |Steps(e, faulted, n + 1).trail.writes| == 2
    ensures var c, faulted := trace[FaultDispatch(e, trace, rule, lines)],
            AfterFault(e, o, trace, rule, lines, classes);
            var original := ReadMem(c, Pc(e.p, c), e.p.size(c));
            var r, s := Steps(e, faulted, n), Steps(e, faulted, n + 2);
            && r.phase.Running? && s.phase.Running?
            && (s.cpu == WriteMem(r.cpu, Pc(e.p, c), original) <==> Resumable(e.p, r.cpu))
            && (Resumable(e.p, r.cpu) ==> Pc(e.p, s.cpu) == Pc(e.p, r.cpu) && s.cpu.thumb == r.cpu.thumb)
  {
    FiresThereOnly(e, trace, rule, lines);
    assert rule.instruction > 0 && FaultsBytes(rule.operation);
    hide HasItsLine, RestoresCheckpoint, Before, FaultDispatch, Step, FaultBytes, ReadMem, WriteMem, WritePc, Pc,
         Living, Reverted, EndedAlive, StaysInRange, GoesOn, IsOver;
    var c, faulted := trace[FaultDispatch(e, trace, rule, lines)], AfterFault(e, o, trace, rule, lines, classes);
    var budget, v := RestartBudget(o, rule), RevertOf(e, c, rule, SiteOf(e.p, c));
    LineFaultLives(e, o, trace, rule, lines, classes);
    LivesSteps(e, faulted, v, budget, n);
    var r := Steps(e, faulted, n);
    StillLiving(e, r, v, StaysInRange(e, faulted, n), budget);
    RevertStepResumes(e, r, v, StaysInRange(e, faulted, n), budget);
    assert Steps(e, faulted, n + 2) == Step(e, Steps(e, faulted, n + 1));
    WriteKeepsRegisters(r.cpu, Pc(e.p, c), v.original);
    MemoryIsFree(e.p, r.cpu, WriteMem(r.cpu, Pc(e.p, c), v.original), ThumbAddress(e.p, Pc(e.p, r.cpu)));
  }

  lemma {:induction false} StillLiving(e: Env, r: Run, v: Reversion, exact: bool, budget: nat)
    requires Lives(e, r, v, exact, budget) && |r.trail.writes| == 1 && |Step(e, r).trail.writes| == 2
    ensures GoesOn(e, r, budget) && Living(e, r, v, exact)
  {
    hide Living, GoesOn, Dispatch, Finish, AfterSegment;
    if IsOver(r, budget) {
      OverStaysOver(e, r, budget);
    }
    if Reverted(e, r, v, exact) {
      RevertedLog(e, r, v, exact);
    }
  }

  lemma {:induction false} RevertedLog(e: Env, r: Run, v: Reversion, exact: bool)
    requires Reverted(e, r, v, exact)
    ensures |r.trail.writes| == 2
  {
  }
}

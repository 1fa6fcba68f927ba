/** The equivalence test of instruction faults and skips, which comes in the next dispatch that reaches it,
    and what runs without a lifespan come to. */
module LaterTests {
  import opened Utils
  import opened Machine
  import opened Hooks
  import opened Equivalence
  import opened GoldenRun
  import opened StatsRun
  import opened Aftermath
  import opened Injection
  import opened ExactlyOnce
  import opened Pruning
  import opened MixedLifespans
  import Lifespans
  import Segments

  /** What a run without hooks behind the counting hook goes by. */
  ghost predicate SameRun(r: Run, s: Run) {
    && r.cpu == s.cpu && r.phase == s.phase && r.state == s.state && r.restart == s.restart
    && (r.restart ==> r.restartAddress == s.restartAddress)
  }

  ghost predicate IsFaulted(e: Env, r: Run, budget: nat) {
    GoesOn(e, r, budget) || IsOver(r, budget)
  }

  /** The next dispatch gets to the hooks behind the counting hook. */
  predicate GetsThere(e: Env, r: Run) {
    r.phase.Running? && IsOrdinary(e, Pc(e.p, r.cpu))
  }

  // ----- a step that does not get there -----

  /** What the step comes to. */
  ghost predicate StepsOver(e: Env, r: Run, s: Run) {
    match r.phase
    case Running =>
      var a := Pc(e.p, r.cpu);
      !s.restart &&
      if a == e.p.codeEnd then s.cpu == r.cpu && s.phase.Stopped? && s.state.EndAddressAndFaulted?
      else if a in e.p.skips then s.cpu == AtSkip(e, r, SiteOf(e.p, r.cpu)).cpu && s.phase.Running? && s.state.Faulted?
      else s.cpu == r.cpu && s.phase.Stopped? && s.state.HardStopped?
    case Stopped =>
      s.state == r.state &&
      if r.restart && !r.state.Errored? then s.cpu == WritePc(e.p, r.cpu, r.restartAddress) && s.phase.Running?
        && !s.restart
      else s.cpu == r.cpu && s.phase.Ended? && SameRestart(r, s)
    case Ended => s == r
  }

  predicate SameRestart(r: Run, s: Run) {
    s.restart == r.restart && s.restartAddress == r.restartAddress
  }

  lemma {:induction false} EndsOver(e: Env, r: Run)
    requires r.state.Faulted? && e.mode.FaultMode?
    ensures var s := AtEndAddress(r);
            s.cpu == r.cpu && s.state.EndAddressAndFaulted? && s.control.StopRequested? && s.restart == r.restart
              && s.classes == r.classes
    ensures var s := AtHardStop(e, r);
            s.cpu == r.cpu && s.state.HardStopped? && s.control.StopRequested? && s.restart == r.restart
              && s.classes == r.classes
  {
    hide SetHandle, HandleOf;
  }

  lemma {:induction false} SkipsOver(e: Env, r: Run, at: Site)
    ensures var s := AtSkip(e, r, at);
            && s == r.(cpu := s.cpu, control := Skipped) && s.cpu.mem == r.cpu.mem
            && Finish(e, s) == r.(cpu := s.cpu, control := Going)
  {
  }

  lemma {:induction false} StopFinishes(e: Env, r: Run)
    requires r.control.StopRequested?
    ensures Finish(e, r) == r.(phase := Stopped)
  {
  }

  lemma {:induction false} StepOver(e: Env, r: Run, budget: nat)
    requires IsFaulted(e, r, budget) && !GetsThere(e, r)
    ensures var s := Step(e, r);
            && StepsOver(e, r, s) && s.classes == r.classes && s.cpu.mem == r.cpu.mem
            && (s.phase.Running? || !r.phase.Running? ==> s.hooks == r.hooks && s.hk == r.hk && s.rule == r.rule)
            && (s.state.EquivalentRs? <==> r.state.EquivalentRs?)
  {
    if r.phase.Running? {
      RunningHasFaulted(e, r, budget);
      hide HasFaulted, Dispatch, AtEndAddress, AtHardStop, AtSkip, Finish, GoesOn, IsOver, FlagAt;
      var at := SiteOf(e.p, r.cpu);
      var r1 := r.(inRange := FlagAt(e, r.inRange, at.address));
      FaultedPrefix(e, r, at);
      EndsOver(e, r);
      EndsOver(e, r1);
      SkipsOver(e, r, at);
      StopFinishes(e, AtEndAddress(r));
      StopFinishes(e, AtHardStop(e, r1));
    } else {
      hide HasFaulted;
    }
  }

  lemma {:induction false} RunningHasFaulted(e: Env, r: Run, budget: nat)
    requires IsFaulted(e, r, budget) && r.phase.Running?
    ensures GoesOn(e, r, budget) && HasFaulted(e, r) && r.state.Faulted? && e.mode.FaultMode? && r.control.Going?
    ensures !r.restart
  {
  }

  lemma {:induction false} StaysFaulted(e: Env, r: Run, budget: nat)
    requires IsFaulted(e, r, budget)
    ensures IsFaulted(e, Step(e, r), budget)
  {
    hide GoesOn, IsOver, Step;
    if GoesOn(e, r, budget) {
      FaultedStep(e, r, budget);
    } else {
      OverStaysOver(e, r, budget);
    }
  }

  /** Two runs of one program that do not get there stay the same. */
  lemma {:induction false} BothStepOver(e: Env, f: Env, r: Run, s: Run, br: nat, bs: nat)
    requires f.p == e.p && IsFaulted(e, r, br) && IsFaulted(f, s, bs) && SameRun(r, s) && !GetsThere(e, r)
    ensures SameRun(Step(e, r), Step(f, s))
  {
    StepOver(e, r, br);
    StepOver(f, s, bs);
    SkipsAlike(e, f, r, s);
    if r.phase.Running? {
      RunningHasFaulted(e, r, br);
      RunningHasFaulted(f, s, bs);
    }
    hide IsFaulted, Step, AtSkip;
  }

  lemma {:induction false} SkipsAlike(e: Env, f: Env, r: Run, s: Run)
    requires f.p == e.p && r.cpu == s.cpu
    ensures AtSkip(e, r, SiteOf(e.p, r.cpu)).cpu == AtSkip(f, s, SiteOf(f.p, s.cpu)).cpu
  {
  }

  // ----- a step that gets there, with nothing left behind the counting hook -----

  /** No lifespan hook and no equivalence hook is installed. */
  predicate NothingLeft(r: Run) {
    r.hk.lifespan == 0 && r.hk.equivalent == 0
  }

  /** The run after the instruction. */
  predicate HasDone(s: Run, exec: Exec) {
    && !s.restart && s.cpu == exec.cpu
    && match exec
       case Next(_) => s.phase.Running? && s.state.Faulted?
       case Leave(_) => s.phase.Stopped? && s.state.Faulted?
       case Trap(_, why) => s.phase.Stopped? && s.state == if why.ErrorTrap? then Errored else Interrupted
  }

  lemma {:induction false} NothingVisited(e: Env, r: Run, at: Site, i: nat)
    requires HasFaulted(e, r) && NothingLeft(r) && 12 <= i < |r.hooks|
    ensures Visit(e, r, at, i) == r
  {
    hide SetupHooks;
    assert r.hooks[i].deletions == 0 ==> IsLater(r.hooks[i].kind) && HandleOf(r.hk, r.hooks[i].kind) == i + 1;
  }

  lemma {:induction false} NothingDispatched(e: Env, r: Run, at: Site, i: nat)
    requires HasFaulted(e, r) && NothingLeft(r) && r.control.Going? && 12 <= i <= |r.hooks|
    ensures Dispatch(e, r, at, i) == r
  {
    hide HasFaulted, Visit;
    forall k | i <= k < |r.hooks| ensures Visit(e, r, at, k) == r {
      NothingVisited(e, r, at, k);
    }
    Idle(e, r, at, i, |r.hooks|);
    NothingBehind(e, r, at);
  }

  lemma {:induction false} NothingBehind(e: Env, r: Run, at: Site)
    ensures Dispatch(e, r, at, |r.hooks|) == r
  {
  }

  lemma {:induction false} Does(e: Env, r: Run)
    requires r.control.Going? && r.state.Faulted? && r.phase.Running? && !r.restart
    ensures var s := Finish(e, r);
            HasDone(s, e.p.exec(r.cpu)) && s.hk == r.hk && s.classes == r.classes
  {
  }

  /** The dispatch gets to the hooks behind the counting hook. */
  lemma {:induction false} Reaches(e: Env, r: Run, budget: nat)
    requires IsFaulted(e, r, budget) && GetsThere(e, r)
    ensures var x := Counted(e, r);
            && Step(e, r) == Finish(e, Dispatch(e, x, SiteOf(e.p, r.cpu), 12)) && |r.hooks| >= 12
            && HasFaulted(e, x) && x == r.(inRange := x.inRange, count := x.count) && r.phase.Running?
            && r.state.Faulted? && r.control.Going? && !r.restart
  {
    RunningHasFaulted(e, r, budget);
    hide HasFaulted, Dispatch, Finish, GoesOn, IsOver, FlagAt;
    var at := SiteOf(e.p, r.cpu);
    FaultedPrefix(e, r, at);
    CountingKeeps(e, r, FlagAt(e, r.inRange, at.address));
    Behind12(e, r);
  }

  lemma {:induction false} PlainStep(e: Env, r: Run, budget: nat)
    requires IsFaulted(e, r, budget) && GetsThere(e, r) && NothingLeft(r)
    ensures var s := Step(e, r);
            HasDone(s, e.p.exec(r.cpu)) && NothingLeft(s) && s.classes == r.classes
  {
    hide IsFaulted, Step, Dispatch, Counted, HasFaulted, HasDone, Finish, IsOrdinary;
    Reaches(e, r, budget);
    var x := Counted(e, r);
    NothingDispatched(e, x, SiteOf(e.p, r.cpu), 12);
    Does(e, x);
  }

  lemma {:induction false} DoneAlike(r: Run, s: Run, exec: Exec)
    requires HasDone(r, exec) && HasDone(s, exec)
    ensures SameRun(r, s)
  {
  }

  /** Faulted for ever: no hook is left behind the counting hook as long as the run goes on. */
  ghost predicate IsPlain(e: Env, r: Run, budget: nat) {
    IsFaulted(e, r, budget) && (r.phase.Running? || r.restart ==> NothingLeft(r))
  }

  lemma {:induction false} PlainStays(e: Env, r: Run, budget: nat)
    requires IsPlain(e, r, budget)
    ensures IsPlain(e, Step(e, r), budget)
  {
    hide IsFaulted, Step, IsOrdinary;
    StaysFaulted(e, r, budget);
    if GetsThere(e, r) {
      PlainStep(e, r, budget);
    } else {
      StepOver(e, r, budget);
    }
  }

  /** Two plain runs of one program, once the same, stay the same. */
  lemma {:induction false} PlainStep2(e: Env, f: Env, r: Run, s: Run, br: nat, bs: nat)
    requires f.p == e.p && IsPlain(e, r, br) && IsPlain(f, s, bs) && SameRun(r, s)
    ensures SameRun(Step(e, r), Step(f, s)) && IsPlain(e, Step(e, r), br) && IsPlain(f, Step(f, s), bs)
  {
    hide IsFaulted, Step, HasDone;
    PlainStays(e, r, br);
    PlainStays(f, s, bs);
    if GetsThere(e, r) {
      PlainStep(e, r, br);
      PlainStep(f, s, bs);
      DoneAlike(Step(e, r), Step(f, s), e.p.exec(r.cpu));
    } else {
      BothStepOver(e, f, r, s, br, bs);
    }
  }

  lemma {:induction false} PlainSteps(e: Env, f: Env, r: Run, s: Run, br: nat, bs: nat, n: nat)
    requires f.p == e.p && IsPlain(e, r, br) && IsPlain(f, s, bs) && SameRun(r, s)
    ensures SameRun(Steps(e, r, n), Steps(f, s, n)) && IsPlain(e, Steps(e, r, n), br) && IsPlain(f, Steps(f, s, n), bs)
  {
    hide IsPlain, Step, SameRun;
    if n > 0 {
      PlainSteps(e, f, r, s, br, bs, n - 1);
      PlainStep2(e, f, Steps(e, r, n - 1), Steps(f, s, n - 1), br, bs);
    }
  }

  // ----- a step with the test -----

  /** The equivalence hook waits behind the counting hook. */
  predicate TestWaits(r: Run) {
    |r.hooks| > 12 && r.hooks[12] == Hook(Equivalent, Everywhere, 0) && r.hk.equivalent == 13
  }

  /** A hook behind the counting hook that is not the test. */
  lemma {:induction false} LifespanVisit(e: Env, r: Run, at: Site, i: nat)
    requires HasFaulted(e, r) && r.hk.equivalent == 0 && 12 <= i < |r.hooks|
    ensures var s := Visit(e, r, at, i);
            s.classes == r.classes && s.state == r.state && s.hk.equivalent == 0
  {
    hide RevertRegisterHook, RepeatRegisterHook, RevertInstructionHook, RepeatInstructionHook, RepeatIPHook, SetupHooks;
    assert r.hooks[i].deletions == 0 ==> IsLater(r.hooks[i].kind) && HandleOf(r.hk, r.hooks[i].kind) == i + 1;
    if IsCalled(r, at, i) {
      RegisterLifespanKeeps(e, r, at);
      RevertKeepsTest(e, r, at);
      RepeatKeepsTest(e, r, at);
      SkipLifespanKeeps(e, r, at);
    }
  }

  predicate KeepsTest(r: Run, s: Run) {
    s.classes == r.classes && s.state == r.state && s.hk.equivalent == r.hk.equivalent
  }

  lemma {:induction false} RemoveKeepsTest(r: Run, kind: HookKind)
    requires !kind.Equivalent?
    ensures KeepsTest(r, Remove(r, kind)) && KeepsTest(r, RemoveIfSet(r, kind))
  {
  }

  lemma {:induction false} RegisterLifespanKeeps(e: Env, r: Run, at: Site)
    ensures KeepsTest(r, RevertRegisterHook(e, r, at)) && KeepsTest(r, RepeatRegisterHook(e, r, at))
  {
    hide WritePc, FaultReg, LifespanNotStarted, Remove;
    RemoveKeepsTest(WriteRegister(e, CountDown(r), r.rule.number, r.rule.lifespan.originalValue), RevertRegister);
    RemoveKeepsTest(DoTheRegisterFault(e, CountDown(r), at), RepeatRegister);
  }

  lemma {:induction false} RevertKeepsTest(e: Env, r: Run, at: Site)
    ensures KeepsTest(r, RevertInstructionHook(e, r, at))
  {
    hide WriteMem, Remove, RemoveIfSet;
    var site := ThumbCheck(e.p, LineAt(r.lines, r.rule.instruction).address);
    var r1 := ToolWrites(e, CountDown(r), site, r.rule.lifespan.originalBytes);
    RemoveKeepsTest(r1, RevertInstruction);
    RemoveKeepsTest(RestartAt(StepBack(Remove(r1, RevertInstruction)), ThumbAddress(e.p, at.address)),
                    FaultItInstruction);
  }

  lemma {:induction false} RepeatKeepsTest(e: Env, r: Run, at: Site)
    requires r.state.Faulted?
    ensures KeepsTest(r, RepeatInstructionHook(e, r, at))
  {
    hide DoTheInstructionFault, Remove;
    BytesKeepTest(e, r, at);
    RemoveKeepsTest(CountDown(DoTheInstructionFault(e, r, at)), RepeatInstruction);
  }

  lemma {:induction false} BytesKeepTest(e: Env, r: Run, at: Site)
    requires r.state.Faulted?
    ensures KeepsTest(r, DoTheInstructionFault(e, r, at))
  {
    hide WriteMem, ReadMem, FaultBytes;
  }

  lemma {:induction false} SkipLifespanKeeps(e: Env, r: Run, at: Site)
    requires r.state.Faulted?
    ensures KeepsTest(r, RepeatIPHook(e, r, at))
  {
    hide WritePc, Remove;
    var r1 := DoTheIPFault(e, CountDown(r), at);
    RemoveKeepsTest(r1.(trail := r1.trail.(drift := r1.trail.drift + 1)), RepeatIP);
  }

  lemma {:induction false} RegisterHasNoTest(e: Env, r: Run, at: Site)
    ensures FaultRegisterHook(e, r, at).hk.equivalent == r.hk.equivalent
  {
    hide WritePc, FaultReg, StateHashes, Known, Record, AddLifespan, RemoveIfSet;
    var r1 := AddLifespan(Fire(DoTheRegisterFault(e, r, at), at), RevertRegister, RepeatRegister,
                          Everywhere).(state := Faulted);
    RegisterLifespanHasNoTest(Fire(DoTheRegisterFault(e, r, at), at));
    RemoveKeepsTest(r1, FaultItRegister);
    RemoveKeepsTest(RecordState(e, r1), FaultItRegister);
  }

  lemma {:induction false} RegisterLifespanHasNoTest(r: Run)
    ensures AddLifespan(r, RevertRegister, RepeatRegister, Everywhere).hk.equivalent == r.hk.equivalent
  {
  }

  lemma {:induction false} LifespanDispatch(e: Env, r: Run, at: Site, i: nat)
    requires HasFaulted(e, r) && r.hk.equivalent == 0 && r.control.Going? && !r.restart && 12 <= i <= |r.hooks|
    ensures var s := Dispatch(e, r, at, i);
            s.classes == r.classes && s.state == r.state && s.hk.equivalent == 0
    decreases |r.hooks| - i
  {
    hide HasFaulted, Visit;
    if i < |r.hooks| {
      OneVisit(e, r, at, i);
      LaterVisit(e, r, at, i);
      LifespanVisit(e, r, at, i);
      var s := Visit(e, r, at, i);
      if s.control.Going? {
        LifespanDispatch(e, s, at, i + 1);
      } else {
        EndsThere(e, s, at, i + 1);
      }
    }
  }

  /** The test was made, or is not asked for. */
  ghost predicate IsTested(e: Env, r: Run, budget: nat) {
    IsFaulted(e, r, budget) && (r.phase.Running? || r.restart ==> r.hk.equivalent == 0)
  }

  /** The table stays as it is from then on, and the run is not stopped as known. */
  lemma {:induction false} TestedStep(e: Env, r: Run, budget: nat)
    requires IsTested(e, r, budget)
    ensures IsTested(e, Step(e, r), budget) && Step(e, r).classes == r.classes
    ensures Step(e, r).state.EquivalentRs? <==> r.state.EquivalentRs?
  {
    hide IsFaulted, Step, IsOrdinary, HasFaulted, Counted;
    StaysFaulted(e, r, budget);
    if GetsThere(e, r) {
      Reaches(e, r, budget);
      var x := Counted(e, r);
      LifespanDispatch(e, x, SiteOf(e.p, r.cpu), 12);
      FinishKeeps(e, Dispatch(e, x, SiteOf(e.p, r.cpu), 12));
    } else {
      StepOver(e, r, budget);
    }
  }

  lemma {:induction false} FinishKeeps(e: Env, r: Run)
    ensures var s := Finish(e, r);
            && s.classes == r.classes && s.hk == r.hk && s.restart == r.restart
            && (s.state.EquivalentRs? ==> r.state.EquivalentRs?) && (!r.control.Going? ==> s.state == r.state)
  {
  }

  lemma {:induction false} TestedSteps(e: Env, r: Run, budget: nat, n: nat)
    requires IsTested(e, r, budget)
    ensures IsTested(e, Steps(e, r, n), budget) && Steps(e, r, n).classes == r.classes
    ensures Steps(e, r, n).state.EquivalentRs? <==> r.state.EquivalentRs?
  {
    hide IsTested, Step;
    if n > 0 {
      TestedSteps(e, r, budget, n - 1);
      TestedStep(e, Steps(e, r, n - 1), budget);
    }
  }

  /** The test: the state is recorded under its key, and the run is stopped exactly when the key was known.
      Otherwise the instruction is executed, if no lifespan comes between. */
  lemma {:induction false} TestStep(e: Env, r: Run, budget: nat)
    requires IsFaulted(e, r, budget) && GetsThere(e, r) && TestWaits(r)
    ensures var s, key := Step(e, r), StateHashes(e.p, r.cpu);
            && s.classes == Record(r.classes, key, r.rule) && (s.state.EquivalentRs? <==> Known(r.classes, key))
            && IsTested(e, s, budget)
            && (!Known(r.classes, key) && r.hk.lifespan == 0 ==> HasDone(s, e.p.exec(r.cpu)) && NothingLeft(s))
  {
    hide IsFaulted, Step, IsOrdinary, HasFaulted, Counted, StateHashes, Record, Known, CheckEquivalent, Dispatch,
         HasDone, Finish;
    Reaches(e, r, budget);
    StaysFaulted(e, r, budget);
    var x, at := Counted(e, r), SiteOf(e.p, r.cpu);
    OneVisit(e, x, at, 12);
    IsTheTest(e, x, at);
    LaterVisit(e, x, at, 12);
    TestIs(e, x);
    var d := CheckEquivalent(e, x);
    if Known(r.classes, StateHashes(e.p, r.cpu)) {
      EndsThere(e, d, at, 13);
      StopFinishes(e, d);
    } else {
      LifespanDispatch(e, d, at, 13);
      FinishKeeps(e, Dispatch(e, d, at, 13));
      if r.hk.lifespan == 0 {
        NothingDispatched(e, d, at, 13);
        Does(e, d);
      }
    }
  }

  lemma {:induction false} IsTheTest(e: Env, r: Run, at: Site)
    requires TestWaits(r)
    ensures Visit(e, r, at, 12) == CheckEquivalent(e, r)
  {
    hide CheckEquivalent;
  }

  lemma {:induction false} TestIs(e: Env, r: Run)
    requires TestWaits(r) && r.control.Going? && r.state.Faulted?
    ensures var s, key := CheckEquivalent(e, r), StateHashes(e.p, r.cpu);
            && s.classes == Record(r.classes, key, r.rule) && |s.hooks| == |r.hooks| && s.cpu == r.cpu
            && s.phase == r.phase
            && s.restart == r.restart
            && if Known(r.classes, key) then s.state.EquivalentRs? && s.control.StopRequested?
               else s.state.Faulted? && s.control.Going? && s.hk == r.hk.(equivalent := 0)
  {
    hide StateHashes, Record, Known;
  }

  // ----- from the fault to the test -----

  /** A rule whose fault nothing takes back or repeats. */
  predicate LastsForEver(rule: FaultRule) {
    rule.lifespan.count == 0 || rule.lifespan.mode.NoMode? || (rule.target.InstructionPointer?
                                                               && rule.lifespan.mode.Revert?)
  }

  /** The test hook and the lifespan hook a fault leaves, and the hook that made it gone. */
  ghost predicate LeavesTest(e: Env, w: Run, s: Run) {
    && s.classes == w.classes && SameRule(s.rule, w.rule)
    && (e.stopOnEquivalence ==> TestWaits(s)) && (!e.stopOnEquivalence ==> s.hk.equivalent == 0)
    && (LastsForEver(w.rule) ==> s.hk.lifespan == 0)
  }

  lemma {:induction false} AddsTest(e: Env, r: Run)
    requires |r.hooks| == 12 && r.hk.equivalent == r.hk.lifespan == 0
    ensures var s := AddEquivalent(e, r);
            LeavesTest(e, r, s) && |s.hooks| >= 12 && s.hk.lifespan == 0 && s.hk.faultIt == r.hk.faultIt
              && s == r.(hooks := s.hooks, hk := s.hk)
  {
  }

  lemma {:induction false} LifespanLeavesTest(e: Env, r: Run, s: Run, where: Where)
    requires LeavesTest(e, r, s) && |s.hooks| >= 12 && s.rule == r.rule && s.hk.faultIt == r.hk.faultIt
    requires s.hk.lifespan == 0 && r.rule.target.Instruction?
    ensures var l := AddLifespan(s, RevertInstruction, RepeatInstruction, where);
            LeavesTest(e, r, l) && |l.hooks| >= 12 && l.hk.faultIt == r.hk.faultIt
  {
    hide SetHandle, HandleOf;
    LaterHandle(s.hk, RevertInstruction);
    LaterHandle(s.hk, RepeatInstruction);
  }

  lemma {:induction false} SkipLifespanLeavesTest(e: Env, r: Run, s: Run, at: Site)
    requires LeavesTest(e, r, s) && |s.hooks| >= 12 && s.rule == r.rule && s.hk.faultIt == r.hk.faultIt
    requires s.hk.lifespan == 0 && r.rule.target.InstructionPointer?
    ensures var l := AddSkipLifespan(s, at);
            LeavesTest(e, r, l) && |l.hooks| >= 12 && l.hk.faultIt == r.hk.faultIt
  {
    hide SetHandle, HandleOf;
    LaterHandle(s.hk, RepeatIP);
  }

  lemma {:induction false} PrimaryGoes(e: Env, r: Run, s: Run, kind: HookKind)
    requires LeavesTest(e, r, s) && s.hk.faultIt == 11 && (kind.FaultItInstruction? || kind.FaultItIP?)
    ensures LeavesTest(e, r, RemoveIfSet(s, kind))
  {
  }

  /** An instruction fault, with its test still to come. */
  lemma {:induction false} InstructionLeaves(e: Env, o: Origin, w: Run, at: Site)
    requires AtTheHook(e, o, w, at) && w.rule.target.Instruction?
    ensures LeavesTest(e, w, FaultInstructionHook(e, w, at))
    ensures FaultInstructionHook(e, w, at).restartAddress == ThumbAddress(e.p, at.address)
    ensures FaultInstructionHook(e, w, at).state.Faulted?
  {
    FreshHooks(e, o, w, at);
    Lifespans.FaultIsMade(e, o, w, at);
    hide AtTheHook, AddLifespan, AddEquivalent, RemoveIfSet, FaultBytes, WriteMem, ReadMem, TestWaits;
    var r1 := Fire(DoTheInstructionFault(e, w, at), at);
    AddsTest(e, r1);
    LifespanLeavesTest(e, r1, AddEquivalent(e, r1), At({at.address}));
    var r2 := AddLifespan(AddEquivalent(e, r1), RevertInstruction, RepeatInstruction, At({at.address}));
    PrimaryGoes(e, r1, RestartAt(r2, ThumbAddress(e.p, at.address)), FaultItInstruction);
  }

  lemma {:induction false} SkipLeaves(e: Env, o: Origin, w: Run, at: Site)
    requires AtTheHook(e, o, w, at) && w.rule.target.InstructionPointer?
    ensures LeavesTest(e, w, FaultIPHook(e, w, at)) && FaultIPHook(e, w, at).state.Faulted?
    ensures FaultIPHook(e, w, at).cpu == SkippedCpu(e.p, w.cpu, at)
  {
    FreshHooks(e, o, w, at);
    hide AtTheHook, AddSkipLifespan, AddEquivalent, RemoveIfSet, WritePc, TestWaits;
    var r1 := Fire(DoTheIPFault(e, w, at), at);
    AddsTest(e, r1);
    SkipLifespanLeavesTest(e, r1, AddEquivalent(e, r1), at);
    PrimaryGoes(e, r1, AddSkipLifespan(AddEquivalent(e, r1), at), FaultItIP);
  }

  function SkippedCpu(p: Program, c: Cpu, at: Site): Cpu {
    WritePc(p, c, Pc(p, c) + at.size + if IsArm(p) then 1 else 0)
  }

  /** The CPU an instruction fault leaves. */
  function ChangedCpu(p: Program, c: Cpu, rule: FaultRule, at: Site): Cpu
    requires FaultsBytes(rule.operation)
  {
    WriteMem(c, at.address, FaultBytes(rule.mask, rule.operation, ReadMem(c, at.address, at.size)))
  }

  /** The run after an instruction fault or a skip, but for its hooks. */
  ghost predicate Begins(p: Program, c: Cpu, rule: FaultRule, r: Run) {
    var at := SiteOf(p, c);
    && r.state.Faulted?
    && match rule.target
       case Register => false
       case Instruction =>
         FaultsBytes(rule.operation) && r.cpu == ChangedCpu(p, c, rule, at) && r.phase.Stopped? && r.restart
         && r.restartAddress == ThumbAddress(p, at.address)
       case InstructionPointer => r.cpu == SkippedCpu(p, c, at) && r.phase.Running? && !r.restart
  }

  lemma {:induction false} InstructionBegins(e: Env, o: Origin, trace: seq<Cpu>, rule: FaultRule, lines: seq<Line>,
                                             classes: seq<Class<FaultRule>>, u: nat)
    requires IsGolden(e.p, trace) && u < Last(trace) && e.mode.FaultMode? && Accepts(rule) && rule.target.Instruction?
    requires (o.Restored? || !RestoresCheckpoint(e, rule, lines)) && Fires(e, trace, rule, lines, u)
    ensures var w := Within(e, o, trace, rule, lines, classes, u);
            var r := Step(e, Before(e, o, trace, rule, lines, classes, u));
            LeavesTest(e, w, r) && Begins(e.p, trace[u], rule, r) && w.rule == rule && w.classes == classes
  {
    hide AtTheHook, FaultInstructionHook, Fires, RestoresCheckpoint, IsGolden, Before, Step, Finish, WriteMem,
         ReadMem, FaultBytes, LeavesTest, Accepts, SetupHooks;
    var at, w := SiteOf(e.p, trace[u]), Within(e, o, trace, rule, lines, classes, u);
    Lifespans.InstructionStep(e, o, trace, rule, lines, classes, u);
    Lifespans.SiteIsLine(e, o, trace, rule, lines, classes, u);
    Lifespans.FaultIsMade(e, o, w, at);
    InstructionLeaves(e, o, w, at);
    ChangesCpu(e, w, at);
    StopFinishes(e, FaultInstructionHook(e, w, at));
    StoppedLeaves(e, w, FaultInstructionHook(e, w, at));
  }

  lemma {:induction false} StoppedLeaves(e: Env, w: Run, s: Run)
    requires LeavesTest(e, w, s)
    ensures LeavesTest(e, w, s.(phase := Stopped)) && LeavesTest(e, w, Pass(s).(control := Going))
  {
  }

  lemma {:induction false} ChangesCpu(e: Env, w: Run, at: Site)
    requires IsTheLine(w) && FaultsBytes(w.rule.operation) && ThumbCheck(e.p, at.address) == at.address
    ensures FaultInstructionHook(e, w, at).cpu == ChangedCpu(e.p, w.cpu, w.rule, at)
  {
    hide WriteMem, ReadMem, FaultBytes, SetHandle, HandleOf;
  }

  lemma {:induction false} SkipBegins(e: Env, o: Origin, trace: seq<Cpu>, rule: FaultRule, lines: seq<Line>,
                                      classes: seq<Class<FaultRule>>, u: nat)
    requires IsGolden(e.p, trace) && u < Last(trace) && e.mode.FaultMode? && Accepts(rule)
    requires rule.target.InstructionPointer?
    requires (o.Restored? || !RestoresCheckpoint(e, rule, lines)) && Fires(e, trace, rule, lines, u)
    ensures var w := Within(e, o, trace, rule, lines, classes, u);
            var r := Step(e, Before(e, o, trace, rule, lines, classes, u));
            LeavesTest(e, w, r) && Begins(e.p, trace[u], rule, r) && w.rule == rule && w.classes == classes
  {
    Lifespans.SiteIsLine(e, o, trace, rule, lines, classes, u);
    var at, w := SiteOf(e.p, trace[u]), Within(e, o, trace, rule, lines, classes, u);
    assert w.classes == classes;
    hide Dispatch, Visit, SetupHooks, AtTheHook, RestoresCheckpoint, Finish, FaultIPHook, Accepts, Fires, IsGolden,
         LeavesTest, Within, Before, Step, HasFaulted;
    ReachWithin(e, o, trace, rule, lines, classes, u);
    AtItsLine(e, o, trace, rule, lines, classes, u);
    FreshHooks(e, o, w, at);
    OneVisit(e, w, at, 9);
    OneVisit(e, w, at, 10);
    IPFires(e, o, w, at);
    IsTheSkip(e, w, at);
    EndsThere(e, FaultIPHook(e, w, at), at, 11) by { FiredHooks(e, w, at, FaultIPHook(e, w, at)); }
    SkipLeaves(e, o, w, at);
    PcFinishes(e, FaultIPHook(e, w, at));
    StoppedLeaves(e, w, FaultIPHook(e, w, at));
    FiredHooks(e, w, at, FaultIPHook(e, w, at));
  }

  lemma {:induction false} FiredHooks(e: Env, w: Run, at: Site, s: Run)
    requires Fired(e, w, at, s, 1)
    ensures |s.hooks| >= 12 && s.phase.Running?
  {
  }

  lemma {:induction false} IsTheSkip(e: Env, w: Run, at: Site)
    requires |w.hooks| == 12 && IsCalled(w, at, 10) && w.hooks[10].kind.FaultItIP?
    ensures Visit(e, w, at, 10) == FaultIPHook(e, w, at)
  {
    hide FaultIPHook;
  }

  lemma {:induction false} PcFinishes(e: Env, r: Run)
    requires r.control.PcWritten?
    ensures Finish(e, r) == Pass(r).(control := Going) && Pass(r).cpu == r.cpu && Pass(r).phase == r.phase
    ensures Pass(r).state == r.state && Pass(r).restart == r.restart
  {
  }

  /** After an instruction fault or a skip. */
  lemma {:induction false} FaultBegins(e: Env, o: Origin, trace: seq<Cpu>, rule: FaultRule, lines: seq<Line>,
                                       classes: seq<Class<FaultRule>>)
    requires HasItsLine(e, trace, rule, lines) && Accepts(rule) && !rule.target.Register?
    requires o.Restored? || !RestoresCheckpoint(e, rule, lines)
    ensures var r := AfterFault(e, o, trace, rule, lines, classes);
            && IsFaulted(e, r, RestartBudget(o, rule)) && r.classes == classes && SameRule(r.rule, rule)
            && (e.stopOnEquivalence ==> TestWaits(r)) && (!e.stopOnEquivalence ==> r.hk.equivalent == 0)
            && (LastsForEver(rule) ==> r.hk.lifespan == 0)
            && Begins(e.p, trace[FaultDispatch(e, trace, rule, lines)], rule, r)
  {
    hide Fires, RestoresCheckpoint, IsGolden, Before, Step, Accepts, Begins, IsRecorded, GoesOn, IsOver, TestWaits,
         Within, LastsForEver;
    FiresThereOnly(e, trace, rule, lines);
    var u := FaultDispatch(e, trace, rule, lines);
    LineInjects(e, o, trace, rule, lines, classes, u);
    if rule.target.Instruction? {
      InstructionBegins(e, o, trace, rule, lines, classes, u);
    } else {
      SkipBegins(e, o, trace, rule, lines, classes, u);
    }
  }

  lemma {:induction false} BeginAlike(p: Program, c: Cpu, rule: FaultRule, r: Run, s: Run)
    requires Begins(p, c, rule, r) && Begins(p, c, rule, s)
    ensures SameRun(r, s)
  {
    hide ChangedCpu, SkippedCpu;
  }

  // ----- up to the test -----

  ghost predicate NeverThere(e: Env, r: Run, m: nat) {
    forall l: nat :: l < m ==> !GetsThere(e, Steps(e, r, l))
  }

  ghost predicate FirstThere(e: Env, r: Run, m: nat) {
    GetsThere(e, Steps(e, r, m)) && NeverThere(e, r, m)
  }

  /** As long as the run does not get there, it keeps what a test and a lifespan need. */
  lemma {:induction false} UntilThere(e: Env, r: Run, budget: nat, m: nat)
    requires IsFaulted(e, r, budget) && NeverThere(e, r, m)
    ensures var s := Steps(e, r, m);
            && IsFaulted(e, s, budget) && s.classes == r.classes && s.cpu.mem == r.cpu.mem
            && (s.state.EquivalentRs? <==> r.state.EquivalentRs?)
            && (r.phase.Running? || r.restart ==>
                  (s.phase.Running? || s.restart ==> s.hooks == r.hooks && s.hk == r.hk && s.rule == r.rule))
  {
    hide IsFaulted, GetsThere, Step;
    if m > 0 {
      UntilThere(e, r, budget, m - 1);
      var s := Steps(e, r, m - 1);
      StepOver(e, s, budget);
      StaysFaulted(e, s, budget);
    }
  }

  lemma {:induction false} BothUntilThere(e: Env, f: Env, r: Run, s: Run, br: nat, bs: nat, m: nat)
    requires f.p == e.p && IsFaulted(e, r, br) && IsFaulted(f, s, bs) && SameRun(r, s) && NeverThere(e, r, m)
    ensures SameRun(Steps(e, r, m), Steps(f, s, m)) && NeverThere(f, s, m)
    ensures GetsThere(e, Steps(e, r, m)) <==> GetsThere(f, Steps(f, s, m))
  {
    hide IsFaulted, GetsThere, Step, SameRun;
    if m > 0 {
      BothUntilThere(e, f, r, s, br, bs, m - 1);
      UntilThere(e, r, br, m - 1);
      UntilThere(f, s, bs, m - 1);
      BothStepOver(e, f, Steps(e, r, m - 1), Steps(f, s, m - 1), br, bs);
    }
    ThereAlike(e, f, Steps(e, r, m), Steps(f, s, m));
  }

  lemma {:induction false} ThereAlike(e: Env, f: Env, r: Run, s: Run)
    requires f.p == e.p && SameRun(r, s)
    ensures GetsThere(e, r) <==> GetsThere(f, s)
  {
  }

  lemma {:induction false} FirstExists(e: Env, r: Run, m: nat) returns (first: nat)
    requires GetsThere(e, Steps(e, r, m))
    ensures first <= m && FirstThere(e, r, first)
  {
    hide GetsThere, Step;
    if l: nat :| l < m && GetsThere(e, Steps(e, r, l)) {
      first := FirstExists(e, r, l);
    } else {
      first := m;
    }
  }

  /** The CPU whose state the test hashes, if the run gets that far: a register fault is tested at once, and
      the others in the first dispatch that gets there. */
  ghost function TestedCpu(e: Env, o: Origin, trace: seq<Cpu>, rule: FaultRule, lines: seq<Line>): Option<Cpu>
    requires HasItsLine(e, trace, rule, lines)
  {
    if rule.target.Register? then
      var c := trace[FaultDispatch(e, trace, rule, lines)];
      Some(FaultedCpu(e.p, c, rule, e.p.size(c)))
    else
      var r := AfterFault(e, o, trace, rule, lines, []);
      if m: nat :| FirstThere(e, r, m) then Some(Steps(e, r, m).cpu) else None
  }

  lemma {:induction false} TestedThere(e: Env, o: Origin, trace: seq<Cpu>, rule: FaultRule, lines: seq<Line>)
    returns (m: nat)
    requires HasItsLine(e, trace, rule, lines) && !rule.target.Register? && TestedCpu(e, o, trace, rule, lines).Some?
    ensures var r := AfterFault(e, o, trace, rule, lines, []);
            FirstThere(e, r, m) && TestedCpu(e, o, trace, rule, lines) == Some(Steps(e, r, m).cpu)
  {
    hide HasItsLine, FirstThere, Steps, AfterFault;
    m :| FirstThere(e, AfterFault(e, o, trace, rule, lines, []), m)
         && TestedCpu(e, o, trace, rule, lines) == Some(Steps(e, AfterFault(e, o, trace, rule, lines, []), m).cpu);
  }

  lemma {:induction false} IsTestedThere(e: Env, o: Origin, trace: seq<Cpu>, rule: FaultRule, lines: seq<Line>, m: nat)
    requires HasItsLine(e, trace, rule, lines) && !rule.target.Register?
    requires FirstThere(e, AfterFault(e, o, trace, rule, lines, []), m)
    ensures TestedCpu(e, o, trace, rule, lines).Some?
  {
    hide HasItsLine, FirstThere, Steps, AfterFault;
  }

  /** Where that is in a run with this class table, tested or not. */
  lemma {:induction false} ComesThere(e: Env, f: Env, o: Origin, trace: seq<Cpu>, rule: FaultRule, lines: seq<Line>,
                                      classes: seq<Class<FaultRule>>) returns (m: nat)
    requires HasItsLine(e, trace, rule, lines) && HasItsLine(f, trace, rule, lines) && Accepts(rule)
    requires !rule.target.Register?
    requires f == e || f == Unpruned(e)
    requires (o.Restored? || !RestoresCheckpoint(e, rule, lines))
    requires (o.Restored? || !RestoresCheckpoint(f, rule, lines))
    ensures var c, s := TestedCpu(e, o, trace, rule, lines), AfterFault(f, o, trace, rule, lines, classes);
            if c.Some? then FirstThere(f, s, m) && Steps(f, s, m).cpu == c.value
            else forall l: nat :: !GetsThere(f, Steps(f, s, l))
  {
    hide IsFaulted, GetsThere, Steps, SameRun, AfterFault, HasItsLine, Accepts, RestoresCheckpoint, NeverThere,
         Begins, TestWaits, LastsForEver, TestedCpu;
    var r, s := AfterFault(e, o, trace, rule, lines, []), AfterFault(f, o, trace, rule, lines, classes);
    FaultBegins(e, o, trace, rule, lines, []);
    FaultBegins(f, o, trace, rule, lines, classes);
    SameFaultDispatch(e, f, trace, rule, lines);
    BeginAlike(e.p, trace[FaultDispatch(e, trace, rule, lines)], rule, r, s);
    var budget := RestartBudget(o, rule);
    if TestedCpu(e, o, trace, rule, lines).Some? {
      m := TestedThere(e, o, trace, rule, lines);
      BothUntilThere(e, f, r, s, budget, budget, m);
      SameCpu(Steps(e, r, m), Steps(f, s, m));
    } else {
      m := 0;
      forall l: nat ensures !GetsThere(f, Steps(f, s, l)) {
        if GetsThere(f, Steps(f, s, l)) {
          var first := FirstExists(f, s, l);
          SameRunBack(r, s);
          BothUntilThere(f, e, s, r, budget, budget, first);
          IsTestedThere(e, o, trace, rule, lines, first);
        }
      }
    }
  }

  lemma {:induction false} SameRunBack(r: Run, s: Run)
    requires SameRun(r, s)
    ensures SameRun(s, r)
  {
  }

  lemma {:induction false} SameCpu(r: Run, s: Run)
    requires SameRun(r, s)
    ensures r.cpu == s.cpu && r.phase == s.phase && r.state == s.state
  {
  }

  lemma {:induction false} SameFaultDispatch(e: Env, f: Env, trace: seq<Cpu>, rule: FaultRule, lines: seq<Line>)
    requires HasItsLine(e, trace, rule, lines) && HasItsLine(f, trace, rule, lines) && f.p == e.p
    ensures FaultDispatch(f, trace, rule, lines) == FaultDispatch(e, trace, rule, lines) < |trace|
  {
    FiresThereOnly(e, trace, rule, lines);
  }

  lemma {:induction false} RunningThere(e: Env, r: Run)
    requires GetsThere(e, r)
    ensures r.phase.Running? && !r.phase.Ended?
  {
  }

  /** A whole run of an instruction fault or a skip: recorded once, under the key of the tested CPU, if it
      gets that far; and stopped exactly when the key was known. */
  lemma {:induction false} LaterRunRecords(e: Env, o: Origin, trace: seq<Cpu>, rule: FaultRule, lines: seq<Line>,
                                           classes: seq<Class<FaultRule>>, n: nat) returns (recorded: FaultRule)
    requires e.stopOnEquivalence && HasItsLine(e, trace, rule, lines) && Accepts(rule) && !rule.target.Register?
    requires o.Restored? || !RestoresCheckpoint(e, rule, lines)
    requires Steps(e, AfterFault(e, o, trace, rule, lines, classes), n).phase.Ended?
    ensures var r, c := Steps(e, AfterFault(e, o, trace, rule, lines, classes), n), TestedCpu(e, o, trace, rule, lines);
            if c.Some? then
              var key := StateHashes(e.p, c.value);
              SameRule(recorded, rule) && r.classes == Record(classes, key, recorded)
              && (r.state.EquivalentRs? <==> Known(classes, key))
            else r.classes == classes && !r.state.EquivalentRs?
  {
    hide IsFaulted, GetsThere, Step, AfterFault, HasItsLine, Accepts, RestoresCheckpoint, Begins, TestWaits,
         LastsForEver, TestedCpu, StateHashes, Record, Known, IsTested;
    var r, budget := AfterFault(e, o, trace, rule, lines, classes), RestartBudget(o, rule);
    FaultBegins(e, o, trace, rule, lines, classes);
    BeginsGoing(e.p, trace[FaultDispatch(e, trace, rule, lines)], rule, r);
    var m := ComesThere(e, e, o, trace, rule, lines, classes);
    recorded := rule;
    if TestedCpu(e, o, trace, rule, lines).Some? {
      UntilThere(e, r, budget, m);
      var s := Steps(e, r, m);
      RunningThere(e, s);
      WaitsStill(r, s);
      TestStep(e, s, budget);
      if n <= m {
        Segments.EndedStays(e, r, n, m);
      }
      assert n > m;
      StepsAdd(e, r, m + 1, n - m - 1);
      TestedSteps(e, Step(e, s), budget, n - m - 1);
      recorded := s.rule;
    } else {
      UntilThere(e, r, budget, n);
    }
  }

  lemma {:induction false} WaitsStill(r: Run, s: Run)
    requires TestWaits(r) && s.hooks == r.hooks && s.hk == r.hk
    ensures TestWaits(s)
  {
  }

  lemma {:induction false} BeginsGoing(p: Program, c: Cpu, rule: FaultRule, r: Run)
    requires Begins(p, c, rule, r)
    ensures (r.phase.Running? || r.restart) && r.state.Faulted?
  {
  }
}

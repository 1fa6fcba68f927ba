/** What a register fault, a skip and a skip hook do to the CPU. */
module FaultEffects {
  import opened Utils
  import opened Machine
  import opened Equivalence
  import opened Hooks
  import opened GoldenRun
  import opened StatsRun
  import opened Aftermath
  import opened Injection
  import opened ExactlyOnce
  import opened Pruning
  import opened MixedLifespans
  import opened LaterTests
  import Lifespans
  import LastingFaults

  // ----- registers -----

  /** The hooks after a register fault: a lifespan hook is the last one, and has counted nothing. */
  predicate EndsWithLifespan(r: Run) {
    |r.hooks| == 13 ||
    (|r.hooks| == 14 && (r.hooks[13].kind.RevertRegister? || r.hooks[13].kind.RepeatRegister?)
     && r.rule.lifespan.live == r.rule.lifespan.count)
  }

  lemma {:induction false} AddsTheLifespan(r: Run)
    requires |r.hooks| == 13
    ensures var s := AddLifespan(r, RevertRegister, RepeatRegister, Everywhere);
            && EndsWithLifespan(s) && s.cpu == r.cpu && s.control == r.control && s.lines == r.lines
            && s.rule.instruction == r.rule.instruction && s.phase == r.phase && s.restart == r.restart
  {
  }

  lemma {:induction false} RemoveKeepsRest(r: Run, kind: HookKind)
    requires EndsWithLifespan(r)
    ensures var s := RemoveIfSet(r, kind);
            EndsWithLifespan(s) && s == r.(hooks := s.hooks, hk := s.hk)
  {
    hide SetHandle, HandleOf;
  }

  /** The hook that makes the fault. */
  lemma {:induction false} FaultHookDoes(e: Env, r: Run, at: Site)
    requires |r.hooks| == 13 && Accepts(r.rule) && r.rule.target.Register? && r.control.Going?
    ensures var s := FaultRegisterHook(e, r, at);
            && EndsWithLifespan(s) && s.cpu == FaultedCpu(e.p, r.cpu, r.rule, at.size) && s.lines == r.lines
            && s.rule.instruction == r.rule.instruction && s.phase == r.phase && s.restart == r.restart
            && s.hk.equivalent == r.hk.equivalent
            && if s.state.EquivalentRs? then s.control.StopRequested? && e.stopOnEquivalence
               else s.state.Faulted? && s.control == if r.rule.number == e.p.pcReg then PcWritten else Going
  {
    FaultsCpu(e, r, at);
    RegisterHasNoTest(e, r, at);
    hide DoTheRegisterFault, FaultedCpu, Accepts, AddLifespan, RemoveIfSet, StateHashes, Known, Record;
    var r1 := Fire(DoTheRegisterFault(e, r, at), at);
    AddsTheLifespan(r1);
    var r2 := AddLifespan(r1, RevertRegister, RepeatRegister, Everywhere).(state := Faulted);
    RemoveKeepsRest(r2, FaultItRegister);
    RemoveKeepsRest(RecordState(e, r2), FaultItRegister);
  }

  /** The lifespan hook, visited in the dispatch of the fault itself, does nothing. */
  lemma {:induction false} LifespanSleeps(e: Env, r: Run, at: Site)
    requires EndsWithLifespan(r) && r.control.Going?
    requires at.address == ThumbCheck(e.p, LineAt(r.lines, r.rule.instruction).address)
    ensures Dispatch(e, r, at, 13) == r
  {
    hide Dispatch, ThumbCheck, LineAt;
    if |r.hooks| == 14 {
      assert Visit(e, r, at, 13) == r;
      OneVisit(e, r, at, 13);
    }
    LaterTests.NothingBehind(e, r, at);
  }

  lemma {:induction false} RegisterDispatch(e: Env, o: Origin, w: Run, at: Site)
    requires AtTheHook(e, o, w, at) && w.rule.target.Register?
    requires |w.hooks| == 12 && IsCalled(w, at, 10) && w.hooks[10].kind.FaultItAddress?
    requires at.address == ThumbCheck(e.p, LineAt(w.lines, w.rule.instruction).address)
    ensures var d := Dispatch(e, w, at, 10);
            && d.cpu == FaultedCpu(e.p, w.cpu, w.rule, at.size) && d.phase == w.phase && d.restart == w.restart
            && d.hk.equivalent == 0
            && if d.state.EquivalentRs? then d.control.StopRequested? && e.stopOnEquivalence
               else d.state.Faulted? && d.control == if w.rule.number == e.p.pcReg then PcWritten else Going
  {
    assert Accepts(w.rule) && w.control.Going?;
    ReachSecondHook(e, o, w, at);
    ToTheSecondHook(e, o, w, at);
    hide AtTheHook, Accepts, FaultRegisterHook, FaultAddressHook, Count, FaultedCpu, Dispatch, LineAt, ThumbCheck,
         EndsWithLifespan;
    var w1 := Count(FaultAddressHook(w, at));
    FaultIgnoresAddress(e.p, w, at);
    FaultHookDoes(e, w1, at);
    var d := FaultRegisterHook(e, w1, at);
    if d.control.Going? {
      LifespanSleeps(e, d, at);
    } else {
      EndsThere(e, d, at, 13);
    }
  }

  /** A register fault changes one register, to the fault of its value: the line is then executed on that
      CPU; or, if it is the program counter, the run goes on there. */
  lemma {:induction false} RegisterFaultDoes(e: Env, o: Origin, trace: seq<Cpu>, rule: FaultRule, lines: seq<Line>,
                                             classes: seq<Class<FaultRule>>)
    requires HasItsLine(e, trace, rule, lines) && Accepts(rule) && rule.target.Register?
    requires o.Restored? || !RestoresCheckpoint(e, rule, lines)
    ensures FaultDispatch(e, trace, rule, lines) < |trace|
    ensures var c := trace[FaultDispatch(e, trace, rule, lines)];
            var r := AfterFault(e, o, trace, rule, lines, classes);
            var v := FaultReg(rule.mask, rule.operation, ReadReg(c, rule.number), e.p.size(c));
            && v.Some? && r.hk.equivalent == 0 && (r.state.EquivalentRs? ==> e.stopOnEquivalence)
            && (!r.state.EquivalentRs? ==>
                  if rule.number == e.p.pcReg then r.cpu == WritePc(e.p, c, v.value) && r.phase.Running?
                  else HasDone(r, e.p.exec(c.(regs := c.regs[rule.number := v.value]))))
  {
    hide Dispatch, AtTheHook, RestoresCheckpoint, Finish, Accepts, Fires, IsGolden, IsRecorded, Within, Before, Step,
         LineAt, ThumbCheck, FaultedCpu, FaultReg, WritePc, FaultDispatch, HasDone, IsCalled, TotalLines;
    FiresThereOnly(e, trace, rule, lines);
    var u := FaultDispatch(e, trace, rule, lines);
    var at, w := SiteOf(e.p, trace[u]), Within(e, o, trace, rule, lines, classes, u);
    LineStepIs(e, o, trace, rule, lines, classes, u);
    RegisterDispatch(e, o, w, at);
    MadeIs(e.p, trace[u], rule, at.size);
    FinishDoes(e, Dispatch(e, w, at, 10));
  }

  /** The dispatch of the line, from the primary hook on. */
  lemma {:induction false} LineStepIs(e: Env, o: Origin, trace: seq<Cpu>, rule: FaultRule, lines: seq<Line>,
                                      classes: seq<Class<FaultRule>>, u: nat)
    requires IsGolden(e.p, trace) && u < Last(trace) && e.mode.FaultMode? && Accepts(rule)
    requires (o.Restored? || !RestoresCheckpoint(e, rule, lines)) && Fires(e, trace, rule, lines, u)
    ensures var at, w := SiteOf(e.p, trace[u]), Within(e, o, trace, rule, lines, classes, u);
            && AtTheHook(e, o, w, at) && |w.hooks| == 12 && IsCalled(w, at, 10)
            && w.hooks[10].kind == PrimaryKind(rule.target)
            && at.address == ThumbCheck(e.p, LineAt(w.lines, w.rule.instruction).address)
            && w.cpu == trace[u] && w.rule == rule && w.phase.Running? && !w.restart
            && Step(e, Before(e, o, trace, rule, lines, classes, u)) == Finish(e, Dispatch(e, w, at, 10))
  {
    Lifespans.SiteIsLine(e, o, trace, rule, lines, classes, u);
    LastingFaults.WithinThere(e, o, trace, rule, lines, classes, u);
    var at, w := SiteOf(e.p, trace[u]), Within(e, o, trace, rule, lines, classes, u);
    hide Dispatch, Visit, SetupHooks, AtTheHook, RestoresCheckpoint, Finish, Accepts, Fires, IsGolden, Within, Before,
         Step, LineAt, ThumbCheck;
    ReachWithin(e, o, trace, rule, lines, classes, u);
    AtItsLine(e, o, trace, rule, lines, classes, u);
    FreshHooks(e, o, w, at);
    StepOfBefore(e, o, trace, rule, lines, classes, u);
    OneVisit(e, w, at, 9);
  }

  lemma {:induction false} MadeIs(p: Program, c: Cpu, rule: FaultRule, size: nat)
    requires Accepts(rule) && rule.target.Register?
    ensures var v := FaultReg(rule.mask, rule.operation, ReadReg(c, rule.number), size);
            && v.Some?
            && FaultedCpu(p, c, rule, size)
               == if rule.number == p.pcReg then WritePc(p, c, v.value) else c.(regs := c.regs[rule.number := v.value])
  {
    hide Bitwise, WritePc;
  }

  lemma {:induction false} FinishDoes(e: Env, d: Run)
    requires d.phase.Running? && !d.restart
    ensures Finish(e, d).hk == d.hk && (Finish(e, d).state.EquivalentRs? ==> d.state.EquivalentRs?)
    ensures d.state.EquivalentRs? && d.control.StopRequested? ==> Finish(e, d).state.EquivalentRs?
    ensures d.state.Faulted? && d.control.PcWritten? ==> Finish(e, d).cpu == d.cpu && Finish(e, d).phase.Running?
    ensures d.state.Faulted? && d.control.Going? ==> HasDone(Finish(e, d), e.p.exec(d.cpu))
  {
  }

  // ----- rules that are refused -----

  /** The hooks at the line, for any rule. */
  lemma {:induction false} HooksAtLine(e: Env, o: Origin, trace: seq<Cpu>, rule: FaultRule, lines: seq<Line>,
                                       classes: seq<Class<FaultRule>>, u: nat)
    requires IsGolden(e.p, trace) && u < Last(trace) && e.mode.FaultMode? && Fires(e, trace, rule, lines, u)
    ensures var w, at := Within(e, o, trace, rule, lines, classes, u), SiteOf(e.p, trace[u]);
            && |w.hooks| == 12 && Visit(e, w, at, 9) == w && w.control.Going? && IsTheLine(w) && IsCalled(w, at, 10)
            && w.hooks[10].kind == PrimaryKind(rule.target) && w.hooks[11] == COUNT_HOOK && w.rule == rule
            && w.cpu == trace[u] && w.trail.fired == []
  {
    hide Call;
    LineIsEntered(e.p, trace, u);
    CallerVisit(e, o, trace, rule, lines, classes, u);
    var w := Within(e, o, trace, rule, lines, classes, u);
    assert w.hooks[10] == FaultHook(e, rule, lines);
    assert w.hooks == SetupHooks(e) + [FaultHook(e, rule, lines)] + [COUNT_HOOK];
  }

  lemma {:induction false} PrimaryRefuses(e: Env, w: Run, at: Site)
    requires IsTheLine(w) && !Accepts(w.rule)
    ensures w.rule.target.Instruction? ==> FaultInstructionHook(e, w, at) == Abort(w)
    ensures w.rule.target.InstructionPointer? ==> FaultIPHook(e, w, at) == Abort(w)
  {
    hide WriteMem, ReadMem, FaultBytes, WritePc;
  }

  lemma {:induction false} SecondHookRefuses(e: Env, w: Run, at: Site)
    requires IsTheLine(w) && !Accepts(w.rule) && w.rule.target.Register? && w.control.Going? && |w.hooks| == 12
    requires IsCalled(w, at, 10) && w.hooks[10].kind.FaultItAddress? && w.hooks[11] == COUNT_HOOK
    requires w.hk.faultAddress == 11
    ensures var d := Dispatch(e, w, at, 10);
            d.control.Aborted? && d.cpu == w.cpu && d.trail.fired == w.trail.fired
  {
    hide Dispatch, FaultRegisterHook, Visit;
    RegisterCalls(e, w, at, 10);
    var v := FaultAddressHook(w, at);
    SecondHookWaits(w, at);
    OneVisit(e, w, at, 10);
    RegisterCalls(e, v, at, 11);
    OneVisit(e, v, at, 11);
    RegisterCalls(e, Count(v), at, 12);
    OneVisit(e, Count(v), at, 12);
    RegisterRefuses(e, Count(v), at);
    EndsThere(e, FaultRegisterHook(e, Count(v), at), at, 13);
  }

  lemma {:induction false} SecondHookWaits(w: Run, at: Site)
    requires IsTheLine(w) && |w.hooks| == 12 && w.control.Going? && w.hooks[11] == COUNT_HOOK
    requires w.hk.faultAddress == 11
    ensures var v := FaultAddressHook(w, at);
            && |v.hooks| == 13 && v.hooks[11] == COUNT_HOOK && v.hooks[12] == Hook(FaultItRegister, Everywhere, 0)
            && v.control.Going? && v.cpu == w.cpu && v.trail == w.trail && SameRule(v.rule, w.rule)
            && Count(v).hooks == v.hooks && Count(v).control.Going? && Count(v).cpu == w.cpu
            && Count(v).trail == w.trail
            && Count(v).rule == v.rule
  {
  }

  lemma {:induction false} RegisterRefuses(e: Env, r: Run, at: Site)
    requires !Accepts(r.rule) && r.rule.target.Register?
    ensures FaultRegisterHook(e, r, at) == Abort(r)
  {
    hide WritePc, StateHashes, Record, Known, AddLifespan;
  }

  /** A rule whose operation its target does not know ends the process at its line, with nothing changed. */
  lemma {:induction false} RefusedRuleAborts(e: Env, o: Origin, trace: seq<Cpu>, rule: FaultRule, lines: seq<Line>,
                                             classes: seq<Class<FaultRule>>)
    requires HasItsLine(e, trace, rule, lines) && !Accepts(rule)
    requires o.Restored? || !RestoresCheckpoint(e, rule, lines)
    ensures FaultDispatch(e, trace, rule, lines) < |trace|
    ensures var r := AfterFault(e, o, trace, rule, lines, classes);
            && r.control.Aborted? && r.phase.Ended? && r.trail.fired == []
            && r.cpu == trace[FaultDispatch(e, trace, rule, lines)]
  {
    hide Dispatch, Visit, RestoresCheckpoint, Finish, Accepts, Fires, IsGolden, IsRecorded, Within, Before, Step,
         FaultDispatch, IsCalled, TotalLines, FaultInstructionHook, FaultIPHook, IsTheLine, SetupHooks;
    FiresThereOnly(e, trace, rule, lines);
    var u := FaultDispatch(e, trace, rule, lines);
    var at, w := SiteOf(e.p, trace[u]), Within(e, o, trace, rule, lines, classes, u);
    NotSkippedThere(e, trace, rule, lines, u);
    ReachWithin(e, o, trace, rule, lines, classes, u);
    HooksAtLine(e, o, trace, rule, lines, classes, u);
    StepOfBefore(e, o, trace, rule, lines, classes, u);
    OneVisit(e, w, at, 9);
    PrimaryRefuses(e, w, at);
    if rule.target.Register? {
      HandleAtLine(e, o, trace, rule, lines, classes, u);
      SecondHookRefuses(e, w, at);
    } else {
      OneVisit(e, w, at, 10);
      PrimaryVisits(e, w, at);
      EndsThere(e, Visit(e, w, at, 10), at, 11);
    }
    AbortFinishes(e, Dispatch(e, w, at, 10));
  }

  lemma {:induction false} AbortFinishes(e: Env, d: Run)
    requires d.control.Aborted?
    ensures Finish(e, d) == d.(phase := Ended)
  {
  }

  lemma {:induction false} NotSkippedThere(e: Env, trace: seq<Cpu>, rule: FaultRule, lines: seq<Line>, u: nat)
    requires u < |trace| && Fires(e, trace, rule, lines, u)
    ensures !SkippedAt(e.p, trace, u)
  {
  }

  lemma {:induction false} HandleAtLine(e: Env, o: Origin, trace: seq<Cpu>, rule: FaultRule, lines: seq<Line>,
                                        classes: seq<Class<FaultRule>>, u: nat)
    requires u < |trace| && rule.isSet && rule.target.Register?
    ensures Within(e, o, trace, rule, lines, classes, u).hk.faultAddress == 11
  {
  }

  lemma {:induction false} PrimaryVisits(e: Env, w: Run, at: Site)
    requires |w.hooks| == 12 && IsCalled(w, at, 10)
    ensures w.hooks[10].kind.FaultItInstruction? ==> Visit(e, w, at, 10) == FaultInstructionHook(e, w, at)
    ensures w.hooks[10].kind.FaultItIP? ==> Visit(e, w, at, 10) == FaultIPHook(e, w, at)
  {
    hide FaultInstructionHook, FaultIPHook;
  }

  // ----- skips -----

  /** A skip goes past the line's instruction, and changes nothing but the program counter, if and only if the
      core has no Thumb bit, or is a 32-bit ARM core in Thumb state: on any other ARM core it lands one byte
      too far, or changes to Thumb state. */
  lemma {:induction false} SkipFaultDoes(e: Env, o: Origin, trace: seq<Cpu>, rule: FaultRule, lines: seq<Line>,
                                         classes: seq<Class<FaultRule>>)
    requires HasItsLine(e, trace, rule, lines) && Accepts(rule) && rule.target.InstructionPointer?
    requires o.Restored? || !RestoresCheckpoint(e, rule, lines)
    ensures FaultDispatch(e, trace, rule, lines) < |trace|
    ensures var c := trace[FaultDispatch(e, trace, rule, lines)];
            var r := AfterFault(e, o, trace, rule, lines, classes);
            && r.phase.Running? && r.cpu.mem == c.mem
            && ((IsArm(e.p) ==> e.p.size(c) % 2 == 0) ==>
                  (r.cpu == c.(regs := c.regs[e.p.pcReg := Pc(e.p, c) + e.p.size(c)]) <==>
                   e.p.arch.OtherArch? || (e.p.arch.Arm32? && c.thumb)))
  {
    hide HasItsLine, RestoresCheckpoint, AfterFault, TestWaits, IsFaulted, LastsForEver, FaultDispatch, WritePc, Pc,
         ChangedCpu, SkippedCpu, SameRule, Fires;
    FiresThereOnly(e, trace, rule, lines);
    var u := FaultDispatch(e, trace, rule, lines);
    EvenAddress(e, trace, rule, lines, u);
    FaultBegins(e, o, trace, rule, lines, classes);
    SkipKeepsMemory(e.p, trace[u]);
    if IsArm(e.p) ==> e.p.size(trace[u]) % 2 == 0 {
      SkipLandsIff(e.p, trace[u]);
    }
  }

  lemma {:induction false} SkipKeepsMemory(p: Program, c: Cpu)
    ensures SkippedCpu(p, c, SiteOf(p, c)).mem == c.mem
  {
  }

  lemma {:induction false} EvenAddress(e: Env, trace: seq<Cpu>, rule: FaultRule, lines: seq<Line>, u: nat)
    requires HasItsLine(e, trace, rule, lines) && u < |trace|
    ensures IsArm(e.p) ==> Pc(e.p, trace[u]) % 2 == 0
  {
    hide Pc, IsRecorded;
  }

  lemma {:induction false} SkipLandsIff(p: Program, c: Cpu)
    requires IsArm(p) ==> (Pc(p, c) + p.size(c)) % 2 == 0
    ensures SkippedCpu(p, c, SiteOf(p, c)) == c.(regs := c.regs[p.pcReg := Pc(p, c) + p.size(c)]) <==>
            p.arch.OtherArch? || (p.arch.Arm32? && c.thumb)
  {
    var a := Pc(p, c) + p.size(c);
    assert c.regs[p.pcReg := a][p.pcReg] == a && c.regs[p.pcReg := a + 1][p.pcReg] == a + 1;
    assert IsArm(p) ==> (a + 1) % 2 == 1;
  }

  /** The hook of an address to be skipped goes past the instruction, by the size configured for it or its own,
      and changes nothing but the program counter, if and only if the configured Thumb mode suits the core: none
      on a core without a Thumb bit or a 64-bit one, and the core's own state on a 32-bit ARM core. */
  lemma {:induction false} SkipHookDoes(e: Env, r: Run, at: Site)
    requires at.address in e.p.skips
    ensures var s := AtSkip(e, r, at);
            var size := if e.p.skips[at.address] == 0 then at.size else e.p.skips[at.address];
            && s == r.(cpu := s.cpu, control := Skipped)
            && ((IsArm(e.p) ==> (at.address + size) % 2 == 0) ==>
                 (s.cpu == r.cpu.(regs := r.cpu.regs[e.p.pcReg := at.address + size]) <==>
                  if e.p.arch.Arm32? then e.p.thumbMode == r.cpu.thumb else !e.p.thumbMode))
  {
    var size := if e.p.skips[at.address] == 0 then at.size else e.p.skips[at.address];
    var a, regs := at.address + size, r.cpu.regs;
    assert regs[e.p.pcReg := a][e.p.pcReg] == a && regs[e.p.pcReg := a + 1][e.p.pcReg] == a + 1;
    if IsArm(e.p) && a % 2 == 0 {
      assert (a + 1) % 2 == 1;
    }
  }
}

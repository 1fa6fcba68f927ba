/** How often a repeated fault is made again, and what it does each time. */
module Repeats {
  import opened Utils
  import opened Machine
  import opened Equivalence
  import opened Hooks
  import opened GoldenRun
  import opened StatsRun
  import opened Aftermath
  import opened Injection
  import opened ExactlyOnce
  import opened Pruning
  import opened MixedLifespans
  import opened LaterTests
  import Lifespans
  import FaultEffects
  import opened Resumes

  predicate IsRepeated(rule: FaultRule) {
    rule.lifespan.mode.Repeat? && rule.lifespan.count > 0
  }

  /** A repeat rule at work: the rule as it was written, the place of its lifespan hook, and the address of its
      line's instruction. */
  datatype Repetition = Repetition(rule: FaultRule, hook: nat, site: nat)

  function RepeatKind(target: Target): HookKind {
    match target
    case Register => RepeatRegister
    case Instruction => RepeatInstruction
    case InstructionPointer => RepeatIP
  }

  function RepeatWhere(v: Repetition): Where {
    if v.rule.target.Register? then Everywhere else At({v.site})
  }

  /** The fault was made again this often.  The counter has what is left; the hook is there as long as
      something is, and was deleted once after that. */
  ghost predicate Repeated(e: Env, r: Run, v: Repetition, made: nat) {
    && IsRepeated(v.rule) && Accepts(v.rule) && SameRule(r.rule, v.rule) && made <= v.rule.lifespan.count
    && r.rule.lifespan.live == v.rule.lifespan.count - made
    && 12 <= v.hook <= 13 && |r.hooks| == v.hook + 1
    && r.hooks[v.hook] == Hook(RepeatKind(v.rule.target), RepeatWhere(v), if made < v.rule.lifespan.count then 0 else 1)
    && r.hk.lifespan == (if made < v.rule.lifespan.count then v.hook + 1 else 0)
    && v.site == ThumbCheck(e.p, LineAt(r.lines, v.rule.instruction).address)
  }

  /** The fault is to be made again in this step's dispatch, if anything is left: for a register at every
      instruction, but for the line itself before the first time; for an instruction or a skip at the line's
      address, once the count has gone past the line. */
  ghost predicate IsDue(e: Env, r: Run, v: Repetition) {
    GetsThere(e, r) && !Step(e, r).state.EquivalentRs? &&
    var count := r.count + if FlagAt(e, r.inRange, Pc(e.p, r.cpu)) then 1 else 0;
    match v.rule.target
    case Register => Pc(e.p, r.cpu) != v.site || r.rule.lifespan.live != v.rule.lifespan.count
    case Instruction => Pc(e.p, r.cpu) == v.site && count > v.rule.instruction + 1
    case InstructionPointer => Pc(e.p, r.cpu) == v.site && count != v.rule.instruction
  }

  /** What a repeat does.  A register holds the fault of its value when the instruction is executed, or the
      run goes on at the faulted program counter; the line's bytes are replaced by the fault of those that
      were there, and the run is to resume at its address; or the run goes on past the instruction. */
  ghost predicate MadeAgain(e: Env, r: Run, s: Run, v: Repetition) {
    var c := r.cpu;
    var a, size := Pc(e.p, c), e.p.size(c);
    match v.rule.target
    case Register =>
      var faulted := FaultedCpu(e.p, c, v.rule, size);
      if v.rule.number == e.p.pcReg then s.cpu == faulted && s.phase.Running? else HasDone(s, e.p.exec(faulted))
    case Instruction =>
      FaultsBytes(v.rule.operation)
      && s.cpu == WriteMem(c, ThumbCheck(e.p, a), FaultBytes(v.rule.mask, v.rule.operation, ReadMem(c, a, size)))
      && s.phase.Stopped? && s.restart && s.restartAddress == if IsArm(e.p) && size == 2 then a + 1 else a
    case InstructionPointer => s.cpu == SkippedCpu(e.p, c, SiteOf(e.p, c)) && s.phase.Running?
  }

  // ----- the hooks -----

  lemma {:induction false} LastIsSpent(r: Run, kind: HookKind, h: nat)
    requires IsLifespan(kind) && r.hk.lifespan == h + 1 == |r.hooks| && r.hooks[h].deletions == 0
    ensures var s := RemoveIfSpent(r, kind);
            && s == r.(hooks := s.hooks, hk := s.hk) && |s.hooks| == |r.hooks|
            && s.hk == r.hk.(lifespan := if r.rule.lifespan.live == 0 then 0 else h + 1)
            && s.hooks[h] == r.hooks[h].(deletions := if r.rule.lifespan.live == 0 then 1 else 0)
  {
  }

  lemma {:induction false} RegisterAgain(e: Env, r: Run, at: Site, v: Repetition, made: nat)
    requires Repeated(e, r, v, made) && made < v.rule.lifespan.count && v.rule.target.Register?
    requires r.control.Going?
    ensures var s := RepeatRegisterHook(e, r, at);
            if at.address == v.site && r.rule.lifespan.live == v.rule.lifespan.count then s == r
            else
              && Repeated(e, s, v, made + 1) && s.cpu == FaultedCpu(e.p, r.cpu, v.rule, at.size)
              && s.control == (if v.rule.number == e.p.pcReg then PcWritten else r.control)
              && s.phase == r.phase && s.state == r.state && s.restart == r.restart
  {
    hide FaultedCpu, DoTheRegisterFault, RemoveIfSpent, LineAt, ThumbCheck;
    var r1 := CountDown(r);
    FaultsCpu(e, r1, at);
    SameFault(e.p, r.cpu, r1.rule, v.rule, at.size);
    LastIsSpent(DoTheRegisterFault(e, r1, at), RepeatRegister, v.hook);
  }

  lemma {:induction false} SameFault(p: Program, c: Cpu, a: FaultRule, b: FaultRule, size: nat)
    requires SameRule(a, b)
    ensures FaultedCpu(p, c, a, size) == FaultedCpu(p, c, b, size)
  {
    hide FaultReg, WritePc;
  }

  lemma {:induction false} InstructionAgain(e: Env, r: Run, at: Site, v: Repetition, made: nat)
    requires Repeated(e, r, v, made) && made < v.rule.lifespan.count && v.rule.target.Instruction?
    requires r.state.Faulted? && r.control.Going?
    ensures var s := RepeatInstructionHook(e, r, at);
            if r.count <= v.rule.instruction + 1 then s == r
            else
              && Repeated(e, s, v, made + 1) && s.control.StopRequested? && s.restart
              && s.state == r.state && s.phase == r.phase
              && s.cpu == WriteMem(r.cpu, ThumbCheck(e.p, at.address),
                                   FaultBytes(v.rule.mask, v.rule.operation, ReadMem(r.cpu, at.address, at.size)))
              && s.restartAddress == if IsArm(e.p) && at.size == 2 then at.address + 1 else at.address
  {
    hide WriteMem, ReadMem, FaultBytes, RemoveIfSpent, LineAt;
    LastIsSpent(CountDown(DoTheInstructionFault(e, r, at)), RepeatInstruction, v.hook);
  }

  lemma {:induction false} SkipAgain(e: Env, r: Run, at: Site, v: Repetition, made: nat)
    requires Repeated(e, r, v, made) && made < v.rule.lifespan.count && v.rule.target.InstructionPointer?
    requires r.state.Faulted?
    ensures var s := RepeatIPHook(e, r, at);
            if r.count == v.rule.instruction then s == r
            else
              && Repeated(e, s, v, made + 1) && s.control.PcWritten? && s.cpu == SkippedCpu(e.p, r.cpu, at)
              && s.state == r.state && s.phase == r.phase && s.restart == r.restart
  {
    hide WritePc, RemoveIfSpent, LineAt, ThumbCheck;
    var r1 := DoTheIPFault(e, CountDown(r), at);
    LastIsSpent(r1.(trail := r1.trail.(drift := r1.trail.drift + 1)), RepeatIP, v.hook);
  }

  // ----- a dispatch -----

  lemma {:induction false} DeadVisit(e: Env, r: Run, at: Site, i: nat)
    requires HasFaulted(e, r) && 12 <= i < |r.hooks| && r.hk.equivalent != i + 1 && r.hk.lifespan != i + 1
    ensures Visit(e, r, at, i) == r
  {
    hide SetupHooks;
    assert r.hooks[i].deletions == 0 ==> IsLater(r.hooks[i].kind) && HandleOf(r.hk, r.hooks[i].kind) == i + 1;
  }

  /** Only the lifespan hook is left to visit. */
  lemma {:induction false} OnlyTheLast(e: Env, r: Run, at: Site, h: nat)
    requires HasFaulted(e, r) && r.control.Going? && !r.restart && 12 <= h <= 13 && |r.hooks| == h + 1
    requires r.hk.equivalent == 0 && (r.hk.lifespan == 0 || r.hk.lifespan == h + 1)
    ensures Dispatch(e, r, at, 12) == Visit(e, r, at, h)
  {
    hide HasFaulted, Visit;
    OneVisit(e, r, at, 12);
    if h == 13 {
      DeadVisit(e, r, at, 12);
      OneVisit(e, r, at, 13);
    }
    LaterVisit(e, r, at, h);
    LaterTests.NothingBehind(e, Visit(e, r, at, h), at);
  }

  /** The test was made or is not asked for, or it comes before the lifespan hook. */
  predicate MayTest(r: Run, v: Repetition) {
    r.hk.equivalent == 0 || (TestWaits(r) && v.hook == 13)
  }

  /** Within a dispatch at this address, after the counting: the fault is to be made again. */
  predicate Asks(r: Run, a: nat, v: Repetition) {
    match v.rule.target
    case Register => a != v.site || r.rule.lifespan.live != v.rule.lifespan.count
    case Instruction => a == v.site && r.count > v.rule.instruction + 1
    case InstructionPointer => a == v.site && r.count != v.rule.instruction
  }

  /** What the lifespan hook makes of a run it makes the fault in again. */
  ghost predicate HookRepeats(e: Env, r: Run, s: Run, at: Site, v: Repetition) {
    s.state == r.state && s.phase == r.phase &&
    match v.rule.target
    case Register =>
      s.cpu == FaultedCpu(e.p, r.cpu, v.rule, at.size) && !s.restart
      && s.control == if v.rule.number == e.p.pcReg then PcWritten else Going
    case Instruction =>
      FaultsBytes(v.rule.operation) && s.control.StopRequested? && s.restart
      && s.cpu == WriteMem(r.cpu, ThumbCheck(e.p, at.address),
                           FaultBytes(v.rule.mask, v.rule.operation, ReadMem(r.cpu, at.address, at.size)))
      && s.restartAddress == if IsArm(e.p) && at.size == 2 then at.address + 1 else at.address
    case InstructionPointer => s.control.PcWritten? && s.cpu == SkippedCpu(e.p, r.cpu, at) && !s.restart
  }

  lemma {:induction false} LastVisit(e: Env, r: Run, at: Site, v: Repetition, made: nat)
    requires Repeated(e, r, v, made) && r.control.Going? && !r.restart && r.state.Faulted?
    ensures var s := Visit(e, r, at, v.hook);
            if made < v.rule.lifespan.count && Asks(r, at.address, v)
            then Repeated(e, s, v, made + 1) && HookRepeats(e, r, s, at, v)
            else s == r
  {
    LastIsCalled(e, r, at, v, made);
    hide FaultedCpu, RepeatRegisterHook, RepeatInstructionHook, RepeatIPHook, WriteMem, ReadMem, FaultBytes,
         SkippedCpu, Visit, Repeated;
    if made < v.rule.lifespan.count {
      match v.rule.target
      case Register => RegisterAgain(e, r, at, v, made);
      case Instruction => InstructionAgain(e, r, at, v, made);
      case InstructionPointer => SkipAgain(e, r, at, v, made);
    }
  }

  /** The lifespan hook is called where it covers the address, as long as it is there. */
  lemma {:induction false} LastIsCalled(e: Env, r: Run, at: Site, v: Repetition, made: nat)
    requires Repeated(e, r, v, made)
    ensures var s := Visit(e, r, at, v.hook);
            if made == v.rule.lifespan.count then s == r
            else
              match v.rule.target
              case Register => s == RepeatRegisterHook(e, r, at)
              case Instruction => s == if at.address == v.site then RepeatInstructionHook(e, r, at) else r
              case InstructionPointer => s == if at.address == v.site then RepeatIPHook(e, r, at) else r
    ensures made <= v.rule.lifespan.count && SameRule(r.rule, v.rule) && Accepts(v.rule)
  {
    hide RepeatRegisterHook, RepeatInstructionHook, RepeatIPHook, LineAt, Accepts;
  }

  lemma {:induction false} TestKeepsRepeated(e: Env, r: Run, v: Repetition, made: nat)
    requires Repeated(e, r, v, made) && TestWaits(r) && v.hook == 13
    ensures Repeated(e, CheckEquivalent(e, r), v, made)
  {
    hide StateHashes, Record, Known, Accepts, LineAt;
  }

  /** The dispatch from behind the counting hook on. */
  lemma {:induction false} RepeatDispatch(e: Env, r: Run, at: Site, v: Repetition, made: nat)
    requires HasFaulted(e, r) && r.control.Going? && !r.restart && Repeated(e, r, v, made) && MayTest(r, v)
    ensures var d := Dispatch(e, r, at, 12);
            d.hk.equivalent == 0 || d.state.EquivalentRs?
    ensures var d := Dispatch(e, r, at, 12);
            if d.state.EquivalentRs? then Repeated(e, d, v, made) && d.control.StopRequested?
            else if made < v.rule.lifespan.count && Asks(r, at.address, v)
            then Repeated(e, d, v, made + 1) && HookRepeats(e, r, d, at, v)
            else Repeated(e, d, v, made) && d.cpu == r.cpu && d.control.Going? && d.phase == r.phase && d.state.Faulted?
                 && !d.restart
  {
    assert r.state.Faulted?;
    RepeatedHandles(e, r, v, made);
    hide HasFaulted, Visit, Repeated, FaultedCpu, WriteMem, ReadMem, FaultBytes, SkippedCpu, CheckEquivalent, Dispatch;
    if r.hk.equivalent == 0 {
      OnlyTheLast(e, r, at, v.hook);
      LastVisit(e, r, at, v, made);
      LifespanVisit(e, r, at, v.hook);
    } else {
      var y := CheckEquivalent(e, r);
      OneVisit(e, r, at, 12);
      IsTheTest(e, r, at);
      LaterVisit(e, r, at, 12);
      TestIs(e, r);
      TestKeepsRepeated(e, r, v, made);
      TestLeaves(e, r);
      if y.control.Going? {
        RepeatedHandles(e, y, v, made);
        OneVisit(e, y, at, 13);
        LaterVisit(e, y, at, 13);
        LaterTests.NothingBehind(e, Visit(e, y, at, 13), at);
        LastVisit(e, y, at, v, made);
        LifespanVisit(e, y, at, 13);
      } else {
        EndsThere(e, y, at, 13);
      }
    }
  }

  lemma {:induction false} RepeatedHandles(e: Env, r: Run, v: Repetition, made: nat)
    requires Repeated(e, r, v, made)
    ensures 12 <= v.hook <= 13 && |r.hooks| == v.hook + 1 && (r.hk.lifespan == 0 || r.hk.lifespan == v.hook + 1)
  {
  }

  lemma {:induction false} TestLeaves(e: Env, r: Run)
    ensures var s := CheckEquivalent(e, r);
            s.cpu == r.cpu && s.count == r.count && s.rule == r.rule
  {
    hide StateHashes, Record, Known, SetHandle, HandleOf;
  }

  // ----- a step -----

  lemma {:induction false} CountingKeepsRepeated(e: Env, r: Run, v: Repetition, made: nat)
    requires Repeated(e, r, v, made)
    ensures Repeated(e, Counted(e, r), v, made) && (MayTest(r, v) <==> MayTest(Counted(e, r), v))
    ensures Counted(e, r).count == r.count + (if FlagAt(e, r.inRange, Pc(e.p, r.cpu)) then 1 else 0)
    ensures Counted(e, r).cpu == r.cpu && Counted(e, r).rule == r.rule
  {
    hide LineAt, Accepts;
  }

  lemma {:induction false} FinishKeepsRepeated(e: Env, r: Run, v: Repetition, made: nat)
    requires Repeated(e, r, v, made)
    ensures Repeated(e, Finish(e, r), v, made) && Repeated(e, AfterSegment(e, r), v, made)
  {
    hide LineAt, Accepts, WritePc;
  }

  lemma {:induction false} EndsKeepRepeated(e: Env, r: Run, at: Site, v: Repetition, made: nat)
    requires Repeated(e, r, v, made) && r.hk.countInstructions == 12
    ensures Repeated(e, AtEndAddress(r), v, made) && Repeated(e, AtHardStop(e, r), v, made)
    ensures Repeated(e, AtSkip(e, r, at), v, made)
  {
    hide LineAt, Accepts, WritePc;
  }

  lemma {:induction false} FinishRepeats(e: Env, r: Run, d: Run, at: Site, v: Repetition)
    requires HookRepeats(e, r, d, at, v) && at == SiteOf(e.p, r.cpu) && r.phase.Running? && r.state.Faulted?
    ensures MadeAgain(e, r, Finish(e, d), v) && !Finish(e, d).state.EquivalentRs?
  {
    hide FaultedCpu, WriteMem, ReadMem, FaultBytes, SkippedCpu;
  }

  /** A step that gets to the hooks behind the counting hook. */
  lemma {:induction false} RepeatStep(e: Env, r: Run, v: Repetition, made: nat, budget: nat)
    requires IsFaulted(e, r, budget) && GetsThere(e, r) && Repeated(e, r, v, made) && MayTest(r, v)
    ensures var s := Step(e, r);
            if made < v.rule.lifespan.count && IsDue(e, r, v)
            then Repeated(e, s, v, made + 1) && MadeAgain(e, r, s, v)
            else Repeated(e, s, v, made) && (s.state.EquivalentRs? || HasDone(s, e.p.exec(r.cpu)))
    ensures Step(e, r).hk.equivalent == 0 || Step(e, r).state.EquivalentRs?
  {
    hide IsFaulted, HasFaulted, Repeated, Dispatch, Counted, HookRepeats, MadeAgain, HasDone, Finish, IsOrdinary,
         MayTest;
    Reaches(e, r, budget);
    CountingKeepsRepeated(e, r, v, made);
    var x, at := Counted(e, r), SiteOf(e.p, r.cpu);
    RepeatDispatch(e, x, at, v, made);
    var d := Dispatch(e, x, at, 12);
    FinishKeeps(e, d);
    if d.state.EquivalentRs? {
      FinishKeepsRepeated(e, d, v, made);
    } else if made < v.rule.lifespan.count && Asks(x, at.address, v) {
      FinishKeepsRepeated(e, d, v, made + 1);
      SameRepeats(e, x, r, d, at, v);
      FinishRepeats(e, r, d, at, v);
    } else {
      FinishKeepsRepeated(e, d, v, made);
      Does(e, d);
      DoneIsFaulted(Finish(e, d), e.p.exec(r.cpu));
    }
  }

  lemma {:induction false} SameRepeats(e: Env, r: Run, s: Run, d: Run, at: Site, v: Repetition)
    requires HookRepeats(e, r, d, at, v) && s.cpu == r.cpu && s.state == r.state && s.phase == r.phase
    ensures HookRepeats(e, s, d, at, v)
  {
  }

  lemma {:induction false} DoneIsFaulted(s: Run, exec: Exec)
    requires HasDone(s, exec)
    ensures !s.state.EquivalentRs?
  {
  }

  // ----- a run -----

  ghost predicate Repeating(e: Env, r: Run, v: Repetition, made: nat, budget: nat) {
    IsFaulted(e, r, budget) && Repeated(e, r, v, made)
    && (r.phase.Running? || (r.phase.Stopped? && r.restart) ==> MayTest(r, v))
  }

  /** A step that does not get there. */
  lemma {:induction false} OtherStep(e: Env, r: Run, v: Repetition, made: nat, budget: nat)
    requires IsFaulted(e, r, budget) && Repeated(e, r, v, made) && !GetsThere(e, r)
    ensures Repeated(e, Step(e, r), v, made)
  {
    if r.phase.Running? {
      RunningHasFaulted(e, r, budget);
      CountsAtTwelve(e, r);
      hide HasFaulted, Dispatch, AtEndAddress, AtHardStop, AtSkip, Finish, GoesOn, IsOver, FlagAt, Repeated;
      var at := SiteOf(e.p, r.cpu);
      var r1 := r.(inRange := FlagAt(e, r.inRange, at.address));
      FaultedPrefix(e, r, at);
      FlagKeepsRepeated(e, r, v, made, r1.inRange);
      EndsKeepRepeated(e, r, at, v, made);
      EndsKeepRepeated(e, r1, at, v, made);
      FinishKeepsRepeated(e, Dispatch(e, r, at, 0), v, made);
    } else {
      FinishKeepsRepeated(e, r, v, made);
      hide Repeated, AfterSegment;
    }
  }

  lemma {:induction false} CountsAtTwelve(e: Env, r: Run)
    requires HasFaulted(e, r)
    ensures r.hk.countInstructions == 12
  {
    hide SetupHooks;
  }

  lemma {:induction false} FlagKeepsRepeated(e: Env, r: Run, v: Repetition, made: nat, b: bool)
    requires Repeated(e, r, v, made)
    ensures Repeated(e, r.(inRange := b), v, made)
  {
    hide LineAt, Accepts;
  }

  function Min(a: nat, b: nat): nat {
    if a < b then a else b
  }

  lemma {:induction false} RepeatingStep(e: Env, r: Run, v: Repetition, due: nat, budget: nat)
    requires Repeating(e, r, v, Min(due, v.rule.lifespan.count), budget)
    ensures Repeating(e, Step(e, r), v, Min(due + if IsDue(e, r, v) then 1 else 0, v.rule.lifespan.count), budget)
  {
    var made := Min(due, v.rule.lifespan.count);
    hide IsFaulted, Repeated, Step, MadeAgain, HasDone, IsOrdinary;
    StaysFaulted(e, r, budget);
    if GetsThere(e, r) {
      RepeatStep(e, r, v, made, budget);
      StoppedIsOver(e, Step(e, r), budget);
    } else {
      OtherStep(e, r, v, made, budget);
      StepOver(e, r, budget);
    }
  }

  lemma {:induction false} StoppedIsOver(e: Env, r: Run, budget: nat)
    requires IsFaulted(e, r, budget)
    ensures r.state.EquivalentRs? ==> !r.phase.Running?
    ensures r.restart && !r.phase.Ended? ==> !r.state.EquivalentRs?
  {
    hide FaultedHooks;
  }

  /** The steps of the first n whose dispatch the fault was to be made again in. */
  ghost function DueSteps(e: Env, r: Run, v: Repetition, n: nat): nat {
    if n == 0 then 0 else DueSteps(e, r, v, n - 1) + if IsDue(e, Steps(e, r, n - 1), v) then 1 else 0
  }

  lemma {:induction false} RepeatingSteps(e: Env, r: Run, v: Repetition, budget: nat, n: nat)
    requires Repeating(e, r, v, 0, budget)
    ensures Repeating(e, Steps(e, r, n), v, Min(DueSteps(e, r, v, n), v.rule.lifespan.count), budget)
  {
    hide Repeating, Step, IsDue;
    if n > 0 {
      RepeatingSteps(e, r, v, budget, n - 1);
      RepeatingStep(e, Steps(e, r, n - 1), v, DueSteps(e, r, v, n - 1), budget);
    }
  }

  // ----- from the fault -----

  function RepetitionOf(e: Env, rule: FaultRule, site: nat): Repetition {
    Repetition(rule, if e.stopOnEquivalence || rule.target.Register? then 13 else 12, site)
  }

  lemma {:induction false} InstallsRepeat(e: Env, r: Run, rule: FaultRule, at: Site)
    requires |r.hooks| == 12 && r.hk.equivalent == r.hk.lifespan == 0 && IsRepeated(rule) && SameRule(r.rule, rule)
    requires Accepts(rule) && at.address == ThumbCheck(e.p, LineAt(r.lines, rule.instruction).address)
    requires rule.target.Instruction?
    ensures var s := AddLifespan(AddEquivalent(e, r), RevertInstruction, RepeatInstruction, At({at.address}));
            var v := RepetitionOf(e, rule, at.address);
            Repeated(e, s, v, 0) && MayTest(s, v) && s.hk.faultIt == r.hk.faultIt
  {
    hide LineAt, ThumbCheck, Accepts, SetHandle, HandleOf;
    LaterHandle(r.hk, Equivalent);
    LaterHandle(AddEquivalent(e, r).hk, RepeatInstruction);
  }

  lemma {:induction false} InstallsSkip(e: Env, r: Run, rule: FaultRule, at: Site)
    requires |r.hooks| == 12 && r.hk.equivalent == r.hk.lifespan == 0 && IsRepeated(rule) && SameRule(r.rule, rule)
    requires Accepts(rule) && at.address == ThumbCheck(e.p, LineAt(r.lines, rule.instruction).address)
    requires rule.target.InstructionPointer?
    ensures var s, v := AddSkipLifespan(AddEquivalent(e, r), at), RepetitionOf(e, rule, at.address);
            Repeated(e, s, v, 0) && MayTest(s, v) && s.hk.faultIt == r.hk.faultIt
  {
    hide LineAt, ThumbCheck, Accepts, SetHandle, HandleOf;
    LaterHandle(r.hk, Equivalent);
    LaterHandle(AddEquivalent(e, r).hk, RepeatIP);
  }

  lemma {:induction false} PrimaryGoesToo(e: Env, r: Run, v: Repetition, kind: HookKind)
    requires Repeated(e, r, v, 0) && MayTest(r, v) && r.hk.faultIt == 11
    requires kind.FaultItInstruction? || kind.FaultItIP?
    ensures var s := RemoveIfSet(r, kind);
            Repeated(e, s, v, 0) && MayTest(s, v)
  {
    hide LineAt, ThumbCheck, Accepts;
  }

  lemma {:induction false} InstructionStarts(e: Env, o: Origin, w: Run, at: Site)
    requires AtTheHook(e, o, w, at) && w.rule.target.Instruction? && IsRepeated(w.rule)
    requires at.address == ThumbCheck(e.p, LineAt(w.lines, w.rule.instruction).address)
    ensures var s, v := FaultInstructionHook(e, w, at), RepetitionOf(e, w.rule, at.address);
            Repeated(e, s, v, 0) && MayTest(s, v)
  {
    FreshHooks(e, o, w, at);
    Lifespans.FaultIsMade(e, o, w, at);
    assert Accepts(w.rule);
    hide AtTheHook, AddLifespan, AddEquivalent, RemoveIfSet, FaultBytes, WriteMem, ReadMem, TestWaits, Repeated, LineAt,
         ThumbCheck;
    var r1, v := Fire(DoTheInstructionFault(e, w, at), at), RepetitionOf(e, w.rule, at.address);
    InstallsRepeat(e, r1, w.rule, at);
    var r2 := AddLifespan(AddEquivalent(e, r1), RevertInstruction, RepeatInstruction, At({at.address}));
    var r3 := RestartAt(r2, ThumbAddress(e.p, at.address));
    RestartKeepsRepeated(e, r2, v, ThumbAddress(e.p, at.address));
    PrimaryGoesToo(e, r3, v, FaultItInstruction);
  }

  lemma {:induction false} RestartKeepsRepeated(e: Env, r: Run, v: Repetition, a: nat)
    requires Repeated(e, r, v, 0) && MayTest(r, v)
    ensures Repeated(e, RestartAt(r, a), v, 0) && MayTest(RestartAt(r, a), v) && RestartAt(r, a).hk == r.hk
  {
    hide LineAt, ThumbCheck, Accepts;
  }

  lemma {:induction false} SkipStarts(e: Env, o: Origin, w: Run, at: Site)
    requires AtTheHook(e, o, w, at) && w.rule.target.InstructionPointer? && IsRepeated(w.rule)
    requires at.address == ThumbCheck(e.p, LineAt(w.lines, w.rule.instruction).address)
    ensures var s, v := FaultIPHook(e, w, at), RepetitionOf(e, w.rule, at.address);
            Repeated(e, s, v, 0) && MayTest(s, v)
  {
    FreshHooks(e, o, w, at);
    assert Accepts(w.rule) && IsTheLine(w);
    hide AtTheHook, AddSkipLifespan, AddEquivalent, RemoveIfSet, WritePc, TestWaits, Repeated, LineAt, ThumbCheck;
    var r1 := Fire(DoTheIPFault(e, w, at), at);
    InstallsSkip(e, r1, w.rule, at);
    PrimaryGoesToo(e, AddSkipLifespan(AddEquivalent(e, r1), at), RepetitionOf(e, w.rule, at.address), FaultItIP);
  }

  lemma {:induction false} InstallsRegister(e: Env, r: Run, rule: FaultRule, site: nat)
    requires |r.hooks| == 13 && r.hk.equivalent == r.hk.lifespan == 0 && IsRepeated(rule) && SameRule(r.rule, rule)
    requires Accepts(rule) && site == ThumbCheck(e.p, LineAt(r.lines, rule.instruction).address)
    requires rule.target.Register?
    ensures var s := AddLifespan(r, RevertRegister, RepeatRegister, Everywhere).(state := Faulted);
            && Repeated(e, s, RepetitionOf(e, rule, site), 0) && s.hk.equivalent == 0 && s.hk.faultIt == r.hk.faultIt
  {
    hide LineAt, ThumbCheck, Accepts;
  }

  lemma {:induction false} SecondGoes(e: Env, r: Run, v: Repetition)
    requires Repeated(e, r, v, 0) && v.hook == 13 && r.hk.faultIt == 13 && r.hk.equivalent == 0
    ensures Repeated(e, RemoveIfSet(r, FaultItRegister), v, 0) && RemoveIfSet(r, FaultItRegister).hk.equivalent == 0
    ensures Repeated(e, RecordState(e, r), v, 0) && RecordState(e, r).hk == r.hk
    ensures Repeated(e, Stop(RecordState(e, r).(state := EquivalentRs)), v, 0)
  {
    hide LineAt, ThumbCheck, Accepts, Record, StateHashes;
  }

  lemma {:induction false} RegisterStarts(e: Env, r: Run, rule: FaultRule, at: Site, site: nat)
    requires |r.hooks| == 13 && r.hk.equivalent == r.hk.lifespan == 0 && r.hk.faultIt == 13 && IsRepeated(rule)
    requires SameRule(r.rule, rule) && Accepts(rule) && rule.target.Register? && r.control.Going?
    requires site == ThumbCheck(e.p, LineAt(r.lines, rule.instruction).address)
    ensures var s := FaultRegisterHook(e, r, at);
            Repeated(e, s, RepetitionOf(e, rule, site), 0) && s.hk.equivalent == 0
  {
    FaultsCpu(e, r, at);
    FireOnlyLogs(DoTheRegisterFault(e, r, at), at);
    RegisterHasNoTest(e, r, at);
    hide DoTheRegisterFault, FaultedCpu, Accepts, AddLifespan, RemoveIfSet, Fire, Repeated, RecordState, IsEquivalent,
         LineAt, ThumbCheck;
    var r1, v := Fire(DoTheRegisterFault(e, r, at), at), RepetitionOf(e, rule, site);
    InstallsRegister(e, r1, rule, site);
    var r2 := AddLifespan(r1, RevertRegister, RepeatRegister, Everywhere).(state := Faulted);
    SecondGoes(e, r2, v);
    SecondGoes(e, RecordState(e, r2), v);
  }

  /** The register fault's own dispatch: its lifespan hook, visited in it, does nothing yet. */
  lemma {:induction false} RegisterDispatchStarts(e: Env, o: Origin, w: Run, at: Site)
    requires AtTheHook(e, o, w, at) && w.rule.target.Register? && IsRepeated(w.rule)
    requires |w.hooks| == 12 && IsCalled(w, at, 10) && w.hooks[10].kind.FaultItAddress?
    requires at.address == ThumbCheck(e.p, LineAt(w.lines, w.rule.instruction).address)
    ensures var d := Dispatch(e, w, at, 10);
            Repeated(e, d, RepetitionOf(e, w.rule, at.address), 0) && d.hk.equivalent == 0
  {
    assert Accepts(w.rule);
    ReachSecondHook(e, o, w, at);
    ToTheSecondHook(e, o, w, at);
    hide AtTheHook, Accepts, FaultRegisterHook, FaultAddressHook, Count, Dispatch, HasFaulted, Repeated, Visit, LineAt,
         ThumbCheck;
    var w1, v := Count(FaultAddressHook(w, at)), RepetitionOf(e, w.rule, at.address);
    var d := FaultRegisterHook(e, w1, at);
    RegisterStarts(e, w1, w.rule, at, at.address);
    RegisterFires(e, o, w, w1, at);
    RepeatedHandles(e, d, v, 0);
    if d.control.Going? {
      FiredIsFaulted(e, w, at, d);
      OneVisit(e, d, at, 13);
      LastVisit(e, d, at, v, 0);
      NothingYet(e, d, v, at.address);
      LaterTests.NothingBehind(e, d, at);
    } else {
      EndsThere(e, d, at, 13);
    }
  }

  lemma {:induction false} NothingYet(e: Env, r: Run, v: Repetition, a: nat)
    requires Repeated(e, r, v, 0) && v.rule.target.Register? && a == v.site
    ensures !Asks(r, a, v)
  {
  }

  lemma {:induction false} FiredIsFaulted(e: Env, w: Run, at: Site, s: Run)
    requires Fired(e, w, at, s, 1)
    ensures s.state.Faulted?
  {
    hide FaultedHooks;
  }

  /** From the fault on. */
  lemma {:induction false} FaultStarts(e: Env, o: Origin, trace: seq<Cpu>, rule: FaultRule, lines: seq<Line>,
                                       classes: seq<Class<FaultRule>>)
    requires HasItsLine(e, trace, rule, lines) && Accepts(rule) && IsRepeated(rule)
    requires o.Restored? || !RestoresCheckpoint(e, rule, lines)
    ensures FaultDispatch(e, trace, rule, lines) < |trace|
    ensures var v := RepetitionOf(e, rule, Pc(e.p, trace[FaultDispatch(e, trace, rule, lines)]));
            Repeating(e, AfterFault(e, o, trace, rule, lines, classes), v, 0, RestartBudget(o, rule))
  {
    FiresThereOnly(e, trace, rule, lines);
    var u := FaultDispatch(e, trace, rule, lines);
    Lifespans.SiteIsLine(e, o, trace, rule, lines, classes, u);
    var at, w := SiteOf(e.p, trace[u]), Within(e, o, trace, rule, lines, classes, u);
    hide Dispatch, Visit, SetupHooks, AtTheHook, RestoresCheckpoint, Finish, FaultIPHook, FaultInstructionHook, Accepts,
         Fires, IsGolden, IsRecorded, Within, Before, Step, HasFaulted, Repeated, GoesOn, IsOver, LineAt, ThumbCheck;
    LineInjects(e, o, trace, rule, lines, classes, u);
    ReachWithin(e, o, trace, rule, lines, classes, u);
    AtItsLine(e, o, trace, rule, lines, classes, u);
    FreshHooks(e, o, w, at);
    StepOfBefore(e, o, trace, rule, lines, classes, u);
    OneVisit(e, w, at, 9);
    var v, d := RepetitionOf(e, rule, at.address), Dispatch(e, w, at, 10);
    match rule.target {
      case Register => RegisterDispatchStarts(e, o, w, at);
      case Instruction =>
        OneVisit(e, w, at, 10);
        FaultEffects.PrimaryVisits(e, w, at);
        InstructionFires(e, o, w, at);
        InstructionStarts(e, o, w, at);
        RepeatedHandles(e, FaultInstructionHook(e, w, at), v, 0);
        EndsThere(e, FaultInstructionHook(e, w, at), at, 11);
      case InstructionPointer =>
        OneVisit(e, w, at, 10);
        FaultEffects.PrimaryVisits(e, w, at);
        IPFires(e, o, w, at);
        SkipStarts(e, o, w, at);
        RepeatedHandles(e, FaultIPHook(e, w, at), v, 0);
        EndsThere(e, FaultIPHook(e, w, at), at, 11);
    }
    FinishKeepsRepeated(e, d, v, 0);
    FinishKeepsTest(e, d, v);
  }

  lemma {:induction false} FinishKeepsTest(e: Env, d: Run, v: Repetition)
    requires MayTest(d, v)
    ensures MayTest(Finish(e, d), v)
  {
  }

  // ----- whole runs -----

  /** A fault that is repeated n times, of any target and on any program: at every point from the fault on,
      the live counter is n less the repeats made, the repeats made are the dispatches that were due, up to
      n, and the lifespan hook is there exactly as long as something is left, and was deleted once after
      that.  A dispatch that is due makes the fault again as long as something is left; any other that gets
      to the hooks behind the counting hook executes its instruction, or is stopped by the equivalence
      test. */
  lemma {:induction false} RepeatsOnTime(e: Env, o: Origin, trace: seq<Cpu>, rule: FaultRule, lines: seq<Line>,
                                         classes: seq<Class<FaultRule>>, n: nat)
    requires HasItsLine(e, trace, rule, lines) && Accepts(rule) && IsRepeated(rule)
    requires o.Restored? || !RestoresCheckpoint(e, rule, lines)
    ensures FaultDispatch(e, trace, rule, lines) < |trace|
    ensures var v := RepetitionOf(e, rule, Pc(e.p, trace[FaultDispatch(e, trace, rule, lines)]));
            var faulted := AfterFault(e, o, trace, rule, lines, classes);
            var r, due := Steps(e, faulted, n), DueSteps(e, faulted, v, n);
            var made := if due < rule.lifespan.count then due else rule.lifespan.count;
            && r.rule.lifespan.live == rule.lifespan.count - made
            && |r.hooks| == v.hook + 1 && r.hooks[v.hook].kind == RepeatKind(rule.target)
            && r.hooks[v.hook].deletions == (if made < rule.lifespan.count then 0 else 1)
            && (r.hk.lifespan != 0 <==> made < rule.lifespan.count)
            && (GetsThere(e, r) ==>
                  if IsDue(e, r, v) && made < rule.lifespan.count then MadeAgain(e, r, Step(e, r), v)
                  else Step(e, r).state.EquivalentRs? || HasDone(Step(e, r), e.p.exec(r.cpu)))
  {
    hide HasItsLine, Accepts, IsRepeated, RestoresCheckpoint, AfterFault, Step, IsDue, MadeAgain, HasDone,
         FaultDispatch, GetsThere, Repeated, Pc, IsFaulted, MayTest, RepetitionOf;
    FaultStarts(e, o, trace, rule, lines, classes);
    var v := RepetitionOf(e, rule, Pc(e.p, trace[FaultDispatch(e, trace, rule, lines)]));
    var faulted, budget := AfterFault(e, o, trace, rule, lines, classes), RestartBudget(o, rule);
    RepeatingSteps(e, faulted, v, budget, n);
    var r, made := Steps(e, faulted, n), Min(DueSteps(e, faulted, v, n), v.rule.lifespan.count);
    RepetitionIs(e, rule, Pc(e.p, trace[FaultDispatch(e, trace, rule, lines)]));
    RepeatedMeans(e, r, v, made);
    if GetsThere(e, r) {
      IsRunningThere(e, r);
      RepeatStep(e, r, v, made, budget);
    }
  }

  lemma {:induction false} RepetitionIs(e: Env, rule: FaultRule, site: nat)
    ensures RepetitionOf(e, rule, site).rule == rule && RepetitionOf(e, rule, site).site == site
  {
  }

  lemma {:induction false} IsRunningThere(e: Env, r: Run)
    requires GetsThere(e, r)
    ensures r.phase.Running?
  {
  }

  lemma {:induction false} RepeatedMeans(e: Env, r: Run, v: Repetition, made: nat)
    requires Repeated(e, r, v, made)
    ensures r.rule.lifespan.live == v.rule.lifespan.count - made && |r.hooks| == v.hook + 1
    ensures r.hooks[v.hook].kind == RepeatKind(v.rule.target)
    ensures r.hooks[v.hook].deletions == (if made < v.rule.lifespan.count then 0 else 1)
    ensures r.hk.lifespan != 0 <==> made < v.rule.lifespan.count
  {
    hide LineAt, ThumbCheck, Accepts;
  }

  // ----- where a run goes on after a repeat -----

  /** The address a repeated instruction fault resumes at: with the Thumb bit for instructions of two bytes. */
  function RepeatAddress(p: Program, c: Cpu): nat {
    if IsArm(p) && p.size(c) == 2 then Pc(p, c) + 1 else Pc(p, c)
  }

  lemma {:induction false} SiteIsAnAddress(e: Env, r: Run, v: Repetition, made: nat)
    requires Repeated(e, r, v, made)
    ensures ThumbCheck(e.p, v.site) == v.site
  {
  }

  lemma {:induction false} RepeatStepResumes(e: Env, r: Run, v: Repetition, made: nat, budget: nat)
    requires Repeating(e, r, v, made, budget) && v.rule.target.Instruction?
    requires IsDue(e, r, v) && made < v.rule.lifespan.count
    ensures FaultsBytes(v.rule.operation)
    ensures var a, size := Pc(e.p, r.cpu), e.p.size(r.cpu);
            var c := WriteMem(r.cpu, a, FaultBytes(v.rule.mask, v.rule.operation, ReadMem(r.cpu, a, size)));
            var s := Step(e, Step(e, r));
            && s.phase.Running? && s.cpu == WritePc(e.p, c, RepeatAddress(e.p, r.cpu))
            && (s.cpu == c <==> WritePc(e.p, r.cpu, RepeatAddress(e.p, r.cpu)) == r.cpu) && Pc(e.p, c) == a
  {
    var a, size := Pc(e.p, r.cpu), e.p.size(r.cpu);
    hide IsFaulted, Repeated, Step, WritePc, ReadMem, FaultBytes, WriteMem, Pc, IsOrdinary, ThumbCheck;
    SiteIsAnAddress(e, r, v, made);
    RepeatStep(e, r, v, made, budget);
    StaysFaulted(e, r, budget);
    ResumesThere(e, Step(e, r), budget);
    var c := WriteMem(r.cpu, a, FaultBytes(v.rule.mask, v.rule.operation, ReadMem(r.cpu, a, size)));
    WriteKeepsRegisters(r.cpu, a, FaultBytes(v.rule.mask, v.rule.operation, ReadMem(r.cpu, a, size)));
    MemoryIsFree(e.p, r.cpu, c, RepeatAddress(e.p, r.cpu));
  }

  /** A repeated instruction fault: when it is made again, the run goes on one turn of the restart loop later,
      with the fault of the bytes that were there in memory, and otherwise as it was, if and only if starting
      at that address leaves its CPU as it is. */
  lemma {:induction false} RepeatResumes(e: Env, o: Origin, trace: seq<Cpu>, rule: FaultRule, lines: seq<Line>,
                                         classes: seq<Class<FaultRule>>, n: nat)
    requires HasItsLine(e, trace, rule, lines) && Accepts(rule) && IsRepeated(rule) && rule.target.Instruction?
    requires o.Restored? || !RestoresCheckpoint(e, rule, lines)
    ensures FaultDispatch(e, trace, rule, lines) < |trace|
    ensures var v := RepetitionOf(e, rule, Pc(e.p, trace[FaultDispatch(e, trace, rule, lines)]));
            var faulted := AfterFault(e, o, trace, rule, lines, classes);
            var r, s := Steps(e, faulted, n), Steps(e, faulted, n + 2);
            var a, size := Pc(e.p, r.cpu), e.p.size(r.cpu);
            var c := WriteMem(r.cpu, a, FaultBytes(rule.mask, rule.operation, ReadMem(r.cpu, a, size)));
            IsDue(e, r, v) && DueSteps(e, faulted, v, n) < rule.lifespan.count ==>
              && s.phase.Running? && Pc(e.p, c) == a
              && (s.cpu == c <==> WritePc(e.p, r.cpu, RepeatAddress(e.p, r.cpu)) == r.cpu)
  {
    hide HasItsLine, IsRepeated, RestoresCheckpoint, AfterFault, Step, IsDue, FaultDispatch, Repeating, RepetitionOf,
         Pc, WritePc, ReadMem, FaultBytes, WriteMem, RepeatAddress;
    FaultStarts(e, o, trace, rule, lines, classes);
    var site := Pc(e.p, trace[FaultDispatch(e, trace, rule, lines)]);
    var v := RepetitionOf(e, rule, site);
    var faulted, budget := AfterFault(e, o, trace, rule, lines, classes), RestartBudget(o, rule);
    RepeatingSteps(e, faulted, v, budget, n);
    RepetitionIs(e, rule, site);
    var r := Steps(e, faulted, n);
    if IsDue(e, r, v) && DueSteps(e, faulted, v, n) < rule.lifespan.count {
      RepeatStepResumes(e, r, v, DueSteps(e, faulted, v, n), budget);
      assert Steps(e, faulted, n + 2) == Step(e, Step(e, r));
    }
  }

  /** That is so on a core without a Thumb bit, on a 64-bit core unless the instruction has two bytes, and on a
      32-bit ARM core if it is in Thumb state exactly for an instruction of two bytes: a Thumb instruction of
      four bytes is resumed in ARM state. */
  lemma {:induction false} RepeatResumableIff(p: Program, c: Cpu)
    requires p.pcReg in c.regs && (IsArm(p) ==> Pc(p, c) % 2 == 0)
    ensures WritePc(p, c, RepeatAddress(p, c)) == c <==>
            p.arch.OtherArch? || (p.arch.Arm64? && p.size(c) != 2) || (p.arch.Arm32? && (c.thumb <==> p.size(c) == 2))
  {
    var w := WritePc(p, c, RepeatAddress(p, c));
    if p.arch.Arm32? {
      assert w.regs == c.regs;
    } else {
      assert RepeatAddress(p, c) == Pc(p, c) ==> w.regs == c.regs;
      assert w.regs[p.pcReg] == RepeatAddress(p, c);
    }
  }
}

/** What the class key leaves out: how long a fault lasts.  Register faults of one line that leave the
    same state stay together up to a revert, and after it exactly when the revert makes no difference. */
module MixedLifespans {
  import opened Utils
  import opened Machine
  import opened Hooks
  import opened Equivalence
  import opened GoldenRun
  import opened StatsRun
  import opened Aftermath
  import opened Injection
  import opened ExactlyOnce
  import opened Pruning

  /** The runs agree in everything but the rule, the class table and what is left of the lifespan. */
  ghost predicate Agree(r: Run, s: Run) {
    && s == r.(rule := s.rule, classes := s.classes, hooks := s.hooks, hk := r.hk.(lifespan := s.hk.lifespan))
    && s.rule.instruction == r.rule.instruction
  }

  /** At most a register is still to be reverted. */
  ghost predicate MayRevert(r: Run) {
    && r.hk.equivalent == 0
    && (r.hk.lifespan != 0 ==>
          0 < r.hk.lifespan <= |r.hooks| && r.hooks[r.hk.lifespan - 1] == Hook(RevertRegister, Everywhere, 0))
  }

  // ----- one dispatch -----

  lemma {:induction false} RevertedDispatch(e: Env, r: Run, at: Site)
    requires MayRevert(r) && r.hk.lifespan != 0 && r.rule.lifespan.live >= 1
    ensures var s := RevertRegisterHook(e, r, at);
            var lifespan := r.rule.lifespan.(live := r.rule.lifespan.live - 1);
            if LifespanNotStarted(e, r, at) then s == r
            else if r.rule.lifespan.live > 1 then s == r.(rule := r.rule.(lifespan := lifespan))
            else s == WriteRegister(e, r, r.rule.number, r.rule.lifespan.originalValue)
                        .(rule := r.rule.(lifespan := lifespan), hooks := s.hooks, hk := r.hk.(lifespan := 0))
    ensures MayRevert(RevertRegisterHook(e, r, at)) && |RevertRegisterHook(e, r, at).hooks| == |r.hooks|
    ensures RevertRegisterHook(e, r, at).hk.lifespan == 0 || RevertRegisterHook(e, r, at).hk == r.hk
  {
    hide WritePc, LifespanNotStarted;
  }

  /** Of the hooks behind the counting hook only the lifespan hook does anything. */
  lemma {:induction false} OnlyTheRevert(e: Env, r: Run, at: Site, i: nat)
    requires HasFaulted(e, r) && MayRevert(r) && r.control.Going? && !r.restart && 12 <= i <= |r.hooks|
    ensures Dispatch(e, r, at, i) == if r.hk.lifespan > i then RevertRegisterHook(e, r, at) else r
    decreases |r.hooks| - i
  {
    hide Visit, HasFaulted, RevertRegisterHook, MayRevert;
    if i < |r.hooks| {
      OneVisit(e, r, at, i);
      LaterVisit(e, r, at, i);
      VisitIsTheRevert(e, r, at, i);
      var s := Visit(e, r, at, i);
      if s.control.Going? {
        OnlyTheRevert(e, s, at, i + 1);
      } else {
        EndsThere(e, s, at, i + 1);
      }
    } else {
      BoundedHandle(r);
    }
  }

  lemma {:induction false} BoundedHandle(r: Run)
    requires MayRevert(r)
    ensures r.hk.lifespan <= |r.hooks|
  {
  }

  lemma {:induction false} VisitIsTheRevert(e: Env, r: Run, at: Site, i: nat)
    requires HasFaulted(e, r) && MayRevert(r) && 12 <= i < |r.hooks|
    ensures Visit(e, r, at, i) == if r.hk.lifespan == i + 1 then RevertRegisterHook(e, r, at) else r
    ensures var s := Visit(e, r, at, i);
            MayRevert(s) && |s.hooks| == |r.hooks| && (if r.hk.lifespan == i + 1 then s.hk.lifespan <= i + 1
                                                       else s == r)
  {
    hide RevertRegisterHook, HasFaulted;
    RevertIsCalled(e, r, at, i);
    if r.hk.lifespan == i + 1 {
      LivesOn(e, r);
      RevertedDispatch(e, r, at);
    } else if IsCalled(r, at, i) {
      Unfold(e, r);
      OnlyLifespans(e, r, r, at, i);
    }
  }

  lemma {:induction false} RevertIsCalled(e: Env, r: Run, at: Site, i: nat)
    requires MayRevert(r) && i < |r.hooks|
    ensures GoAlike(e, r, r)
    ensures r.hk.lifespan == i + 1 ==> Visit(e, r, at, i) == RevertRegisterHook(e, r, at)
    ensures !IsCalled(r, at, i) ==> Visit(e, r, at, i) == r
  {
    hide RevertRegisterHook;
  }

  lemma {:induction false} LivesOn(e: Env, r: Run)
    requires HasFaulted(e, r) && r.hk.lifespan != 0
    ensures r.rule.lifespan.live >= 1
  {
    hide FaultedHooks;
  }

  /** The address is neither the end, nor skipped, nor a hard stop. */
  predicate IsOrdinary(e: Env, a: nat) {
    a != e.p.codeEnd && a !in e.p.skips && a !in e.p.hardStops
  }

  /** The countdown goes on in the step's dispatch: at every instruction, but for the line itself as long as
      nothing was counted. */
  predicate Counts(e: Env, r: Run) {
    r.phase.Running? && IsOrdinary(e, Pc(e.p, r.cpu)) && r.hk.lifespan != 0
    && (Pc(e.p, r.cpu) != ThumbCheck(e.p, LineAt(r.lines, r.rule.instruction).address)
        || r.rule.lifespan.live != r.rule.lifespan.count)
  }

  /** And reaches 0: the register is written back. */
  predicate Reverts(e: Env, r: Run) {
    Counts(e, r) && r.rule.lifespan.live == 1
  }

  /** The register has its original value. */
  function PutBack(r: Run): Cpu {
    r.cpu.(regs := r.cpu.regs[r.rule.number := r.rule.lifespan.originalValue])
  }

  /** What the step's instruction comes to: it is executed, on what the revert leaves; or a revert of
      the program counter goes on elsewhere instead. */
  function Executes(e: Env, r: Run): Exec {
    if !Reverts(e, r) then e.p.exec(r.cpu)
    else if r.rule.number == e.p.pcReg then Next(WritePc(e.p, r.cpu, r.rule.lifespan.originalValue))
    else e.p.exec(PutBack(r))
  }

  /** The run after its instruction. */
  function After(r: Run, exec: Exec): Run {
    match exec
    case Next(c) => Pass(r).(cpu := c)
    case Leave(c) => Pass(r).(cpu := c, phase := Stopped)
    case Trap(c, why) => Pass(r).(cpu := c, phase := Stopped, state := if why.ErrorTrap? then Errored else Interrupted)
  }

  /** Up to the counting hook. */
  function Counted(e: Env, r: Run): Run {
    Count(r.(inRange := FlagAt(e, r.inRange, Pc(e.p, r.cpu))))
  }

  /** The rule, as one more dispatch counts it down. */
  function TickedRule(e: Env, r: Run): FaultRule {
    if Counts(e, r) then r.rule.(lifespan := r.rule.lifespan.(live := Dec(r.rule.lifespan.live))) else r.rule
  }

  /** A step that executes an instruction. */
  lemma {:induction false} OrdinaryStep(e: Env, r: Run, budget: nat)
    requires GoesOn(e, r, budget) && MayRevert(r) && r.phase.Running? && IsOrdinary(e, Pc(e.p, r.cpu))
    ensures var s := Step(e, r);
            && s == After(Counted(e, r), Executes(e, r)).(rule := TickedRule(e, r), hooks := s.hooks, hk := s.hk)
            && s.hk == r.hk.(lifespan := if Reverts(e, r) then 0 else r.hk.lifespan) && MayRevert(s)
  {
    hide Dispatch, HasFaulted, Count, RevertRegisterHook, MayRevert, LifespanNotStarted, Pass, FlagAt;
    var at := SiteOf(e.p, r.cpu);
    var x := Counted(e, r);
    FaultedPrefix(e, r, at);
    CountingKeeps(e, r, FlagAt(e, r.inRange, at.address));
    CountGoes(r.(inRange := FlagAt(e, r.inRange, at.address)));
    Behind12(e, x);
    SameCountdown(e, r, at);
    OnlyTheRevert(e, x, at, 12);
    BehindTwelve(e, x);
    if x.hk.lifespan != 0 {
      RevertedDispatch(e, x, at);
    }
    FinishIs(e, r, at);
  }

  lemma {:induction false} BehindTwelve(e: Env, r: Run)
    requires HasFaulted(e, r)
    ensures r.hk.lifespan != 0 ==> r.hk.lifespan > 12 && r.rule.lifespan.live >= 1
  {
    hide SetupHooks;
  }

  lemma {:induction false} SameCountdown(e: Env, r: Run, at: Site)
    ensures var x := Counted(e, r);
            && x == r.(inRange := x.inRange, count := x.count)
            && LifespanNotStarted(e, x, at) == LifespanNotStarted(e, r, at) && (MayRevert(r) ==> MayRevert(x))
  {
  }

  /** The CPU at the end of the dispatch. */
  function Left(e: Env, r: Run): Cpu {
    if !Reverts(e, r) then r.cpu
    else if r.rule.number == e.p.pcReg then WritePc(e.p, r.cpu, r.rule.lifespan.originalValue)
    else PutBack(r)
  }

  lemma {:induction false} HooksLeave(e: Env, r: Run, at: Site)
    requires r.control.Going? && r.phase.Running? && MayRevert(r) && at == SiteOf(e.p, r.cpu)
    requires IsOrdinary(e, at.address)
    requires r.hk.lifespan != 0 ==> r.rule.lifespan.live >= 1
    ensures var x := Counted(e, r);
            var d := if x.hk.lifespan != 0 then RevertRegisterHook(e, x, at) else x;
            && d == x.(cpu := Left(e, r), rule := TickedRule(e, r), hooks := d.hooks, hk := d.hk,
                       control := if Reverts(e, r) && r.rule.number == e.p.pcReg then PcWritten else Going)
            && d.hk == r.hk.(lifespan := if Reverts(e, r) then 0 else r.hk.lifespan) && MayRevert(d)
  {
    hide LifespanNotStarted, WritePc, Counted, MayRevert, RevertRegisterHook, SiteOf;
    SameCountdown(e, r, at);
    CountsAt(e, r, at);
    var x := Counted(e, r);
    if x.hk.lifespan != 0 {
      RevertedDispatch(e, x, at);
    }
  }

  /** The dispatch, and what the emulator does after it. */
  lemma {:induction false} FinishIs(e: Env, r: Run, at: Site)
    requires r.phase.Running? && r.control.Going? && MayRevert(r) && at == SiteOf(e.p, r.cpu)
    requires r.hk.lifespan != 0 ==> r.rule.lifespan.live >= 1
    requires IsOrdinary(e, at.address)
    ensures var x := Counted(e, r);
            var d := if x.hk.lifespan != 0 then RevertRegisterHook(e, x, at) else x;
            var s := Finish(e, d);
            && s == After(x, Executes(e, r)).(rule := TickedRule(e, r), hooks := s.hooks, hk := s.hk)
            && s.hk == r.hk.(lifespan := if Reverts(e, r) then 0 else r.hk.lifespan) && MayRevert(s)
  {
    hide LifespanNotStarted, WritePc, Counted, MayRevert, RevertRegisterHook, SiteOf, TickedRule, Reverts, PutBack;
    SameCountdown(e, r, at);
    HooksLeave(e, r, at);
    var x := Counted(e, r);
    var d := if x.hk.lifespan != 0 then RevertRegisterHook(e, x, at) else x;
    hide Pass;
    PassKeeps(x, d);
    FinishKeepsRule(e, d);
    MayStillRevert(d, Finish(e, d));
    Afterwards(e, x, d, Executes(e, r));
  }

  lemma {:induction false} Afterwards(e: Env, x: Run, d: Run, exec: Exec)
    requires d == x.(cpu := d.cpu, control := d.control, rule := d.rule, hooks := d.hooks, hk := d.hk)
    requires x.control.Going?
    requires (d.control.Going? && exec == e.p.exec(d.cpu)) || (d.control.PcWritten? && exec == Next(d.cpu))
    ensures Finish(e, d) == After(x, exec).(rule := d.rule, hooks := d.hooks, hk := d.hk)
  {
    hide Pass;
    PassKeeps(x, d);
  }

  lemma {:induction false} CountsAt(e: Env, r: Run, at: Site)
    requires at == SiteOf(e.p, r.cpu)
    ensures Counts(e, r) <==>
            r.phase.Running? && IsOrdinary(e, at.address) && r.hk.lifespan != 0 && !LifespanNotStarted(e, r, at)
  {
  }

  lemma {:induction false} PassKeeps(x: Run, d: Run)
    requires d == x.(cpu := d.cpu, control := d.control, rule := d.rule, hooks := d.hooks, hk := d.hk)
    ensures Pass(d) == Pass(x).(cpu := d.cpu, control := d.control, rule := d.rule, hooks := d.hooks, hk := d.hk)
    ensures Pass(x).phase == x.phase && Pass(x).control == x.control
  {
  }

  lemma {:induction false} MayStillRevert(r: Run, s: Run)
    requires MayRevert(r) && s.hooks == r.hooks && s.hk == r.hk
    ensures MayRevert(s)
  {
  }

  // ----- one step of two runs -----

  /** Different outcomes of an instruction show in the run. */
  lemma {:induction false} OutcomesShow(r: Run, s: Run, a: Exec, b: Exec)
    requires Agree(r, s) && r.phase.Running? && r.state.Faulted?
    ensures Agree(After(r, a), After(s, b)) <==> a == b
  {
  }

  lemma {:induction false} AgreeOnTheRest(r: Run, s: Run, r1: Run, s1: Run)
    requires r1 == r.(rule := r1.rule, hooks := r1.hooks, hk := r.hk.(lifespan := r1.hk.lifespan))
    requires s1 == s.(rule := s1.rule, hooks := s1.hooks, hk := s.hk.(lifespan := s1.hk.lifespan))
    requires r.rule.instruction == s.rule.instruction == r1.rule.instruction == s1.rule.instruction
    ensures Agree(r1, s1) <==> Agree(r, s)
  {
  }

  lemma {:induction false} CountedAgree(e: Env, r: Run, s: Run)
    requires Agree(r, s)
    ensures Agree(Counted(e, r), Counted(e, s)) && r.cpu == s.cpu && r.phase == s.phase && r.restart == s.restart
    ensures Counted(e, r).phase == r.phase && Counted(e, r).state == r.state && Counted(e, r).hk == r.hk
    ensures Counted(e, r).rule == r.rule && Counted(e, s).rule == s.rule && Counted(e, s).hk == s.hk
  {
  }

  lemma {:induction false} AfterKeeps(r: Run, exec: Exec)
    ensures After(r, exec).rule == r.rule && After(r, exec).hk == r.hk
  {
  }

  lemma {:induction false} OrdinaryPair(e: Env, r: Run, s: Run, br: nat, bs: nat)
    requires GoesOn(e, r, br) && GoesOn(e, s, bs) && MayRevert(r) && MayRevert(s) && Agree(r, s)
    requires r.phase.Running? && IsOrdinary(e, Pc(e.p, r.cpu))
    ensures Agree(Step(e, r), Step(e, s)) <==> Executes(e, r) == Executes(e, s)
    ensures MayRevert(Step(e, r)) && MayRevert(Step(e, s))
  {
    assert r.state.Faulted? && r.rule.instruction == s.rule.instruction;
    hide Agree, MayRevert, GoesOn, Step, Counted, Executes, After, Reverts, IsOrdinary;
    CountedAgree(e, r, s);
    AgreeWithItself(s);
    CountedAgree(e, s, s);
    OrdinaryStep(e, r, br);
    OrdinaryStep(e, s, bs);
    var x, y := After(Counted(e, r), Executes(e, r)), After(Counted(e, s), Executes(e, s));
    OutcomesShow(Counted(e, r), Counted(e, s), Executes(e, r), Executes(e, s));
    AfterKeeps(Counted(e, r), Executes(e, r));
    AfterKeeps(Counted(e, s), Executes(e, s));
    AgreeOnTheRest(x, y, Step(e, r), Step(e, s));
  }

  lemma {:induction false} AgreeWithItself(r: Run)
    ensures Agree(r, r)
  {
  }

  lemma {:induction false} AgreeRemoves(r: Run, s: Run)
    requires Agree(r, s)
    ensures Agree(RemoveIfSet(r, CountInstructions), RemoveIfSet(s, CountInstructions)) && Agree(Stop(r), Stop(s))
  {
  }

  lemma {:induction false} AgreeStops(r: Run, s: Run, state: RunState)
    requires Agree(r, s)
    ensures Agree(Stop(RemoveIfSet(r.(state := state), CountInstructions)),
                  Stop(RemoveIfSet(s.(state := state), CountInstructions)))
  {
    hide RemoveIfSet, Stop;
    AgreeRemoves(r.(state := state), s.(state := state));
    AgreeRemoves(RemoveIfSet(r.(state := state), CountInstructions),
                 RemoveIfSet(s.(state := state), CountInstructions));
  }

  lemma {:induction false} AgreeEnds(e: Env, r: Run, s: Run, at: Site, b: bool)
    requires Agree(r, s)
    ensures Agree(AtEndAddress(r), AtEndAddress(s)) && Agree(AtHardStop(e, r), AtHardStop(e, s))
    ensures Agree(AtSkip(e, r, at), AtSkip(e, s, at)) && Agree(r.(inRange := b), s.(inRange := b))
  {
    hide WritePc, RemoveIfSet, Stop;
    AgreeStops(r, s, HardStopped);
    AgreeStops(r, s, if r.state.Faulted? then EndAddressAndFaulted
                     else if r.state.EquivalentRs? then EquivalentRs else EndAddress);
  }

  lemma {:induction false} AgreeFinish(e: Env, r: Run, s: Run)
    requires Agree(r, s)
    ensures Agree(Finish(e, r), Finish(e, s)) && Agree(AfterSegment(e, r), AfterSegment(e, s))
  {
    AgreeSegment(e, r, s);
    hide WritePc, AfterSegment, Pass;
    AgreePass(r, s);
  }

  lemma {:induction false} AgreePass(r: Run, s: Run)
    requires Agree(r, s)
    ensures Agree(Pass(r), Pass(s)) && r.control == s.control && r.cpu == s.cpu
  {
  }

  lemma {:induction false} AgreeSegment(e: Env, r: Run, s: Run)
    requires Agree(r, s)
    ensures Agree(AfterSegment(e, r), AfterSegment(e, s))
  {
    hide WritePc;
  }

  lemma {:induction false} SkipKeeps(e: Env, r: Run, at: Site)
    requires MayRevert(r)
    ensures MayRevert(Finish(e, AtSkip(e, r, at))) && MayRevert(AfterSegment(e, r))
  {
    hide WritePc;
  }

  /** A step that executes nothing. */
  lemma {:induction false} OtherPair(e: Env, r: Run, s: Run, br: nat, bs: nat)
    requires GoesOn(e, r, br) && GoesOn(e, s, bs) && MayRevert(r) && MayRevert(s) && Agree(r, s)
    requires r.phase.Running? ==> !IsOrdinary(e, Pc(e.p, r.cpu))
    ensures Agree(Step(e, r), Step(e, s))
    ensures GoesOn(e, Step(e, r), br) ==> MayRevert(Step(e, r))
    ensures GoesOn(e, Step(e, s), bs) ==> MayRevert(Step(e, s))
  {
    CountedAgree(e, r, s);
    IsGoing(e, r, br);
    IsGoing(e, s, bs);
    hide Dispatch, HasFaulted, AtEndAddress, AtHardStop, AtSkip, Count, Finish, AfterSegment, FlagAt, Agree,
         MayRevert, GoesOn;
    var at := SiteOf(e.p, r.cpu);
    if r.phase.Running? {
      var b := FlagAt(e, r.inRange, at.address);
      assert r.inRange == s.inRange by { SameFlag(r, s); }
      FaultedPrefix(e, r, at);
      FaultedPrefix(e, s, at);
      AgreeEnds(e, r, s, at, b);
      AgreeEnds(e, r.(inRange := b), s.(inRange := b), at, b);
      EndsGoNoFurther(e, r, br);
      EndsGoNoFurther(e, r.(inRange := b), br);
      EndsGoNoFurther(e, s, bs);
      EndsGoNoFurther(e, s.(inRange := b), bs);
    }
    SkipKeeps(e, r, at);
    SkipKeeps(e, s, at);
    if r.phase.Running? {
      AgreeFinish(e, Dispatch(e, r, at, 0), Dispatch(e, s, at, 0));
    } else {
      AgreeFinish(e, r, s);
    }
  }

  lemma {:induction false} IsGoing(e: Env, r: Run, budget: nat)
    requires GoesOn(e, r, budget)
    ensures HasFaulted(e, r) && e.mode.FaultMode? && (r.phase.Running? ==> r.control.Going? && !r.restart)
    ensures r.phase.Running? || r.phase.Stopped?
  {
  }

  lemma {:induction false} SameFlag(r: Run, s: Run)
    requires Agree(r, s)
    ensures r.inRange == s.inRange
  {
  }

  // ----- two whole runs -----

  /** Both go on, or both are over, and they agree. */
  ghost predicate Together(e: Env, r: Run, s: Run, br: nat, bs: nat) {
    && Agree(r, s)
    && ((GoesOn(e, r, br) && GoesOn(e, s, bs) && MayRevert(r) && MayRevert(s)) || (IsOver(r, br) && IsOver(s, bs)))
  }

  /** No revert in this step makes a difference. */
  predicate RevertsAgree(e: Env, r: Run, s: Run) {
    Reverts(e, r) || Reverts(e, s) ==> Executes(e, r) == Executes(e, s)
  }

  lemma {:induction false} EitherWay(e: Env, r: Run, s: Run, br: nat, bs: nat)
    requires Agree(r, s) && (GoesOn(e, r, br) || IsOver(r, br)) && (GoesOn(e, s, bs) || IsOver(s, bs))
    ensures GoesOn(e, r, br) <==> GoesOn(e, s, bs)
    ensures GoesOn(e, r, br) ==> !IsOver(r, br)
  {
    hide HasFaulted;
  }

  lemma {:induction false} TogetherStep(e: Env, r: Run, s: Run, br: nat, bs: nat)
    requires Together(e, r, s, br, bs)
    ensures Agree(Step(e, r), Step(e, s)) <==> RevertsAgree(e, r, s)
    ensures Agree(Step(e, r), Step(e, s)) ==> Together(e, Step(e, r), Step(e, s), br, bs)
  {
    hide GoesOn, IsOver, Step, Agree, MayRevert, Executes;
    CountedAgree(e, r, s);
    EitherWay(e, r, s, br, bs);
    if GoesOn(e, r, br) {
      FaultedStep(e, r, br);
      FaultedStep(e, s, bs);
      NothingReverts(e, r, s);
      if r.phase.Running? && IsOrdinary(e, Pc(e.p, r.cpu)) {
        OrdinaryPair(e, r, s, br, bs);
      } else {
        OtherPair(e, r, s, br, bs);
      }
    } else {
      OverStaysOver(e, r, br);
      OverStaysOver(e, s, bs);
      OverPair(e, r, s, br);
    }
    if Agree(Step(e, r), Step(e, s)) {
      EitherWay(e, Step(e, r), Step(e, s), br, bs);
    }
  }

  lemma {:induction false} NothingReverts(e: Env, r: Run, s: Run)
    requires r.cpu == s.cpu && r.phase == s.phase
    ensures !Reverts(e, r) && !Reverts(e, s) ==> Executes(e, r) == Executes(e, s)
    ensures Reverts(e, r) || Reverts(e, s) ==> r.phase.Running? && IsOrdinary(e, Pc(e.p, r.cpu))
  {
    hide LifespanNotStarted;
  }

  lemma {:induction false} OverPair(e: Env, r: Run, s: Run, budget: nat)
    requires IsOver(r, budget) && Agree(r, s)
    ensures Agree(Step(e, r), Step(e, s)) && RevertsAgree(e, r, s)
  {
    hide AfterSegment, Executes;
    AgreeFinish(e, r, s);
  }

  ghost predicate AgreeUpTo(e: Env, r: Run, s: Run, n: nat) {
    forall m: nat :: m <= n ==> Agree(Steps(e, r, m), Steps(e, s, m))
  }

  ghost predicate RevertsAgreeBefore(e: Env, r: Run, s: Run, n: nat) {
    forall m: nat :: m < n ==> RevertsAgree(e, Steps(e, r, m), Steps(e, s, m))
  }

  lemma {:induction false} OneMoreStep(e: Env, r: Run, s: Run, n: nat)
    requires n > 0
    ensures AgreeUpTo(e, r, s, n) <==> AgreeUpTo(e, r, s, n - 1) && Agree(Steps(e, r, n), Steps(e, s, n))
    ensures RevertsAgreeBefore(e, r, s, n)
       <==> RevertsAgreeBefore(e, r, s, n - 1) && RevertsAgree(e, Steps(e, r, n - 1), Steps(e, s, n - 1))
    ensures Steps(e, r, n) == Step(e, Steps(e, r, n - 1))
  {
    hide Agree, RevertsAgree, Step;
  }

  /** The runs agree all the way exactly when no revert on the way makes a difference. */
  lemma {:induction false} AgreeIff(e: Env, r: Run, s: Run, br: nat, bs: nat, n: nat)
    requires Together(e, r, s, br, bs)
    ensures AgreeUpTo(e, r, s, n) <==> RevertsAgreeBefore(e, r, s, n)
    ensures AgreeUpTo(e, r, s, n) ==> Together(e, Steps(e, r, n), Steps(e, s, n), br, bs)
  {
    hide Together, Agree, RevertsAgree, Step;
    if n == 0 {
      TogetherAgrees(e, r, s, br, bs);
    } else {
      hide AgreeUpTo, RevertsAgreeBefore, Steps;
      AgreeIff(e, r, s, br, bs, n - 1);
      OneMoreStep(e, r, s, n);
      OneMoreStep(e, s, s, n);
      if AgreeUpTo(e, r, s, n - 1) {
        TogetherStep(e, Steps(e, r, n - 1), Steps(e, s, n - 1), br, bs);
      }
    }
  }

  lemma {:induction false} TogetherAgrees(e: Env, r: Run, s: Run, br: nat, bs: nat)
    requires Together(e, r, s, br, bs)
    ensures Agree(r, s)
  {
  }

  // ----- from the fault -----

  /** The rule does not ask for the fault to be made again. */
  predicate FaultsOnce(rule: FaultRule) {
    rule.target.Register? && (rule.lifespan.count == 0 || !rule.lifespan.mode.Repeat?)
  }

  predicate IsReverted(rule: FaultRule) {
    rule.lifespan.count > 0 && rule.lifespan.mode.Revert?
  }

  /** The rule once its fault was made, on CPU c. */
  function MadeRule(c: Cpu, rule: FaultRule, address: nat): FaultRule {
    rule.(faultedAddress := address,
          lifespan := rule.lifespan.(originalValue := ReadReg(c, rule.number),
                                     live := if rule.lifespan.count == 0 then rule.lifespan.live
                                       else rule.lifespan.count))
  }

  lemma {:induction false} AddsTheRevert(r: Run)
    requires FaultsOnce(r.rule) && r.hk.lifespan == r.hk.equivalent == 0 && r.hk.faultIt == 13 == |r.hooks|
    ensures var s := RemoveIfSet(AddLifespan(r, RevertRegister, RepeatRegister, Everywhere).(state := Faulted),
                                 FaultItRegister);
            && s == r.(state := Faulted, rule := s.rule, hooks := s.hooks,
                       hk := r.hk.(faultIt := 0, lifespan := if IsReverted(r.rule) then 14 else 0))
            && s.rule == r.rule.(lifespan := r.rule.lifespan.(live := if r.rule.lifespan.count == 0 then
                                                                r.rule.lifespan.live
                                                                    else r.rule.lifespan.count))
            && |s.hooks| == (if IsReverted(r.rule) then 14 else 13) && MayRevert(s)
  {
  }

  /** The second hook of a register fault. */
  lemma {:induction false} FaultLeaves(e: Env, r: Run, at: Site)
    requires !e.stopOnEquivalence && FaultsOnce(r.rule) && Accepts(r.rule) && r.control.Going?
    requires r.hk.lifespan == r.hk.equivalent == 0 && r.hk.faultIt == 13 == |r.hooks|
    ensures var s := FaultRegisterHook(e, r, at);
            && s == Fire(r, at).(state := Faulted, cpu := FaultedCpu(e.p, r.cpu, r.rule, at.size),
                                 control := if r.rule.number == e.p.pcReg then PcWritten else Going,
                                 rule := MadeRule(r.cpu, r.rule, r.rule.faultedAddress),
                                 hooks := s.hooks, hk := r.hk.(faultIt := 0, lifespan := if IsReverted(r.rule) then
                                                                 14 else 0))
            && |s.hooks| == (if IsReverted(r.rule) then 14 else 13) && MayRevert(s)
  {
    FaultsCpu(e, r, at);
    var d := DoTheRegisterFault(e, r, at);
    FireOnlyLogs(d, at);
    FireOnlyLogs(r, at);
    hide DoTheRegisterFault, FaultedCpu, Accepts, AddLifespan, RemoveIfSet, Fire;
    AddsTheRevert(Fire(d, at));
  }

  /** The run at the end of the fault's dispatch, but for its hooks. */
  function Made(e: Env, w: Run, at: Site): Run {
    Fire(w, at).(state := Faulted, cpu := FaultedCpu(e.p, w.cpu, w.rule, at.size), count := w.count + 1,
                 control := if w.rule.number == e.p.pcReg then PcWritten else Going,
                 rule := MadeRule(w.cpu, w.rule, at.address))
  }

  /** d is what the fault's dispatch leaves of w. */
  ghost predicate IsMade(e: Env, w: Run, at: Site, d: Run) {
    && d == Made(e, w, at).(hooks := d.hooks, hk := d.hk) && MayRevert(d)
    && d.hk == w.hk.(faultAddress := 0, lifespan := if IsReverted(w.rule) then 14 else 0)
  }

  lemma {:induction false} ToTheSecondHook(e: Env, o: Origin, w: Run, at: Site)
    requires AtTheHook(e, o, w, at) && w.rule.target.Register?
    ensures var w1 := Count(FaultAddressHook(w, at));
            && w1 == w.(rule := w.rule.(faultedAddress := at.address), count := w.count + 1, hooks := w1.hooks,
                        hk := w.hk.(faultAddress := 0, faultIt := 13))
            && |w1.hooks| == 13 && w.hk.faultIt == w.hk.lifespan == w.hk.equivalent == 0
  {
    FreshHooks(e, o, w, at);
    assert IsTheLine(w);
    hide SetupHooks, AtTheHook;
  }

  lemma {:induction false} MadeThere(e: Env, o: Origin, w: Run, at: Site)
    requires !e.stopOnEquivalence && AtTheHook(e, o, w, at) && FaultsOnce(w.rule)
    ensures IsMade(e, w, at, FaultRegisterHook(e, Count(FaultAddressHook(w, at)), at))
  {
    assert Accepts(w.rule) && w.control.Going?;
    ToTheSecondHook(e, o, w, at);
    hide AtTheHook, Accepts, FaultRegisterHook, FaultAddressHook, Count, FaultedCpu, Fire;
    var w1 := Count(FaultAddressHook(w, at));
    FaultIgnoresAddress(e.p, w, at);
    FaultLeaves(e, w1, at);
    FireOnlyLogs(w, at);
    FireOnlyLogs(w1, at);
  }

  lemma {:induction false} FaultDispatchIs(e: Env, o: Origin, w: Run, at: Site)
    requires !e.stopOnEquivalence && AtTheHook(e, o, w, at) && FaultsOnce(w.rule)
    requires |w.hooks| == 12 && IsCalled(w, at, 10) && w.hooks[10].kind.FaultItAddress?
    requires at.address == ThumbCheck(e.p, LineAt(w.lines, w.rule.instruction).address)
    ensures IsMade(e, w, at, Dispatch(e, w, at, 10))
  {
    ReachSecondHook(e, o, w, at);
    MadeThere(e, o, w, at);
    hide AtTheHook, FaultRegisterHook, FaultAddressHook, Count, Dispatch, HasFaulted, RevertRegisterHook;
    var w1 := Count(FaultAddressHook(w, at));
    var d := FaultRegisterHook(e, w1, at);
    RegisterFires(e, o, w, w1, at);
    if d.control.Going? {
      FaultedIs(e, w, at, d);
      OnlyTheRevert(e, d, at, 13);
      NotYet(e, w, d, at);
    } else {
      EndsThere(e, d, at, 13);
    }
  }

  lemma {:induction false} FaultedIs(e: Env, w: Run, at: Site, d: Run)
    requires IsMade(e, w, at, d) && Fired(e, w, at, d, 1) && d.control.Going?
    ensures HasFaulted(e, d) && MayRevert(d)
  {
    hide HasFaulted;
  }

  /** The lifespan starts after the faulted line. */
  lemma {:induction false} NotYet(e: Env, w: Run, d: Run, at: Site)
    requires IsMade(e, w, at, d) && at.address == ThumbCheck(e.p, LineAt(w.lines, w.rule.instruction).address)
    ensures d.hk.lifespan != 0 ==> RevertRegisterHook(e, d, at) == d
  {
    hide FaultedCpu, Fire, ThumbCheck, LineAt;
    FireOnlyLogs(w, at);
  }

  /** The run after the dispatch of its rule's line. */
  ghost function AfterFault(e: Env, o: Origin, trace: seq<Cpu>, rule: FaultRule, lines: seq<Line>,
                            classes: seq<Class<FaultRule>>): Run
    requires HasItsLine(e, trace, rule, lines)
  {
    Step(e, Before(e, o, trace, rule, lines, classes, FaultDispatch(e, trace, rule, lines)))
  }

  lemma {:induction false} FaultStepIs(e: Env, o: Origin, trace: seq<Cpu>, rule: FaultRule, lines: seq<Line>,
                                       classes: seq<Class<FaultRule>>, u: nat) returns (d: Run)
    requires !e.stopOnEquivalence && IsGolden(e.p, trace) && u < Last(trace) && e.mode.FaultMode?
    requires o.Restored? || !RestoresCheckpoint(e, rule, lines)
    requires Fires(e, trace, rule, lines, u) && FaultsOnce(rule) && Accepts(rule)
    ensures IsMade(e, Within(e, o, trace, rule, lines, classes, u), SiteOf(e.p, trace[u]), d)
    ensures Step(e, Before(e, o, trace, rule, lines, classes, u)) == Finish(e, d)
  {
    hide Dispatch, Visit, SetupHooks, AtTheHook, RestoresCheckpoint, Finish, Accepts, IsMade;
    var at, w := SiteOf(e.p, trace[u]), Within(e, o, trace, rule, lines, classes, u);
    ReachWithin(e, o, trace, rule, lines, classes, u);
    AtItsLine(e, o, trace, rule, lines, classes, u);
    WithinAlike(e, o, trace, rule, rule, lines, classes, classes, u);
    OneVisit(e, w, at, 9);
    FaultDispatchIs(e, o, w, at);
    d := Dispatch(e, w, at, 10);
  }

  /** Faults of one line, made once, on one kind of register. */
  predicate AreMixed(p: Program, a: FaultRule, b: FaultRule) {
    FaultsOnce(a) && FaultsOnce(b) && a.instruction == b.instruction && (a.number == p.pcReg <==> b.number == p.pcReg)
  }

  lemma {:induction false} MadeAgree(e: Env, w: Run, v: Run, at: Site, d: Run, g: Run)
    requires Alike(w, v) && IsMade(e, w, at, d) && IsMade(e, v, at, g) && AreMixed(e.p, w.rule, v.rule)
    requires FaultedCpu(e.p, w.cpu, w.rule, at.size) == FaultedCpu(e.p, w.cpu, v.rule, at.size)
    ensures Agree(d, g)
  {
    hide FaultedCpu, Fire;
    FireOnlyLogs(w, at);
    FireOnlyLogs(v, at);
  }

  lemma {:induction false} MadeFinishes(e: Env, w: Run, at: Site, d: Run)
    requires IsMade(e, w, at, d)
    ensures MayRevert(Finish(e, d)) && Finish(e, d).rule == MadeRule(w.cpu, w.rule, at.address)
    ensures Finish(e, d).hk.lifespan == if IsReverted(w.rule) then 14 else 0
  {
    hide FaultedCpu, Fire, MayRevert;
    FinishKeepsRule(e, d);
    MayStillRevert(d, Finish(e, d));
  }

  /** Rules of one line whose faults leave one state, which has one key. */
  ghost predicate LeaveOneState(e: Env, o: Origin, trace: seq<Cpu>, a: FaultRule, b: FaultRule, lines: seq<Line>) {
    && HasItsLine(e, trace, a, lines) && HasItsLine(e, trace, b, lines) && Accepts(a) && Accepts(b)
    && a.instruction == b.instruction && a.target.Register? && b.target.Register?
    && (o.Restored? || (!RestoresCheckpoint(e, a, lines) && !RestoresCheckpoint(e, b, lines)))
    && var c := trace[FaultDispatch(e, trace, a, lines)];
       FaultedCpu(e.p, c, a, e.p.size(c)) == FaultedCpu(e.p, c, b, e.p.size(c))
  }

  lemma {:induction false} SameDispatch(e: Env, o: Origin, trace: seq<Cpu>, a: FaultRule, b: FaultRule,
                                        lines: seq<Line>)
    requires LeaveOneState(e, o, trace, a, b, lines)
    ensures var u := FaultDispatch(e, trace, a, lines);
            && u == FaultDispatch(e, trace, b, lines) && u < Last(trace)
            && Fires(e, trace, a, lines, u) && Fires(e, trace, b, lines, u)
  {
    hide FaultedCpu, Accepts, IsGolden, IsRecorded, RestoresCheckpoint, Fires;
    FiresThereOnly(e, trace, a, lines);
    FiresThereOnly(e, trace, b, lines);
  }

  lemma {:induction false} FaultedTogether(e: Env, o: Origin, trace: seq<Cpu>, a: FaultRule, b: FaultRule,
                                           lines: seq<Line>, ca: seq<Class<FaultRule>>, cb: seq<Class<FaultRule>>)
    requires !e.stopOnEquivalence && LeaveOneState(e, o, trace, a, b, lines) && AreMixed(e.p, a, b)
    ensures Together(e, AfterFault(e, o, trace, a, lines, ca), AfterFault(e, o, trace, b, lines, cb),
                     RestartBudget(o, a), RestartBudget(o, b))
  {
    SameDispatch(e, o, trace, a, b, lines);
    hide Before, Within, FaultedCpu, Accepts, IsGolden, IsRecorded, RestoresCheckpoint, Fires, Step, Finish, IsMade,
         Agree, MayRevert, Alike, GoesOn, IsOver;
    var u := FaultDispatch(e, trace, a, lines);
    var at := SiteOf(e.p, trace[u]);
    var d := FaultStepIs(e, o, trace, a, lines, ca, u);
    var g := FaultStepIs(e, o, trace, b, lines, cb, u);
    var w, v := Within(e, o, trace, a, lines, ca, u), Within(e, o, trace, b, lines, cb, u);
    AtTheLine(e, o, trace, a, b, lines, ca, cb, u);
    WithinAlike(e, o, trace, a, b, lines, ca, cb, u);
    MadeAgree(e, w, v, at, d, g);
    AgreeFinish(e, d, g);
    MadeFinishes(e, w, at, d);
    MadeFinishes(e, v, at, g);
    LineInjects(e, o, trace, a, lines, ca, u);
    LineInjects(e, o, trace, b, lines, cb, u);
    EitherWay(e, Finish(e, d), Finish(e, g), RestartBudget(o, a), RestartBudget(o, b));
  }

  lemma {:induction false} AtTheLine(e: Env, o: Origin, trace: seq<Cpu>, a: FaultRule, b: FaultRule, lines: seq<Line>,
                                     ca: seq<Class<FaultRule>>, cb: seq<Class<FaultRule>>, u: nat)
    requires u < |trace| && Fires(e, trace, a, lines, u) && Fires(e, trace, b, lines, u)
    ensures IsLine(e.p, trace, u) && a.isSet && b.isSet
    ensures var w := Within(e, o, trace, a, lines, ca, u);
            w.cpu == trace[u] && w.rule == a && Within(e, o, trace, b, lines, cb, u).rule == b
  {
    hide SetupHooks;
  }

  // ----- when the revert comes -----

  /** The dispatches the countdown has counted in the first n steps. */
  ghost function Ticks(e: Env, r: Run, n: nat): nat {
    if n == 0 then 0 else Ticks(e, r, n - 1) + if Counts(e, Steps(e, r, n - 1)) then 1 else 0
  }

  /** A run of rule b from its fault on, after this many ticks. */
  ghost predicate HasTicked(e: Env, r: Run, b: FaultRule, original: nat, ticks: nat, budget: nat) {
    && r.rule.number == b.number && r.rule.lifespan.originalValue == original
    && ((GoesOn(e, r, budget) && MayRevert(r)) || IsOver(r, budget))
    && (GoesOn(e, r, budget) ==>
          if r.hk.lifespan != 0 then r.rule.lifespan.live + ticks == b.lifespan.count
          else !IsReverted(b) || ticks == b.lifespan.count)
    && (IsOver(r, budget) && IsReverted(b) ==> ticks <= b.lifespan.count)
  }

  lemma {:induction false} OtherStepKeeps(e: Env, r: Run, budget: nat)
    requires GoesOn(e, r, budget) && MayRevert(r) && (r.phase.Running? ==> !IsOrdinary(e, Pc(e.p, r.cpu)))
    ensures Step(e, r).rule == r.rule && (GoesOn(e, Step(e, r), budget) ==> MayRevert(Step(e, r)))
    ensures Step(e, r).hk.lifespan == r.hk.lifespan && !Counts(e, r)
  {
    AgreeWithItself(r);
    OtherPair(e, r, r, budget, budget);
    IsGoing(e, r, budget);
    hide Dispatch, HasFaulted, Finish, AfterSegment, FlagAt, Agree, MayRevert, GoesOn, AtEndAddress, AtHardStop, AtSkip;
    var at := SiteOf(e.p, r.cpu);
    if r.phase.Running? {
      FaultedPrefix(e, r, at);
      FinishKeepsRule(e, Dispatch(e, r, at, 0));
      EndsKeep(e, r, at);
      EndsKeep(e, r.(inRange := FlagAt(e, r.inRange, at.address)), at);
    } else {
      FinishKeepsRule(e, r);
    }
  }

  lemma {:induction false} EndsKeep(e: Env, r: Run, at: Site)
    ensures AtEndAddress(r).rule == AtHardStop(e, r).rule == AtSkip(e, r, at).rule == r.rule
    ensures AtEndAddress(r).hk.lifespan == AtHardStop(e, r).hk.lifespan == AtSkip(e, r, at).hk.lifespan == r.hk.lifespan
  {
    hide WritePc;
  }

  lemma {:induction false} TicksOn(e: Env, r: Run, b: FaultRule, original: nat, ticks: nat, budget: nat)
    requires HasTicked(e, r, b, original, ticks, budget)
    ensures HasTicked(e, Step(e, r), b, original, ticks + (if Counts(e, r) then 1 else 0), budget)
  {
    hide IsOver, GoesOn, Step, MayRevert, LifespanNotStarted;
    if GoesOn(e, r, budget) {
      EitherOr(e, r, budget);
      FaultedStep(e, r, budget);
      EitherOr(e, Step(e, r), budget);
      if r.hk.lifespan != 0 {
        assert r.rule.lifespan.live >= 1 by { IsGoing(e, r, budget); LivesOn(e, r); }
      }
      if r.phase.Running? && IsOrdinary(e, Pc(e.p, r.cpu)) {
        OrdinaryStep(e, r, budget);
      } else {
        OtherStepKeeps(e, r, budget);
      }
    } else {
      OverStaysOver(e, r, budget);
      EitherOr(e, Step(e, r), budget);
      OverKeepsRule(e, r, budget);
    }
  }

  lemma {:induction false} EitherOr(e: Env, r: Run, budget: nat)
    ensures GoesOn(e, r, budget) ==> !IsOver(r, budget)
  {
    hide HasFaulted;
  }

  lemma {:induction false} OverKeepsRule(e: Env, r: Run, budget: nat)
    requires IsOver(r, budget)
    ensures Step(e, r).rule == r.rule && !Counts(e, r)
  {
    hide WritePc, LifespanNotStarted;
  }

  lemma {:induction false} TicksAll(e: Env, r: Run, b: FaultRule, original: nat, budget: nat, n: nat)
    requires HasTicked(e, r, b, original, 0, budget)
    ensures HasTicked(e, Steps(e, r, n), b, original, Ticks(e, r, n), budget)
  {
    hide HasTicked, Step, Counts;
    if n > 0 {
      TicksAll(e, r, b, original, budget, n - 1);
      TicksOn(e, Steps(e, r, n - 1), b, original, Ticks(e, r, n - 1), budget);
    }
  }

  lemma {:induction false} TicksGrow(e: Env, r: Run, m: nat, n: nat)
    requires m <= n
    ensures Ticks(e, r, m) <= Ticks(e, r, n)
    decreases n - m
  {
    hide Counts, Steps;
    if m < n {
      TicksGrow(e, r, m, n - 1);
    }
  }

  lemma {:induction false} TickedMeans(e: Env, r: Run, b: FaultRule, original: nat, ticks: nat, budget: nat)
    requires HasTicked(e, r, b, original, ticks, budget)
    ensures Reverts(e, r) <==> Counts(e, r) && ticks + 1 == b.lifespan.count
    ensures r.rule.number == b.number && r.rule.lifespan.originalValue == original
  {
    hide HasFaulted, LifespanNotStarted, MayRevert;
  }

  lemma {:induction false} StartsTicking(e: Env, o: Origin, trace: seq<Cpu>, b: FaultRule, lines: seq<Line>,
                                         classes: seq<Class<FaultRule>>)
    requires !e.stopOnEquivalence && HasItsLine(e, trace, b, lines) && Accepts(b) && FaultsOnce(b)
    requires o.Restored? || !RestoresCheckpoint(e, b, lines)
    ensures HasTicked(e, AfterFault(e, o, trace, b, lines, classes), b,
                      ReadReg(trace[FaultDispatch(e, trace, b, lines)], b.number), 0,
                      RestartBudget(o, b))
  {
    hide Before, Within, FaultedCpu, Accepts, IsGolden, IsRecorded, RestoresCheckpoint, Fires, Step, Finish, IsMade,
         MayRevert, GoesOn, IsOver;
    FiresThereOnly(e, trace, b, lines);
    var u := FaultDispatch(e, trace, b, lines);
    var d := FaultStepIs(e, o, trace, b, lines, classes, u);
    var w := Within(e, o, trace, b, lines, classes, u);
    AtTheLine(e, o, trace, b, b, lines, classes, classes, u);
    MadeFinishes(e, w, SiteOf(e.p, trace[u]), d);
    LineInjects(e, o, trace, b, lines, classes, u);
    EitherOr(e, Finish(e, d), RestartBudget(o, b));
  }

  /** The register is written back at the count-th dispatch the countdown counts, and only then; what is
      written is what the register held when the fault was made. */
  lemma {:induction false} RevertsOnTime(e: Env, o: Origin, trace: seq<Cpu>, b: FaultRule, lines: seq<Line>,
                                         classes: seq<Class<FaultRule>>, m: nat)
    requires !e.stopOnEquivalence && HasItsLine(e, trace, b, lines) && Accepts(b) && FaultsOnce(b)
    requires o.Restored? || !RestoresCheckpoint(e, b, lines)
    ensures var r := AfterFault(e, o, trace, b, lines, classes);
            var s := Steps(e, r, m);
            && (Reverts(e, s) <==> Counts(e, s) && Ticks(e, r, m) + 1 == b.lifespan.count)
            && (forall n: nat :: n > m && Reverts(e, s) ==> !Reverts(e, Steps(e, r, n)))
            && s.rule.number == b.number
            && s.rule.lifespan.originalValue == ReadReg(trace[FaultDispatch(e, trace, b, lines)], b.number)
  {
    hide HasTicked, Counts, Reverts, Steps, AfterFault, RestoresCheckpoint, Accepts, Ticks, HasItsLine;
    var r, v := AfterFault(e, o, trace, b, lines, classes), ReadReg(trace[FaultDispatch(e, trace, b, lines)], b.number);
    StartsTicking(e, o, trace, b, lines, classes);
    TicksAll(e, r, b, v, RestartBudget(o, b), m);
    TickedMeans(e, Steps(e, r, m), b, v, Ticks(e, r, m), RestartBudget(o, b));
    forall n: nat | n > m && Reverts(e, Steps(e, r, m)) ensures !Reverts(e, Steps(e, r, n)) {
      TicksAll(e, r, b, v, RestartBudget(o, b), n);
      TickedMeans(e, Steps(e, r, n), b, v, Ticks(e, r, n), RestartBudget(o, b));
      OneTick(e, r, m);
      TicksGrow(e, r, m + 1, n);
    }
  }

  lemma {:induction false} OneTick(e: Env, r: Run, m: nat)
    ensures Ticks(e, r, m + 1) == Ticks(e, r, m) + if Counts(e, Steps(e, r, m)) then 1 else 0
  {
    hide Counts, Steps;
  }

  // ----- what the key leaves out -----

  /** Two faults of one line that leave one state, and so have one key, each lasting for ever or
      reverted after a count of its own.  Without the equivalence test their runs agree, step by step
      and for as long as is asked, exactly when no revert on the way makes a difference to the
      instruction it comes before. */
  lemma {:induction false} MixedLifespansDiffer(e: Env, o: Origin, trace: seq<Cpu>, a: FaultRule, b: FaultRule,
                                                lines: seq<Line>, ca: seq<Class<FaultRule>>,
                                                cb: seq<Class<FaultRule>>, n: nat)
    requires !e.stopOnEquivalence && LeaveOneState(e, o, trace, a, b, lines) && AreMixed(e.p, a, b)
    ensures var r, s := AfterFault(e, o, trace, a, lines, ca), AfterFault(e, o, trace, b, lines, cb);
            AgreeUpTo(e, r, s, n) <==> RevertsAgreeBefore(e, r, s, n)
  {
    hide HasItsLine, AreMixed, AfterFault, Together, AgreeUpTo, RevertsAgreeBefore, Accepts, RestoresCheckpoint,
         FaultedCpu;
    FaultedTogether(e, o, trace, a, b, lines, ca, cb);
    AgreeIff(e, AfterFault(e, o, trace, a, lines, ca), AfterFault(e, o, trace, b, lines, cb),
             RestartBudget(o, a), RestartBudget(o, b), n);
  }

  /** A fault that lasts against one that is reverted, at step m.  They agree up to there; from there on
      exactly when the instruction does the same on both states; and the states it is given are the same
      exactly when the register holds what it held before the fault. */
  lemma {:induction false} RevertDecides(e: Env, o: Origin, trace: seq<Cpu>, a: FaultRule, b: FaultRule,
                                         lines: seq<Line>, ca: seq<Class<FaultRule>>, cb: seq<Class<FaultRule>>,
                                         m: nat, n: nat)
    requires !e.stopOnEquivalence && LeaveOneState(e, o, trace, a, b, lines) && AreMixed(e.p, a, b)
    requires a.lifespan.count == 0
    requires m < n && Reverts(e, Steps(e, AfterFault(e, o, trace, b, lines, cb), m))
    ensures var r, s := AfterFault(e, o, trace, a, lines, ca), AfterFault(e, o, trace, b, lines, cb);
            var c := Steps(e, r, m).cpu;
            && AgreeUpTo(e, r, s, m)
            && (AgreeUpTo(e, r, s, n) <==> e.p.exec(c) == Executes(e, Steps(e, s, m)))
            && (b.number != e.p.pcReg ==>
                  (Left(e, Steps(e, s, m)) == c <==>
                     b.number in c.regs && c.regs[b.number]
                       == ReadReg(trace[FaultDispatch(e, trace, a, lines)], b.number)))
  {
    var r, s := AfterFault(e, o, trace, a, lines, ca), AfterFault(e, o, trace, b, lines, cb);
    SameDispatch(e, o, trace, a, b, lines);
    hide HasItsLine, AfterFault, Together, Accepts, RestoresCheckpoint, FaultedCpu, Agree, Executes, Steps, Counts,
         Ticks;
    MixedLifespansDiffer(e, o, trace, a, b, lines, ca, cb, m);
    MixedLifespansDiffer(e, o, trace, a, b, lines, ca, cb, n);
    RevertsOnTime(e, o, trace, b, lines, cb, m);
    forall j: nat ensures !Reverts(e, Steps(e, r, j)) {
      RevertsOnTime(e, o, trace, a, lines, ca, j);
    }
    forall j: nat | Reverts(e, Steps(e, s, j)) ensures j == m {
      RevertsOnTime(e, o, trace, b, lines, cb, j);
    }
    OnlyThere(e, r, s, m, n);
    AgreeThere(e, r, s, m);
    if b.number != e.p.pcReg {
      PutsBack(e, Steps(e, s, m));
    }
    NeverExecutesElse(e, Steps(e, r, m));
  }

  lemma {:induction false} OnlyThere(e: Env, r: Run, s: Run, m: nat, n: nat)
    requires m < n && forall j: nat :: j != m ==> !Reverts(e, Steps(e, r, j)) && !Reverts(e, Steps(e, s, j))
    requires Reverts(e, Steps(e, s, m))
    ensures RevertsAgreeBefore(e, r, s, m)
    ensures RevertsAgreeBefore(e, r, s, n) <==> Executes(e, Steps(e, r, m)) == Executes(e, Steps(e, s, m))
  {
    hide Reverts, Executes, Steps;
  }

  lemma {:induction false} AgreeThere(e: Env, r: Run, s: Run, m: nat)
    requires AgreeUpTo(e, r, s, m)
    ensures Steps(e, r, m).cpu == Steps(e, s, m).cpu
  {
    hide Steps;
    assert Agree(Steps(e, r, m), Steps(e, s, m));
  }

  lemma {:induction false} PutsBack(e: Env, s: Run)
    requires Reverts(e, s) && s.rule.number != e.p.pcReg
    ensures Left(e, s) == s.cpu <==>
            s.rule.number in s.cpu.regs && s.cpu.regs[s.rule.number] == s.rule.lifespan.originalValue
  {
    hide Reverts;
    var regs := s.cpu.regs[s.rule.number := s.rule.lifespan.originalValue];
    assert regs[s.rule.number] == s.rule.lifespan.originalValue;
    if s.rule.number in s.cpu.regs && s.cpu.regs[s.rule.number] == s.rule.lifespan.originalValue {
      assert regs == s.cpu.regs;
    }
  }

  lemma {:induction false} NeverExecutesElse(e: Env, r: Run)
    requires !Reverts(e, r)
    ensures Executes(e, r) == e.p.exec(r.cpu)
  {
    hide Reverts;
  }
}

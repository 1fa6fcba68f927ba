/** What can lead the instruction count astray, on any program. */
module Drift {
  import opened Utils
  import opened Machine
  import opened Equivalence
  import opened Hooks
  import opened GoldenRun
  import opened StatsRun
  import opened Injection
  import opened ExactlyOnce
  import opened Replay

  /** The rule asks for repeated skips. */
  predicate RepeatsSkip(rule: FaultRule) {
    rule.target.InstructionPointer? && rule.lifespan.mode.Repeat? && rule.lifespan.count > 0
  }

  /** Hooks that a rule without repeated skips can have. */
  predicate NoRepeatedSkip(hooks: seq<Hook>, rule: FaultRule) {
    !RepeatsSkip(rule) &&
    forall i :: 0 <= i < |hooks| ==>
      !hooks[i].kind.RepeatIP? && (hooks[i].kind.FaultItIP? ==> rule.target.InstructionPointer?)
  }

  /** s goes on from r with nothing that matters to the count's drift changed. */
  predicate Steady(r: Run, s: Run) {
    && s.rule.target == r.rule.target && s.rule.lifespan.mode == r.rule.lifespan.mode
    && s.rule.lifespan.count == r.rule.lifespan.count
    && NoRepeatedSkip(s.hooks, s.rule) && s.phase == r.phase && s.restart == r.restart && s.trail.drift == r.trail.drift
  }

  /** What a callback may do: only a step back outside the fault range moves the drift. */
  predicate Drifts(r: Run, s: Run) {
    && s.rule.target == r.rule.target && s.rule.lifespan.mode == r.rule.lifespan.mode
    && s.rule.lifespan.count == r.rule.lifespan.count
    && NoRepeatedSkip(s.hooks, s.rule) && s.phase == r.phase
    && (s.restart ==> s.control.StopRequested?)
    && s.trail.drift == r.trail.drift - if s.restart && !s.inRange then 1 else 0
  }

  lemma {:induction false} SteadyRemove(r: Run, s: Run, kind: HookKind)
    requires Steady(r, s)
    ensures Steady(r, Remove(s, kind)) && Steady(r, RemoveIfSet(s, kind)) && Remove(s, kind).inRange == s.inRange
    ensures RemoveIfSet(s, kind).inRange == s.inRange
    ensures RemoveIfSet(s, kind).control == Remove(s, kind).control == s.control
  {
    hide SetHandle, HandleOf;
  }

  lemma {:induction false} SteadyInstall(r: Run, s: Run, kind: HookKind, where: Where)
    requires Steady(r, s) && !kind.RepeatIP? && (kind.FaultItIP? ==> r.rule.target.InstructionPointer?)
    ensures Steady(r, Install(s, kind, where)) && Install(s, kind, where).inRange == s.inRange
    ensures Install(s, kind, where).control == s.control && Install(s, kind, where).rule == s.rule
  {
    hide SetHandle;
  }

  lemma {:induction false} SteadyLifespan(r: Run, s: Run, revert: HookKind, repeat_: HookKind, where: Where)
    requires Steady(r, s) && IsPlain(revert) && IsPlain(repeat_)
    ensures var l := AddLifespan(s, revert, repeat_, where);
            Steady(r, l) && l.inRange == s.inRange && l.control == s.control
  {
    hide Install, NoRepeatedSkip;
    assert Steady(r, StartLifespan(s)) by { RuleOnly(r, s, StartLifespan(s)); }
    SteadyInstall(r, StartLifespan(s), revert, Everywhere);
    SteadyInstall(r, StartLifespan(s), repeat_, where);
  }

  predicate IsPlain(kind: HookKind) {
    !kind.RepeatIP? && !kind.FaultItIP?
  }

  lemma {:induction false} RuleOnly(r: Run, s: Run, t: Run)
    requires Steady(r, s) && t.hooks == s.hooks && t.rule.target == s.rule.target
    requires t.rule.lifespan.mode == s.rule.lifespan.mode && t.rule.lifespan.count == s.rule.lifespan.count
    requires t.phase == s.phase && t.restart == s.restart
    requires t.trail.drift == s.trail.drift
    ensures Steady(r, t)
  {
  }

  /** A run about to be handed to a callback. */
  predicate Ready(r: Run) {
    NoRepeatedSkip(r.hooks, r.rule) && !r.restart
  }

  lemma {:induction false} RegisterFaultSteady(e: Env, r: Run, s: Run, at: Site)
    requires Steady(r, s)
    ensures Steady(r, DoTheRegisterFault(e, s, at)) && DoTheRegisterFault(e, s, at).inRange == s.inRange
  {
    hide WritePc, FaultReg, NoRepeatedSkip;
    RuleOnly(r, s, DoTheRegisterFault(e, s, at));
  }

  lemma {:induction false} InstructionFaultSteady(e: Env, r: Run, s: Run, at: Site)
    requires Steady(r, s)
    ensures Steady(r, DoTheInstructionFault(e, s, at)) && DoTheInstructionFault(e, s, at).inRange == s.inRange
  {
    hide WriteMem, ReadMem, FaultBytes, NoRepeatedSkip;
    RuleOnly(r, s, DoTheInstructionFault(e, s, at));
  }

  lemma {:induction false} IPFaultSteady(e: Env, r: Run, s: Run, at: Site)
    requires Steady(r, s)
    ensures Steady(r, DoTheIPFault(e, s, at)) && DoTheIPFault(e, s, at).inRange == s.inRange
  {
    hide WritePc, NoRepeatedSkip;
    RuleOnly(r, s, DoTheIPFault(e, s, at));
  }

  lemma {:induction false} RangeDrifts(e: Env, r: Run, at: Site)
    requires Ready(r)
    ensures Drifts(r, AtStartFaults(r)) && Drifts(r, AtStopFaults(r)) && Drifts(r, Count(r))
    ensures Drifts(r, AtSkip(e, r, at))
    ensures Drifts(r, AtEndAddress(r)) && Drifts(r, AtHardStop(e, r)) && Drifts(r, RecordLine(e, r, at))
  {
    hide NoRepeatedSkip, Install, Remove, WritePc, RecordedLine;
    var r1 := r.(inRange := true, count := if r.count == 0 then 1 else r.count);
    SteadyInstall(r, r1, CountInstructions, Everywhere);
    var r2 := r.(state := if r.state.Faulted? then EndAddressAndFaulted
                          else if r.state.EquivalentRs? then EquivalentRs else EndAddress);
    SteadyRemove(r, r2, CountInstructions);
    SteadyRemove(r, r.(state := HardStopped), CountInstructions);
  }

  lemma {:induction false} StartDrifts(e: Env, r: Run)
    requires Ready(r)
    ensures Drifts(r, AtStartAddress(e, r))
  {
    hide NoRepeatedSkip, Install, Load, RestoresCheckpoint;
    var a := LineAt(r.lines, r.rule.instruction).address;
    SteadyInstall(r, r, PrimaryKind(r.rule.target), At({ThumbCheck(e.p, a)}));
    var r1 := if r.rule.isSet then AddFaultHook(e, r, a) else r;
    RestoreDrifts(e, r, r1);
  }

  lemma {:induction false} RestoreDrifts(e: Env, r: Run, r1: Run)
    requires Ready(r) && Steady(r, r1)
    ensures Drifts(r, RestoreFromCheckpoint(e, r1, r.rule.instruction))
  {
    hide NoRepeatedSkip, Install, Load;
    var line := LineAt(r1.lines, LineAt(r1.lines, r.rule.instruction).nearest);
    if line.snapshot.Some? {
      var r2 := r1.(cpu := Load(e.p, r1.cpu, line.snapshot.value));
      SteadyInstall(r, r2, CountInstructions, Everywhere);
    }
  }

  lemma {:induction false} AddressDrifts(r: Run, at: Site)
    requires Ready(r)
    ensures Drifts(r, FaultAddressHook(r, at))
  {
    hide NoRepeatedSkip, Install, RemoveIfSet;
    var r1 := r.(rule := r.rule.(faultedAddress := at.address));
    RuleOnly(r, r, r1);
    SteadyInstall(r, r1, FaultItRegister, Everywhere);
    SteadyRemove(r, Install(r1, FaultItRegister, Everywhere), FaultItAddress);
  }

  lemma {:induction false} RegisterDrifts(e: Env, r: Run, at: Site)
    requires Ready(r)
    ensures Drifts(r, FaultRegisterHook(e, r, at))
  {
    hide NoRepeatedSkip, AddLifespan, RemoveIfSet, DoTheRegisterFault, StateHashes, Record, Known;
    RegisterFaultSteady(e, r, r, at);
    var r1 := Fire(DoTheRegisterFault(e, r, at), at);
    RuleOnly(r, DoTheRegisterFault(e, r, at), r1);
    SteadyLifespan(r, r1, RevertRegister, RepeatRegister, Everywhere);
    var r2 := AddLifespan(r1, RevertRegister, RepeatRegister, Everywhere).(state := Faulted);
    SteadyRemove(r, r2, FaultItRegister);
    SteadyRemove(r, RecordState(e, r2), FaultItRegister);
  }

  lemma {:induction false} EquivalentSteady(e: Env, r: Run, s: Run)
    requires Steady(r, s)
    ensures Steady(r, AddEquivalent(e, s)) && AddEquivalent(e, s).inRange == s.inRange
  {
    hide NoRepeatedSkip, Install;
    SteadyInstall(r, s, Equivalent, Everywhere);
  }

  lemma {:induction false} InstructionDrifts(e: Env, r: Run, at: Site)
    requires Ready(r)
    ensures Drifts(r, FaultInstructionHook(e, r, at))
  {
    hide NoRepeatedSkip, AddLifespan, RemoveIfSet, DoTheInstructionFault, AddEquivalent;
    InstructionFaultSteady(e, r, r, at);
    var r1 := Fire(DoTheInstructionFault(e, r, at), at);
    RuleOnly(r, DoTheInstructionFault(e, r, at), r1);
    EquivalentSteady(e, r, r1);
    SteadyLifespan(r, AddEquivalent(e, r1), RevertInstruction, RepeatInstruction, At({at.address}));
    var r3 := RestartAt(AddLifespan(AddEquivalent(e, r1), RevertInstruction, RepeatInstruction, At({at.address})),
                        ThumbAddress(e.p, at.address));
    SteadyRemove(r3, r3, FaultItInstruction);
  }

  lemma {:induction false} IPDrifts(e: Env, r: Run, at: Site)
    requires Ready(r) && r.rule.target.InstructionPointer?
    ensures Drifts(r, FaultIPHook(e, r, at))
  {
    assert r.rule.lifespan.mode.Repeat? ==> r.rule.lifespan.count == 0;
    hide NoRepeatedSkip, RemoveIfSet, DoTheIPFault, AddEquivalent, Install;
    IPFaultSteady(e, r, r, at);
    var r1 := Fire(DoTheIPFault(e, r, at), at);
    RuleOnly(r, DoTheIPFault(e, r, at), r1);
    EquivalentSteady(e, r, r1);
    var r2 := AddEquivalent(e, r1);
    SteadyRemove(r, r2, FaultItIP);
    RuleOnly(r, r2, StartLifespan(r2));
    SteadyRemove(r, StartLifespan(r2), FaultItIP);
  }

  lemma {:induction false} RegisterLifespanDrifts(e: Env, r: Run, at: Site)
    requires Ready(r)
    ensures Drifts(r, RevertRegisterHook(e, r, at)) && Drifts(r, RepeatRegisterHook(e, r, at))
  {
    hide NoRepeatedSkip, Remove, WritePc, DoTheRegisterFault, LifespanNotStarted;
    RuleOnly(r, r, CountDown(r));
    RegisterFaultSteady(e, r, CountDown(r), at);
    SteadyRemove(r, DoTheRegisterFault(e, CountDown(r), at), RepeatRegister);
    var r1 := WriteRegister(e, CountDown(r), r.rule.number, r.rule.lifespan.originalValue);
    RuleOnly(r, CountDown(r), r1);
    SteadyRemove(r, r1, RevertRegister);
  }

  lemma {:induction false} RevertInstructionDrifts(e: Env, r: Run, at: Site)
    requires Ready(r)
    ensures Drifts(r, RevertInstructionHook(e, r, at))
  {
    hide NoRepeatedSkip, Remove, RemoveIfSet, WriteMem;
    var r1 := ToolWrites(e, CountDown(r), ThumbCheck(e.p, LineAt(r.lines, r.rule.instruction).address),
                         r.rule.lifespan.originalBytes);
    RuleOnly(r, r, CountDown(r));
    RuleOnly(r, r, r1);
    SteadyRemove(r, r1, RevertInstruction);
    var r2 := RestartAt(StepBack(Remove(r1, RevertInstruction)), ThumbAddress(e.p, at.address));
    SteadyRemove(r2, r2, FaultItInstruction);
  }

  lemma {:induction false} RepeatInstructionDrifts(e: Env, r: Run, at: Site)
    requires Ready(r)
    ensures Drifts(r, RepeatInstructionHook(e, r, at))
  {
    hide NoRepeatedSkip, Remove, DoTheInstructionFault;
    InstructionFaultSteady(e, r, r, at);
    var r1 := DoTheInstructionFault(e, r, at);
    RuleOnly(r, r1, CountDown(r1));
    SteadyRemove(r, CountDown(r1), RepeatInstruction);
  }

  lemma {:induction false} CheckDrifts(e: Env, r: Run)
    requires Ready(r)
    ensures Drifts(r, CheckEquivalent(e, r))
  {
    hide NoRepeatedSkip, Remove, StateHashes, Record, Known;
    SteadyRemove(r, RecordState(e, r), Equivalent);
  }

  lemma {:induction false} CallDrifts(e: Env, r: Run, at: Site, kind: HookKind)
    requires Ready(r) && !kind.RepeatIP? && (kind.FaultItIP? ==> r.rule.target.InstructionPointer?)
    ensures Drifts(r, Call(e, r, at, kind))
  {
    hide NoRepeatedSkip, AtSkip, AtEndAddress, AtHardStop, AtStartAddress, AtStartFaults, AtStopFaults, Count,
         RecordLine, FaultAddressHook, FaultRegisterHook, FaultInstructionHook, FaultIPHook, RevertRegisterHook,
         RepeatRegisterHook, RevertInstructionHook, RepeatInstructionHook, CheckEquivalent;
    RangeDrifts(e, r, at);
    match kind
    case OnStartAddress => StartDrifts(e, r);
    case FaultItAddress => AddressDrifts(r, at);
    case FaultItRegister => RegisterDrifts(e, r, at);
    case FaultItInstruction => InstructionDrifts(e, r, at);
    case FaultItIP => IPDrifts(e, r, at);
    case RevertRegister => RegisterLifespanDrifts(e, r, at);
    case RepeatRegister => RegisterLifespanDrifts(e, r, at);
    case RevertInstruction => RevertInstructionDrifts(e, r, at);
    case RepeatInstruction => RepeatInstructionDrifts(e, r, at);
    case Equivalent => CheckDrifts(e, r);
    case _ =>
  }

  lemma {:induction false} VisitDrifts(e: Env, r: Run, at: Site, i: nat)
    requires Ready(r) && i < |r.hooks|
    ensures Drifts(r, Visit(e, r, at, i))
  {
    hide Call;
    if IsCalled(r, at, i) {
      CallDrifts(e, r, at, r.hooks[i].kind);
    }
  }

  lemma {:induction false} DispatchDrifts(e: Env, r: Run, at: Site, i: nat)
    requires Ready(r) && i <= |r.hooks|
    ensures Drifts(r, Dispatch(e, r, at, i))
    decreases Pending(r.hooks, i)
  {
    hide Visit, NoRepeatedSkip;
    if i < |r.hooks| && r.control.Going? {
      VisitDrifts(e, r, at, i);
      VisitDecreases(e, r, at, i);
      if Visit(e, r, at, i).control.Going? {
        DispatchDrifts(e, Visit(e, r, at, i), at, i + 1);
      }
    }
  }

  /** Between steps. */
  predicate Between(r: Run) {
    NoRepeatedSkip(r.hooks, r.rule) && (r.restart ==> !r.phase.Running?) && r.trail.drift <= 0
  }

  /** A restart is asked for outside the fault range. */
  predicate RestartsOutside(r: Run) {
    r.restart && !r.inRange
  }

  lemma {:induction false} FinishKeeps(e: Env, r: Run)
    ensures var s := Finish(e, r);
            && s.hooks == r.hooks && s.rule == r.rule && s.restart == r.restart && s.inRange == r.inRange
            && s.trail.drift == r.trail.drift && (r.control.StopRequested? ==> s.phase.Stopped?)
  {
  }

  lemma {:induction false} StepDrifts(e: Env, r: Run)
    requires Between(r)
    ensures var s := Step(e, r);
            Between(s) && s.trail.drift == r.trail.drift - if r.phase.Running? && RestartsOutside(s) then 1 else 0
    ensures !r.phase.Running? && RestartsOutside(Step(e, r)) ==> RestartsOutside(r)
  {
    hide Dispatch, Finish, NoRepeatedSkip, WritePc;
    if r.phase.Running? {
      DispatchDrifts(e, r, SiteOf(e.p, r.cpu), 0);
      FinishKeeps(e, Dispatch(e, r, SiteOf(e.p, r.cpu), 0));
    }
  }

  /** Unless skips are repeated, only restarts asked for outside the fault range move the drift. */
  lemma {:induction false} NoneOutsideIff(e: Env, rule: FaultRule, lines: seq<Line>, classes: seq<Class<FaultRule>>,
                                          n: nat)
    requires !RepeatsSkip(rule)
    ensures var r := Launched(e, rule, lines, classes);
            && Between(Steps(e, r, n))
            && (Steps(e, r, n).trail.drift == 0 <==> forall m: nat :: m <= n ==> !RestartsOutside(Steps(e, r, m)))
  {
    hide Step, Between, RestartsOutside, Launched;
    var r := Launched(e, rule, lines, classes);
    if n == 0 {
      LaunchedIsBetween(e, rule, lines, classes);
      assert Steps(e, r, 0) == r;
    } else {
      NoneOutsideIff(e, rule, lines, classes, n - 1);
      var s := Steps(e, r, n - 1);
      StepDrifts(e, s);
      assert Steps(e, r, n) == Step(e, s);
      NotPositive(s);
      NotPositive(Step(e, s));
    }
  }

  lemma {:induction false} NotPositive(r: Run)
    requires Between(r)
    ensures r.trail.drift <= 0
  {
  }

  lemma {:induction false} LaunchedIsBetween(e: Env, rule: FaultRule, lines: seq<Line>, classes: seq<Class<FaultRule>>)
    requires !RepeatsSkip(rule)
    ensures var r := Launched(e, rule, lines, classes);
            Between(r) && r.trail.drift == 0 && !RestartsOutside(r)
  {
  }

  /** Unless skips are repeated, a run past its fault has a true count, on any program, exactly as long as
      every restart was asked for in the fault range: the count is the number of in-range instructions it
      has gone past, and the one it is about to execute. */
  lemma {:induction false} NoDriftIff(e: Env, trace: seq<Cpu>, rule: FaultRule, lines: seq<Line>,
                                      classes: seq<Class<FaultRule>>, t: nat, n: nat)
    requires HasItsLine(e, trace, rule, lines) && Accepts(rule) && !RepeatsSkip(rule)
    requires RestoresCheckpoint(e, rule, lines) ==> RestoresAt(e, trace, rule, lines, t)
    requires Steps(e, Launched(e, rule, lines, classes), n).trail.fired != []
    ensures var r := Launched(e, rule, lines, classes);
            var s := Steps(e, r, n);
            var isTrue := s.count == s.trail.passed + if s.phase.Ended? then 0 else 1;
            s.control.Aborted? || s.state.EquivalentRs? ||
            (isTrue <==> forall m: nat :: m <= n ==> !RestartsOutside(Steps(e, r, m)))
  {
    hide Steps, Launched, HasItsLine, Accepts, RepeatsSkip, RestoresCheckpoint, RestoresAt, RestartsOutside,
         IsNumbered, Between;
    NoneOutsideIff(e, rule, lines, classes, n);
    if RestoresCheckpoint(e, rule, lines) {
      RestoredFaultsExactlyOnce(e, trace, rule, lines, classes, t, n);
    } else {
      FaultsExactlyOnce(e, trace, rule, lines, classes, n);
    }
  }
}

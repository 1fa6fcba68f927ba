/** The fast run and the simple run: two runs that only a restored checkpoint tells apart stay so. */
module TwinRuns {
  import opened Utils
  import opened Machine
  import opened Equivalence
  import opened Hooks

  /** The same tool with checkpoints switched off: every run starts from the start address. */
  function FromTheStart(e: Env): Env {
    e.(fromCheckpoint := false)
  }

  function Other(same: bool, e: Env): Env {
    if same then e else FromTheStart(e)
  }

  /** s is r, but for the marks a restored checkpoint leaves: the state before the fault, the last
      restart address, and one restart more.  If same, there was no checkpoint, and only a restart
      address that is not in use may differ. */
  ghost predicate Twins(same: bool, r: Run, s: Run) {
    && s == r.(state := s.state, restartAddress := s.restartAddress,
               trail := r.trail.(restarts := r.trail.restarts + if same then 0 else 1))
    && (s.state == r.state || (!same && r.state.NoneRs? && s.state.StartedFromCheckpoint?))
    && (r.restart ==> s.restartAddress == r.restartAddress)
  }

  /** What a callback does to both. */
  ghost predicate StayTwins(same: bool, r: Run, r1: Run, s1: Run) {
    Twins(same, r1, s1) && (!r.state.NoneRs? ==> !r1.state.NoneRs?)
  }

  lemma {:induction false} TwinRemove(same: bool, r: Run, s: Run, kind: HookKind)
    requires Twins(same, r, s)
    ensures StayTwins(same, r, Remove(r, kind), Remove(s, kind))
    ensures StayTwins(same, r, RemoveIfSet(r, kind), RemoveIfSet(s, kind))
  {
    hide SetHandle, HandleOf;
  }

  lemma {:induction false} TwinInstall(same: bool, r: Run, s: Run, kind: HookKind, where: Where)
    requires Twins(same, r, s)
    ensures StayTwins(same, r, Install(r, kind, where), Install(s, kind, where))
  {
    hide SetHandle;
  }

  lemma {:induction false} TwinRecord(same: bool, e: Env, r: Run, s: Run)
    requires Twins(same, r, s)
    ensures StayTwins(same, r, RecordState(e, r), RecordState(Other(same, e), s))
    ensures StayTwins(same, r, RecordState(Other(same, e), r), RecordState(e, s))
    ensures IsEquivalent(Other(same, e), r) == IsEquivalent(e, s)
  {
    hide StateHashes, Record, Known;
  }

  lemma {:induction false} TwinState(same: bool, r: Run, s: Run, state: RunState)
    requires Twins(same, r, s) && !state.NoneRs?
    ensures StayTwins(same, r, r.(state := state), s.(state := state)) && StayTwins(same, r, Stop(r), Stop(s))
  {
  }

  lemma {:induction false} TwinStopWith(same: bool, r: Run, s: Run, state: RunState)
    requires Twins(same, r, s) && !state.NoneRs?
    ensures StayTwins(same, r, Stop(RemoveIfSet(r.(state := state), CountInstructions)),
                         Stop(RemoveIfSet(s.(state := state), CountInstructions)))
  {
    hide RemoveIfSet, Stop;
    TwinState(same, r, s, state);
    var r1, s1 := r.(state := state), s.(state := state);
    TwinRemove(same, r1, s1, CountInstructions);
    TwinState(same, RemoveIfSet(r1, CountInstructions), RemoveIfSet(s1, CountInstructions), state);
  }

  lemma {:induction false} TwinEnds(same: bool, e: Env, r: Run, s: Run)
    requires Twins(same, r, s)
    ensures StayTwins(same, r, AtEndAddress(r), AtEndAddress(s))
    ensures e.mode.FaultMode? ==> StayTwins(same, r, AtHardStop(Other(same, e), r), AtHardStop(e, s))
  {
    hide RemoveIfSet, Stop, StayTwins;
    TwinStopWith(same, r, s, if r.state.Faulted? then EndAddressAndFaulted
                       else if r.state.EquivalentRs? then EquivalentRs else EndAddress);
    TwinStopWith(same, r, s, HardStopped);
  }

  lemma {:induction false} TwinSkip(same: bool, e: Env, r: Run, s: Run, at: Site)
    requires Twins(same, r, s)
    ensures StayTwins(same, r, AtSkip(Other(same, e), r, at), AtSkip(e, s, at))
  {
    hide WritePc;
  }

  lemma {:induction false} TwinRange(same: bool, r: Run, s: Run)
    requires Twins(same, r, s)
    ensures StayTwins(same, r, AtStartFaults(r), AtStartFaults(s))
    ensures StayTwins(same, r, AtStopFaults(r), AtStopFaults(s))
    ensures StayTwins(same, r, Count(r), Count(s))
  {
    hide Install;
    var r1 := r.(inRange := true, count := if r.count == 0 then 1 else r.count);
    var s1 := s.(inRange := true, count := if s.count == 0 then 1 else s.count);
    TwinInstall(same, r1, s1, CountInstructions, Everywhere);
  }

  lemma {:induction false} TwinWriteRegister(same: bool, e: Env, r: Run, s: Run, reg: nat, v: nat)
    requires Twins(same, r, s)
    ensures StayTwins(same, r, WriteRegister(Other(same, e), r, reg, v), WriteRegister(e, s, reg, v))
  {
    hide WritePc;
  }

  lemma {:induction false} TwinAddLifespan(same: bool, r: Run, s: Run, revert: HookKind, repeat_: HookKind,
                                           where: Where)
    requires Twins(same, r, s)
    ensures StayTwins(same, r, AddLifespan(r, revert, repeat_, where), AddLifespan(s, revert, repeat_, where))
  {
    hide Install;
    TwinInstall(same, StartLifespan(r), StartLifespan(s), revert, Everywhere);
    TwinInstall(same, StartLifespan(r), StartLifespan(s), repeat_, where);
  }

  lemma {:induction false} TwinRegisterFault(same: bool, e: Env, r: Run, s: Run, at: Site)
    requires Twins(same, r, s)
    ensures StayTwins(same, r, DoTheRegisterFault(Other(same, e), r, at), DoTheRegisterFault(e, s, at))
  {
    hide WriteRegister, FaultReg;
    var original := ReadReg(r.cpu, r.rule.number);
    var rule := r.rule.(lifespan := r.rule.lifespan.(originalValue := original));
    var v := FaultReg(r.rule.mask, r.rule.operation, original, at.size);
    if v.Some? {
      TwinWriteRegister(same, e, r.(rule := rule), s.(rule := rule), r.rule.number, v.value);
    }
  }

  lemma {:induction false} TwinAddressHook(same: bool, r: Run, s: Run, at: Site)
    requires Twins(same, r, s)
    ensures StayTwins(same, r, FaultAddressHook(r, at), FaultAddressHook(s, at))
  {
    hide Install, RemoveIfSet;
    var rule := r.rule.(faultedAddress := at.address);
    TwinInstall(same, r.(rule := rule), s.(rule := rule), FaultItRegister, Everywhere);
    TwinRemove(same, Install(r.(rule := rule), FaultItRegister, Everywhere),
               Install(s.(rule := rule), FaultItRegister, Everywhere), FaultItAddress);
  }

  lemma {:induction false} TwinFire(same: bool, r: Run, s: Run, at: Site)
    requires Twins(same, r, s)
    ensures StayTwins(same, r, Fire(r, at), Fire(s, at))
  {
  }

  lemma {:induction false} TwinRegisterHook(same: bool, e: Env, r: Run, s: Run, at: Site)
    requires Twins(same, r, s)
    ensures StayTwins(same, r, FaultRegisterHook(Other(same, e), r, at), FaultRegisterHook(e, s, at))
  {
    hide DoTheRegisterFault, Fire, AddLifespan, RemoveIfSet, RecordState, IsEquivalent;
    TwinRegisterFault(same, e, r, s, at);
    var r1, s1 := DoTheRegisterFault(Other(same, e), r, at), DoTheRegisterFault(e, s, at);
    TwinFire(same, r1, s1, at);
    TwinAddLifespan(same, Fire(r1, at), Fire(s1, at), RevertRegister, RepeatRegister, Everywhere);
    var r2 := AddLifespan(Fire(r1, at), RevertRegister, RepeatRegister, Everywhere).(state := Faulted);
    var s2 := AddLifespan(Fire(s1, at), RevertRegister, RepeatRegister, Everywhere).(state := Faulted);
    TwinRemove(same, r2, s2, FaultItRegister);
    TwinRecord(same, e, r2, s2);
    TwinRemove(same, RecordState(Other(same, e), r2), RecordState(e, s2), FaultItRegister);
  }

  lemma {:induction false} TwinInstructionFault(same: bool, e: Env, r: Run, s: Run, at: Site)
    requires Twins(same, r, s)
    ensures StayTwins(same, r, DoTheInstructionFault(Other(same, e), r, at), DoTheInstructionFault(e, s, at))
  {
    hide WriteMem, ReadMem, FaultBytes;
  }

  lemma {:induction false} TwinAddEquivalent(same: bool, e: Env, r: Run, s: Run)
    requires Twins(same, r, s)
    ensures StayTwins(same, r, AddEquivalent(Other(same, e), r), AddEquivalent(e, s))
  {
    hide Install;
    TwinInstall(same, r, s, Equivalent, Everywhere);
  }

  lemma {:induction false} TwinRestartAt(same: bool, r: Run, s: Run, a: nat)
    requires Twins(same, r, s)
    ensures StayTwins(same, r, RestartAt(r, a), RestartAt(s, a))
  {
  }

  lemma {:induction false} TwinInstructionHook(same: bool, e: Env, r: Run, s: Run, at: Site)
    requires Twins(same, r, s)
    ensures StayTwins(same, r, FaultInstructionHook(Other(same, e), r, at), FaultInstructionHook(e, s, at))
  {
    hide DoTheInstructionFault, Fire, AddLifespan, AddEquivalent, RemoveIfSet, RestartAt;
    TwinInstructionFault(same, e, r, s, at);
    var r1, s1 := DoTheInstructionFault(Other(same, e), r, at), DoTheInstructionFault(e, s, at);
    TwinFire(same, r1, s1, at);
    TwinAddEquivalent(same, e, Fire(r1, at), Fire(s1, at));
    var r2, s2 := AddEquivalent(Other(same, e), Fire(r1, at)), AddEquivalent(e, Fire(s1, at));
    TwinAddLifespan(same, r2, s2, RevertInstruction, RepeatInstruction, At({at.address}));
    var r3 := AddLifespan(r2, RevertInstruction, RepeatInstruction, At({at.address}));
    var s3 := AddLifespan(s2, RevertInstruction, RepeatInstruction, At({at.address}));
    var a := ThumbAddress(e.p, at.address);
    TwinRestartAt(same, r3, s3, a);
    TwinRemove(same, RestartAt(r3, a), RestartAt(s3, a), FaultItInstruction);
  }

  lemma {:induction false} TwinIPFault(same: bool, e: Env, r: Run, s: Run, at: Site)
    requires Twins(same, r, s)
    ensures StayTwins(same, r, DoTheIPFault(Other(same, e), r, at), DoTheIPFault(e, s, at))
  {
    hide WritePc;
  }

  lemma {:induction false} TwinIPHook(same: bool, e: Env, r: Run, s: Run, at: Site)
    requires Twins(same, r, s)
    ensures StayTwins(same, r, FaultIPHook(Other(same, e), r, at), FaultIPHook(e, s, at))
  {
    hide DoTheIPFault, Fire, Install, AddEquivalent, RemoveIfSet;
    TwinIPFault(same, e, r, s, at);
    var r1, s1 := DoTheIPFault(Other(same, e), r, at), DoTheIPFault(e, s, at);
    TwinFire(same, r1, s1, at);
    TwinAddEquivalent(same, e, Fire(r1, at), Fire(s1, at));
    var r2, s2 := AddEquivalent(Other(same, e), Fire(r1, at)), AddEquivalent(e, Fire(s1, at));
    TwinInstall(same, StartLifespan(r2), StartLifespan(s2), RepeatIP, At({at.address}));
    TwinRemove(same, r2, s2, FaultItIP);
    TwinRemove(same, StartLifespan(r2), StartLifespan(s2), FaultItIP);
    TwinRemove(same, Install(StartLifespan(r2), RepeatIP, At({at.address})),
               Install(StartLifespan(s2), RepeatIP, At({at.address})),
               FaultItIP);
  }

  // ----- lifespans -----

  lemma {:induction false} TwinCountDown(same: bool, r: Run, s: Run)
    requires Twins(same, r, s)
    ensures StayTwins(same, r, CountDown(r), CountDown(s)) && StayTwins(same, r, StepBack(r), StepBack(s))
  {
  }

  lemma {:induction false} TwinRevertRegister(same: bool, e: Env, r: Run, s: Run, at: Site)
    requires Twins(same, r, s)
    ensures StayTwins(same, r, RevertRegisterHook(Other(same, e), r, at), RevertRegisterHook(e, s, at))
  {
    hide WriteRegister, Remove, CountDown;
    TwinCountDown(same, r, s);
    var r1, s1 := CountDown(r), CountDown(s);
    TwinWriteRegister(same, e, r1, s1, r1.rule.number, r1.rule.lifespan.originalValue);
    TwinRemove(same, WriteRegister(Other(same, e), r1, r1.rule.number, r1.rule.lifespan.originalValue),
               WriteRegister(e, s1, r1.rule.number, r1.rule.lifespan.originalValue), RevertRegister);
  }

  lemma {:induction false} TwinRepeatRegister(same: bool, e: Env, r: Run, s: Run, at: Site)
    requires Twins(same, r, s)
    ensures StayTwins(same, r, RepeatRegisterHook(Other(same, e), r, at), RepeatRegisterHook(e, s, at))
  {
    hide DoTheRegisterFault, Remove, CountDown;
    TwinCountDown(same, r, s);
    TwinRegisterFault(same, e, CountDown(r), CountDown(s), at);
    TwinRemove(same, DoTheRegisterFault(Other(same, e), CountDown(r), at), DoTheRegisterFault(e, CountDown(s), at),
               RepeatRegister);
  }

  lemma {:induction false} TwinToolWrites(same: bool, e: Env, r: Run, s: Run, a: nat, bytes: Bytes)
    requires Twins(same, r, s)
    ensures StayTwins(same, r, ToolWrites(Other(same, e), r, a, bytes), ToolWrites(e, s, a, bytes))
  {
    hide WriteMem;
  }

  lemma {:induction false} TwinRevertInstruction(same: bool, e: Env, r: Run, s: Run, at: Site)
    requires Twins(same, r, s)
    ensures StayTwins(same, r, RevertInstructionHook(Other(same, e), r, at), RevertInstructionHook(e, s, at))
  {
    hide ToolWrites, Remove, RemoveIfSet, RestartAt, CountDown, StepBack;
    TwinCountDown(same, r, s);
    var r1, s1 := CountDown(r), CountDown(s);
    var site, bytes := ThumbCheck(e.p, LineAt(r.lines, r.rule.instruction).address), r1.rule.lifespan.originalBytes;
    TwinToolWrites(same, e, r1, s1, site, bytes);
    var r2, s2 := ToolWrites(Other(same, e), r1, site, bytes), ToolWrites(e, s1, site, bytes);
    TwinRemove(same, r2, s2, RevertInstruction);
    TwinCountDown(same, Remove(r2, RevertInstruction), Remove(s2, RevertInstruction));
    var r3, s3 := StepBack(Remove(r2, RevertInstruction)), StepBack(Remove(s2, RevertInstruction));
    TwinRestartAt(same, r3, s3, ThumbAddress(e.p, at.address));
    TwinRemove(same, RestartAt(r3, ThumbAddress(e.p, at.address)), RestartAt(s3, ThumbAddress(e.p, at.address)),
               FaultItInstruction);
  }

  lemma {:induction false} TwinRepeatInstruction(same: bool, e: Env, r: Run, s: Run, at: Site)
    requires Twins(same, r, s)
    ensures StayTwins(same, r, RepeatInstructionHook(Other(same, e), r, at), RepeatInstructionHook(e, s, at))
  {
    hide DoTheInstructionFault, Remove, RestartAt, CountDown, StepBack;
    TwinInstructionFault(same, e, r, s, at);
    var r1, s1 := DoTheInstructionFault(Other(same, e), r, at), DoTheInstructionFault(e, s, at);
    TwinCountDown(same, r1, s1);
    var r2, s2 := CountDown(r1), CountDown(s1);
    TwinRemove(same, r2, s2, RepeatInstruction);
    var r3, s3 := RemoveIfSpent(r2, RepeatInstruction), RemoveIfSpent(s2, RepeatInstruction);
    TwinCountDown(same, r3, s3);
    TwinRestartAt(same, StepBack(r3), StepBack(s3), if IsArm(e.p) && at.size == 2 then at.address + 1 else at.address);
  }

  lemma {:induction false} TwinRepeatIP(same: bool, e: Env, r: Run, s: Run, at: Site)
    requires Twins(same, r, s)
    ensures StayTwins(same, r, RepeatIPHook(Other(same, e), r, at), RepeatIPHook(e, s, at))
  {
    hide DoTheIPFault, Remove, CountDown;
    TwinCountDown(same, r, s);
    TwinIPFault(same, e, CountDown(r), CountDown(s), at);
    var r1, s1 := DoTheIPFault(Other(same, e), CountDown(r), at), DoTheIPFault(e, CountDown(s), at);
    TwinRemove(same, r1.(trail := r1.trail.(drift := r1.trail.drift + 1)),
               s1.(trail := s1.trail.(drift := s1.trail.drift + 1)),
               RepeatIP);
  }

  lemma {:induction false} TwinCheckEquivalent(same: bool, e: Env, r: Run, s: Run)
    requires Twins(same, r, s)
    ensures StayTwins(same, r, CheckEquivalent(Other(same, e), r), CheckEquivalent(e, s))
  {
    hide RecordState, IsEquivalent, Remove;
    TwinRecord(same, e, r, s);
    TwinRemove(same, RecordState(Other(same, e), r), RecordState(e, s), Equivalent);
  }

  lemma {:induction false} TwinAddFaultHook(e: Env, r: Run, s: Run, a: nat)
    requires Twins(true, r, s)
    ensures StayTwins(true, r, AddFaultHook(e, r, a), AddFaultHook(e, s, a))
  {
    hide Install;
    var where := At({ThumbCheck(e.p, a)});
    TwinInstall(true, r, s, FaultItAddress, where);
    TwinInstall(true, r, s, FaultItInstruction, where);
    TwinInstall(true, r, s, FaultItIP, where);
  }

  lemma {:induction false} TwinRestore(e: Env, r: Run, s: Run, instr: nat)
    requires Twins(true, r, s)
    ensures StayTwins(true, r, RestoreFromCheckpoint(e, r, instr), RestoreFromCheckpoint(e, s, instr))
  {
    hide Install, Load;
    var line := LineAt(r.lines, LineAt(r.lines, instr).nearest);
    if line.snapshot.Some? {
      var c := Load(e.p, r.cpu, line.snapshot.value);
      TwinInstall(true, r.(cpu := c), s.(cpu := c), CountInstructions, Everywhere);
    }
  }

  lemma {:induction false} TwinStart(e: Env, r: Run, s: Run)
    requires Twins(true, r, s)
    ensures StayTwins(true, r, AtStartAddress(e, r), AtStartAddress(e, s))
  {
    hide AddFaultHook, RestoreFromCheckpoint, RestoresCheckpoint;
    var a := LineAt(r.lines, r.rule.instruction).address;
    TwinAddFaultHook(e, r, s, a);
    TwinRestore(e, r, s, r.rule.instruction);
    TwinRestore(e, AddFaultHook(e, r, a), AddFaultHook(e, s, a), r.rule.instruction);
  }

  // ----- dispatches and steps -----

  lemma {:induction false} StartIsIgnored(e: Env, r: Run, s: Run)
    requires !r.state.NoneRs? && !s.state.NoneRs?
    ensures AtStartAddress(FromTheStart(e), r) == r && AtStartAddress(e, s) == s && AtStartAddress(e, r) == r
  {
  }

  lemma {:induction false} TwinCall(same: bool, e: Env, r: Run, s: Run, at: Site, kind: HookKind)
    requires Twins(same, r, s) && e.mode.FaultMode? && !kind.Stats?
    requires (kind.OnStartAddress? ==> same || !r.state.NoneRs?)
    ensures StayTwins(same, r, Call(Other(same, e), r, at, kind), Call(e, s, at, kind))
  {
    hide AtSkip, AtEndAddress, AtHardStop, AtStartFaults, AtStopFaults, Count, FaultAddressHook, FaultRegisterHook,
         FaultInstructionHook, FaultIPHook, RevertRegisterHook, RepeatRegisterHook, RevertInstructionHook,
         RepeatInstructionHook, RepeatIPHook, CheckEquivalent, AtStartAddress;
    if !r.state.NoneRs? { StartIsIgnored(e, r, s); }
    if same { TwinStart(e, r, s); }
    match kind
    case OnEndAddress => TwinEnds(same, e, r, s);
    case OnSkip => TwinSkip(same, e, r, s, at);
    case OnStartFaults => TwinRange(same, r, s);
    case OnStopFaults => TwinRange(same, r, s);
    case OnHardStop => TwinEnds(same, e, r, s);
    case CountInstructions => TwinRange(same, r, s);
    case FaultItAddress => TwinAddressHook(same, r, s, at);
    case FaultItRegister => TwinRegisterHook(same, e, r, s, at);
    case FaultItInstruction => TwinInstructionHook(same, e, r, s, at);
    case FaultItIP => TwinIPHook(same, e, r, s, at);
    case RevertRegister => TwinRevertRegister(same, e, r, s, at);
    case RepeatRegister => TwinRepeatRegister(same, e, r, s, at);
    case RevertInstruction => TwinRevertInstruction(same, e, r, s, at);
    case RepeatInstruction => TwinRepeatInstruction(same, e, r, s, at);
    case RepeatIP => TwinRepeatIP(same, e, r, s, at);
    case Equivalent => TwinCheckEquivalent(same, e, r, s);
    case _ =>
  }

  predicate NoStats(hooks: seq<Hook>) {
    forall j :: 0 <= j < |hooks| ==> !hooks[j].kind.Stats?
  }

  lemma {:induction false} LightHooks(hooks: seq<Hook>, i: nat, j: nat)
    requires i <= j < |hooks|
    ensures Weight(hooks[j].kind) <= Pending(hooks, i)
    decreases j - i
  {
    if i < j {
      LightHooks(hooks, i + 1, j);
    }
  }

  lemma {:induction false} GrowsNoStats(before: seq<Hook>, after: seq<Hook>, weight: nat)
    requires Grows(before, after, weight) && weight <= 5 && NoStats(before)
    ensures NoStats(after)
  {
    hide Pending;
    forall j | |before| <= j < |after| ensures !after[j].kind.Stats? {
      LightHooks(after, |before|, j);
    }
  }

  lemma {:induction false} VisitNoStats(e: Env, r: Run, at: Site, i: nat)
    requires i < |r.hooks| && NoStats(r.hooks)
    ensures NoStats(Visit(e, r, at, i).hooks)
  {
    hide Visit, NoStats, Grows;
    VisitGrows(e, r, at, i);
    GrowsNoStats(r.hooks, Visit(e, r, at, i).hooks, Weight(r.hooks[i].kind) - 1);
  }

  lemma {:induction false} TwinVisit(same: bool, e: Env, r: Run, s: Run, at: Site, i: nat)
    requires Twins(same, r, s) && e.mode.FaultMode? && i < |r.hooks| && !r.hooks[i].kind.Stats?
    requires (same || !r.state.NoneRs?)
    ensures StayTwins(same, r, Visit(Other(same, e), r, at, i), Visit(e, s, at, i))
  {
    hide Call;
    TwinCall(same, e, r, s, at, r.hooks[i].kind);
  }

  lemma {:induction false} TwinDispatch(same: bool, e: Env, r: Run, s: Run, at: Site, i: nat)
    requires Twins(same, r, s) && e.mode.FaultMode? && i <= |r.hooks| && NoStats(r.hooks) && (same || !r.state.NoneRs?)
    ensures StayTwins(same, r, Dispatch(Other(same, e), r, at, i), Dispatch(e, s, at, i))
    ensures NoStats(Dispatch(Other(same, e), r, at, i).hooks)
    decreases Pending(r.hooks, i)
  {
    hide Visit;
    if i < |r.hooks| && r.control.Going? {
      TwinVisit(same, e, r, s, at, i);
      VisitNoStats(Other(same, e), r, at, i);
      VisitDecreases(Other(same, e), r, at, i);
      TwinDispatch(same, e, Visit(Other(same, e), r, at, i), Visit(e, s, at, i), at, i + 1);
    }
  }

  lemma {:induction false} TwinPass(same: bool, r: Run, s: Run, c: Cpu)
    requires Twins(same, r, s)
    ensures StayTwins(same, r, Pass(r).(cpu := c), Pass(s).(cpu := c)) && Pass(s).hooks == s.hooks
    ensures Pass(r).cpu == Pass(s).cpu == r.cpu
  {
  }

  lemma {:induction false} TwinControl(same: bool, r: Run, s: Run, control: Control, phase: Phase)
    requires Twins(same, r, s)
    ensures StayTwins(same, r, r.(phase := phase), s.(phase := phase))
    ensures StayTwins(same, r, r.(control := control), s.(control := control))
  {
  }

  lemma {:induction false} TwinPassed(same: bool, r: Run, s: Run, c: Cpu)
    requires Twins(same, r, s)
    ensures var r1, s1 := Pass(r).(cpu := c), Pass(s).(cpu := c);
            && StayTwins(same, r, r1, s1) && StayTwins(same, r, r1.(phase := Stopped), s1.(phase := Stopped))
            && StayTwins(same, r, r1.(phase := Stopped, state := Errored), s1.(phase := Stopped, state := Errored))
            && StayTwins(same, r, r1.(phase := Stopped, state := Interrupted),
                         s1.(phase := Stopped, state := Interrupted))
            && r1.hooks == s1.hooks == s.hooks
  {
    hide Pass, Twins;
    TwinPass(same, r, s, c);
    var r1, s1 := Pass(r).(cpu := c), Pass(s).(cpu := c);
    SameCpu(same, r1, s1);
    SameCpu(same, r, s);
    TwinControl(same, r1, s1, Going, Stopped);
    TwinState(same, r1.(phase := Stopped), s1.(phase := Stopped), Errored);
    TwinState(same, r1.(phase := Stopped), s1.(phase := Stopped), Interrupted);
  }

  lemma {:induction false} TwinStopped(same: bool, r: Run, s: Run)
    requires Twins(same, r, s)
    ensures StayTwins(same, r, r.(phase := Ended), s.(phase := Ended))
    ensures StayTwins(same, r, r.(phase := Stopped), s.(phase := Stopped))
    ensures StayTwins(same, r, r.(control := Going), s.(control := Going))
    ensures StayTwins(same, r, Pass(r).(control := Going), Pass(s).(control := Going)) && Pass(s).hooks == s.hooks
  {
    hide Pass, Twins;
    TwinControl(same, r, s, Going, Ended);
    TwinControl(same, r, s, Going, Stopped);
    TwinPass(same, r, s, r.cpu);
    SameCpu(same, r, s);
    TwinControl(same, Pass(r), Pass(s), Going, Stopped);
  }

  lemma {:induction false} TwinFinish(same: bool, e: Env, r: Run, s: Run)
    requires Twins(same, r, s)
    ensures StayTwins(same, r, Finish(Other(same, e), r), Finish(e, s))
    ensures Finish(e, s).hooks == s.hooks
  {
    hide Pass, Twins, StayTwins;
    SameCpu(same, r, s);
    TwinStopped(same, r, s);
    TwinPassed(same, r, s, e.p.exec(r.cpu).cpu);
  }

  lemma {:induction false} SameCpu(same: bool, r: Run, s: Run)
    requires Twins(same, r, s)
    ensures r.control == s.control && r.cpu == s.cpu && r.phase == s.phase && r.hooks == s.hooks
  {
  }

  lemma {:induction false} TwinAfterSegment(same: bool, e: Env, r: Run, s: Run)
    requires Twins(same, r, s)
    ensures StayTwins(same, r, AfterSegment(Other(same, e), r), AfterSegment(e, s))
    ensures AfterSegment(e, s).hooks == s.hooks
  {
    hide WritePc;
  }

  lemma {:induction false} TwinSteps(same: bool, e: Env, r: Run, s: Run, n: nat)
    requires Twins(same, r, s) && e.mode.FaultMode? && NoStats(r.hooks) && (same || !r.state.NoneRs?)
    ensures StayTwins(same, r, Steps(Other(same, e), r, n), Steps(e, s, n))
    ensures NoStats(Steps(Other(same, e), r, n).hooks)
  {
    hide Finish, AfterSegment, Dispatch, NoStats;
    if n > 0 {
      TwinSteps(same, e, r, s, n - 1);
      var r1, s1 := Steps(Other(same, e), r, n - 1), Steps(e, s, n - 1);
      if r1.phase.Running? {
        TwinDispatch(same, e, r1, s1, SiteOf(e.p, r1.cpu), 0);
        TwinFinish(same, e, Dispatch(Other(same, e), r1, SiteOf(e.p, r1.cpu), 0),
                   Dispatch(e, s1, SiteOf(e.p, r1.cpu), 0));
      } else {
        TwinAfterSegment(same, e, r1, s1);
      }
    }
  }
}

/** current_run_state_t and the callbacks that update it, each proved to do what module Hooks says. */
module RunState {
  import opened Utils
  import opened Machine
  import opened Equivalence
  import opened Hooks
  import opened GoldenRun
  import opened StatsRun
  import opened Segments
  import opened History
  import opened Campaign

  class CurrentRunState {
    const e: Env
    // The emulator.
    var cpu: Cpu
    var hooks: seq<Hook>
    var control: Control
    var phase: Phase
    // The fields of current_run_state.
    var hk: Handles
    var count: nat
    var inRange: bool
    var state: Machine.RunState
    var restart: bool
    var restartAddress: nat
    var rule: FaultRule
    var lines: seq<Line>
    var classes: seq<Class<FaultRule>>
    ghost var trail: Trail

    ghost function View(): Run
      reads this
    {
      Run(cpu, hooks, hk, count, inRange, state, restart, restartAddress, rule, lines, classes, control, phase, trail)
    }

    // ----- hooks and handles -----

    /** my_uc_hook_add */
    method HookAdd(kind: HookKind, where: Where)
      modifies this`hooks, this`hk
      ensures View() == Install(old(View()), kind, where)
    {
      hooks := hooks + [Hook(kind, where, 0)];
      hk := SetHandle(hk, kind, |hooks|);
    }

    /** my_uc_hook_del, and the handle is set to 0. */
    method HookDel(kind: HookKind)
      modifies this`hooks, this`hk
      ensures View() == Remove(old(View()), kind)
    {
      var h := HandleOf(hk, kind);
      if 0 < h <= |hooks| {
        hooks := hooks[h - 1 := hooks[h - 1].(deletions := hooks[h - 1].deletions + 1)];
      }
      hk := SetHandle(hk, kind, 0);
    }

    method HookDelIfSet(kind: HookKind)
      modifies this`hooks, this`hk
      ensures View() == RemoveIfSet(old(View()), kind)
    {
      if HandleOf(hk, kind) != 0 {
        HookDel(kind);
      }
    }

    method EmuStop()
      modifies this`control
      ensures View() == Stop(old(View()))
    {
      control := StopRequested;
    }

    /** my_exit */
    method Exit()
      modifies this`control
      ensures View() == Abort(old(View()))
    {
      control := Aborted;
    }

    // ----- shared/unicorn_hooks_std.c -----

    method HookCountInstructions()
      modifies this`count
      ensures View() == Count(old(View()))
    {
      if !inRange {
        return;
      }
      count := count + 1;
    }

    method HookCodeEndAddress()
      modifies this
      ensures View() == AtEndAddress(old(View()))
    {
      if state.Faulted? {
        state := EndAddressAndFaulted;
      } else if !state.EquivalentRs? {
        state := EndAddress;
      }
      HookDelIfSet(CountInstructions);
      EmuStop();
    }

    method HookCodeSkips(at: Site)
      modifies this
      ensures View() == AtSkip(e, old(View()), at)
    {
      var size := at.size;
      if at.address in e.p.skips && e.p.skips[at.address] != 0 {
        size := e.p.skips[at.address];
      }
      var target := at.address + size;
      if e.p.thumbMode {
        target := target + 1;
      }
      cpu := WritePc(e.p, cpu, target);
      control := Skipped;
    }

    method HookCodeStartAddress()
      modifies this
      ensures View() == AtStartAddress(e, old(View()))
    {
      hide RestoreFromCheckpoint, AddFaultHook;
      var instr := rule.instruction;
      if !state.NoneRs? {
        return;
      }
      ghost var r := View();
      if rule.isSet {
        var address := LineAt(lines, instr).address;
        AddHookCodeFaultItAddress(address);
        AddsOnlyAHook(e, r, address);
      }
      if e.mode.FaultMode? && e.fromCheckpoint && rule.isSet && LineAt(lines, instr).nearest != NO_CHECKPOINT {
        UcRestoreFromCheckpoint(instr);
      }
    }

    // ----- shared/unicorn_engine.c -----

    method UcRestoreFromCheckpoint(instr: nat)
      modifies this
      ensures View() == RestoreFromCheckpoint(e, old(View()), instr)
    {
      hide Install, Load;
      var number := LineAt(lines, instr).nearest;
      var line := LineAt(lines, number);
      if line.snapshot.None? {
        Exit();
        return;
      }
      if !line.checkpoint {
        Exit();
        return;
      }
      cpu := Load(e.p, cpu, line.snapshot.value);
      if hk.countInstructions == 0 {
        HookAdd(CountInstructions, Everywhere);
      }
      ResumeFrom(number, line.address);
    }

    method ResumeFrom(number: nat, address: nat)
      modifies this
      ensures var r := old(View());
              View() == RestartAt(r.(count := number, inRange := true, state := StartedFromCheckpoint,
                                     trail := r.trail.(passed := if number > 0 then number - 1 else 0)), address)
    {
      count := number;
      inRange := true;
      state := StartedFromCheckpoint;
      trail := trail.(passed := if number > 0 then number - 1 else 0);
      RestartFrom(address);
    }

    /** Ask for a restart, and stop. */
    method RestartFrom(address: nat)
      modifies this`restart, this`restartAddress, this`control
      ensures View() == RestartAt(old(View()), address)
    {
      restart := true;
      restartAddress := address;
      EmuStop();
    }

    // ----- shared/unicorn_hooks_faults.c -----

    method AddHookCodeFaultItAddress(address: nat)
      modifies this
      ensures View() == AddFaultHook(e, old(View()), address)
    {
      hide Install;
      var where := At({ThumbCheck(e.p, address)});
      match rule.target {
        case Register => HookAdd(FaultItAddress, where);
        case Instruction => HookAdd(FaultItInstruction, where);
        case InstructionPointer => HookAdd(FaultItIP, where);
      }
    }

    /** is_equivalent */
    method IsEquivalentState() returns (matches: bool)
      modifies this
      ensures View() == RecordState(e, old(View())) && matches == IsEquivalent(e, old(View()))
    {
      hide StateHashes, Known, Record;
      var hashes := StateHashes(e.p, cpu);
      matches := Known(classes, hashes);
      classes := Record(classes, hashes, rule);
    }

    method HookCodeEquivalent()
      modifies this
      ensures View() == CheckEquivalent(e, old(View()))
    {
      hide StateHashes, Known, Record, Remove;
      var matches := IsEquivalentState();
      if matches {
        state := EquivalentRs;
        EmuStop();
        return;
      }
      HookDel(Equivalent);
    }

    method HookCodeFaultItAddress(at: Site)
      modifies this
      ensures View() == FaultAddressHook(old(View()), at)
    {
      hide Install, RemoveIfSet;
      if !inRange || state.Faulted? || rule.instruction != count {
        return;
      }
      rule := rule.(faultedAddress := at.address);
      HookAdd(FaultItRegister, Everywhere);
      HookDelIfSet(FaultItAddress);
    }

    method HookCodeStartFaults()
      modifies this
      ensures View() == AtStartFaults(old(View()))
    {
      hide Install;
      inRange := true;
      if count == 0 {
        count := 1;
      }
      if hk.countInstructions == 0 {
        HookAdd(CountInstructions, Everywhere);
      }
    }

    method HookCodeStopFaults()
      modifies this
      ensures View() == AtStopFaults(old(View()))
    {
      inRange := false;
    }

    method HookCodeHardStop()
      modifies this
      ensures View() == AtHardStop(e, old(View()))
    {
      hide RemoveIfSet;
      if !e.mode.FaultMode? {
        return;
      }
      state := HardStopped;
      HookDelIfSet(CountInstructions);
      EmuStop();
    }

    // ----- shared/unicorn_hooks_stats.c -----

    method HookCodeStats(at: Site)
      modifies this
      ensures View() == RecordLine(e, old(View()), at)
    {
      hide Save;
      var num := count;
      if !inRange || num >= |lines| {
        return;
      }
      lines := lines[num := lines[num].(address := at.address)];
      if IsArm(e.p) {
        lines := lines[num := lines[num].(address := at.address + 1)];
      }
      lines := lines[num := lines[num].(size := at.size)];
      if e.fromCheckpoint && lines[num].checkpoint {
        lines := lines[num := lines[num].(snapshot := Some(Save(e.p, cpu)))];
      }
    }

    // ----- shared/unicorn_hooks_fault_registers.c -----

    method UcRegWrite(reg: nat, v: nat)
      modifies this`cpu, this`control
      ensures View() == WriteRegister(e, old(View()), reg, v)
    {
      hide WritePc;
      if reg == e.p.pcReg {
        cpu := WritePc(e.p, cpu, v);
        control := PcWritten;
      } else {
        cpu := cpu.(regs := cpu.regs[reg := v]);
      }
    }

    method DoTheRegisterFault(at: Site)
      modifies this
      ensures View() == Hooks.DoTheRegisterFault(e, old(View()), at)
    {
      hide FaultReg, WriteRegister;
      var original := ReadReg(cpu, rule.number);
      var faulted := FaultReg(rule.mask, rule.operation, original, at.size);
      if faulted.None? {
        Exit();
        return;
      }
      rule := rule.(lifespan := rule.lifespan.(originalValue := original));
      UcRegWrite(rule.number, faulted.value);
    }

    method SetLiveCounter()
      modifies this`rule
      ensures View() == StartLifespan(old(View()))
    {
      rule := rule.(lifespan := rule.lifespan.(live := rule.lifespan.count));
    }

    /** The lifespan hook a rule asks for, if any. */
    method AddLifespanHook(revert: HookKind, repeat_: HookKind, where: Where)
      modifies this
      ensures View() == AddLifespan(old(View()), revert, repeat_, where)
    {
      AddLifespanIs(View(), revert, repeat_, where);
      hide Install, StartLifespan, AddLifespan;
      if rule.lifespan.count == 0 {
        return;
      }
      var mode := rule.lifespan.mode;
      SetLiveCounter();
      if mode.Revert? {
        HookAdd(revert, Everywhere);
      }
      if mode.Repeat? {
        HookAdd(repeat_, where);
      }
    }

    ghost method Log(at: Site)
      modifies this`trail
      ensures View() == Fire(old(View()), at)
    {
      trail := trail.(fired := trail.fired + [Firing(trail.passed + 1, at.address)]);
    }

    method HookCodeFaultItRegister(at: Site)
      modifies this
      ensures View() == FaultRegisterHook(e, old(View()), at)
    {
      hide Hooks.DoTheRegisterFault, AddLifespan, RecordState, IsEquivalent, RemoveIfSet, Fire;
      DoTheRegisterFault(at);
      if control.Aborted? {
        return;
      }
      Log(at);
      AddLifespanHook(RevertRegister, RepeatRegister, Everywhere);
      state := Faulted;
      if e.stopOnEquivalence {
        var matches := IsEquivalentState();
        if matches {
          state := EquivalentRs;
          EmuStop();
          return;
        }
      }
      HookDelIfSet(FaultItRegister);
    }

    method HookLifespanRevertRegister(at: Site)
      modifies this
      ensures View() == RevertRegisterHook(e, old(View()), at)
    {
      hide WriteRegister, Remove;
      var faultAddress := ThumbCheck(e.p, LineAt(lines, rule.instruction).address);
      if at.address == faultAddress && rule.lifespan.count == rule.lifespan.live {
        return;
      }
      rule := rule.(lifespan := rule.lifespan.(live := Dec(rule.lifespan.live)));
      if rule.lifespan.live != 0 {
        return;
      }
      UcRegWrite(rule.number, rule.lifespan.originalValue);
      HookDel(RevertRegister);
    }

    method HookLifespanRepeatRegister(at: Site)
      modifies this
      ensures View() == RepeatRegisterHook(e, old(View()), at)
    {
      hide Hooks.DoTheRegisterFault, Remove;
      var faultAddress := ThumbCheck(e.p, LineAt(lines, rule.instruction).address);
      if at.address == faultAddress && rule.lifespan.count == rule.lifespan.live {
        return;
      }
      rule := rule.(lifespan := rule.lifespan.(live := Dec(rule.lifespan.live)));
      DoTheRegisterFault(at);
      if control.Aborted? {
        return;
      }
      if rule.lifespan.live == 0 {
        HookDel(RepeatRegister);
      }
    }

    // ----- shared/unicorn_hooks_fault_instructions.c -----

    method UcMemWrite(address: nat, bytes: Bytes)
      modifies this`cpu, this`trail
      ensures View() == ToolWrites(e, old(View()), address, bytes)
    {
      hide WriteMem;
      cpu := WriteMem(cpu, address, bytes);
      trail := trail.(writes := trail.writes + [ToolWrite(trail.passed, address, bytes)]);
    }

    method DoTheInstructionFault(at: Site)
      modifies this
      ensures View() == Hooks.DoTheInstructionFault(e, old(View()), at)
    {
      hide ToolWrites, ReadMem;
      var original := ReadMem(cpu, at.address, at.size);
      if !FaultsBytes(rule.operation) {
        Exit();
        return;
      }
      var input, output := new Byte[at.size](i requires 0 <= i < |original| => original[i]), new Byte[at.size];
      FaultInstruction(rule.mask, rule.operation, input, output, at.size);
      assert input[..at.size] == original;
      UcMemWrite(ThumbCheck(e.p, at.address), output[..at.size]);
      rule := rule.(lifespan := rule.lifespan.(originalBytes := original), faultedAddress := at.address);
      state := Faulted;
    }

    method AddEquivalentHook()
      modifies this
      ensures View() == AddEquivalent(e, old(View()))
    {
      hide Install;
      if e.stopOnEquivalence {
        HookAdd(Equivalent, Everywhere);
      }
    }

    method HookCodeFaultItInstruction(at: Site)
      modifies this
      ensures View() == FaultInstructionHook(e, old(View()), at)
    {
      hide Hooks.DoTheInstructionFault, AddLifespan, AddEquivalent, RemoveIfSet, Fire, RestartAt;
      if !inRange || state.Faulted? || rule.instruction != count {
        return;
      }
      DoTheInstructionFault(at);
      if control.Aborted? {
        return;
      }
      Log(at);
      AddEquivalentHook();
      AddLifespanHook(RevertInstruction, RepeatInstruction, At({at.address}));
      RestartFrom(ThumbAddress(e.p, at.address));
      HookDelIfSet(FaultItInstruction);
    }

    /** The instruction is dispatched again, and counted again if it is in the fault range. */
    method CountBack()
      modifies this`count, this`trail
      ensures View() == StepBack(old(View()))
    {
      count := Dec(count);
      trail := trail.(drift := trail.drift - if inRange then 0 else 1);
    }

    method HookLifespanRevertInstruction(at: Site)
      modifies this
      ensures View() == RevertInstructionHook(e, old(View()), at)
    {
      hide ToolWrites, Remove, RemoveIfSet, RestartAt, StepBack;
      if count <= rule.instruction + 1 {
        return;
      }
      rule := rule.(lifespan := rule.lifespan.(live := Dec(rule.lifespan.live)));
      if rule.lifespan.live != 0 {
        return;
      }
      UcMemWrite(ThumbCheck(e.p, LineAt(lines, rule.instruction).address), rule.lifespan.originalBytes);
      HookDel(RevertInstruction);
      CountBack();
      RestartFrom(ThumbAddress(e.p, at.address));
      HookDelIfSet(FaultItInstruction);
    }

    method HookLifespanRepeatInstruction(at: Site)
      modifies this
      ensures View() == RepeatInstructionHook(e, old(View()), at)
    {
      hide Hooks.DoTheInstructionFault, Remove, RestartAt, StepBack;
      if count <= rule.instruction + 1 {
        return;
      }
      DoTheInstructionFault(at);
      if control.Aborted? {
        return;
      }
      rule := rule.(lifespan := rule.lifespan.(live := Dec(rule.lifespan.live)));
      if rule.lifespan.live == 0 {
        HookDel(RepeatInstruction);
      }
      CountBack();
      var address := at.address;
      if IsArm(e.p) && at.size == 2 {
        address := address + 1;
      }
      RestartFrom(address);
    }

    // ----- shared/unicorn_hooks_fault_IP.c -----

    method DoTheIPFault(at: Site)
      modifies this
      ensures View() == Hooks.DoTheIPFault(e, old(View()), at)
    {
      hide WritePc;
      if !rule.operation.Skip? {
        Exit();
        return;
      }
      var pc := Pc(e.p, cpu) + at.size;
      if IsArm(e.p) {
        pc := pc + 1;
      }
      cpu := WritePc(e.p, cpu, pc);
      control := PcWritten;
      rule := rule.(faultedAddress := at.address);
      state := Faulted;
      count := count + 1;
    }

    method HookLifespanRepeatIP(at: Site)
      modifies this
      ensures View() == RepeatIPHook(e, old(View()), at)
    {
      hide Hooks.DoTheIPFault, Remove;
      if rule.instruction == count {
        return;
      }
      rule := rule.(lifespan := rule.lifespan.(live := Dec(rule.lifespan.live)));
      DoTheIPFault(at);
      if control.Aborted? {
        return;
      }
      trail := trail.(drift := trail.drift + 1);
      if rule.lifespan.live == 0 {
        HookDel(RepeatIP);
      }
    }

    method HookCodeFaultItIP(at: Site)
      modifies this
      ensures View() == FaultIPHook(e, old(View()), at)
    {
      hide Hooks.DoTheIPFault, AddEquivalent, RemoveIfSet, Fire, Install, StartLifespan;
      if !inRange || state.Faulted? || rule.instruction != count {
        return;
      }
      DoTheIPFault(at);
      if control.Aborted? {
        return;
      }
      Log(at);
      AddEquivalentHook();
      if rule.lifespan.count != 0 {
        var mode := rule.lifespan.mode;
        SetLiveCounter();
        if mode.Repeat? {
          HookAdd(RepeatIP, At({at.address}));
        }
      }
      HookDelIfSet(FaultItIP);
    }

    // ----- the emulator -----

    /** The callback of a hook. */
    method Callback(kind: HookKind, at: Site)
      modifies this
      ensures View() == Call(e, old(View()), at, kind)
    {
      hide AtEndAddress, AtStartAddress, AtSkip, AtStartFaults, AtStopFaults, AtHardStop, RecordLine, Count,
           FaultAddressHook, FaultRegisterHook, FaultInstructionHook, FaultIPHook, RevertRegisterHook,
           RepeatRegisterHook, RevertInstructionHook, RepeatInstructionHook, RepeatIPHook, CheckEquivalent;
      match kind {
        case OnInterrupt =>
        case OnMemoryInvalid =>
        case OnInstructionInvalid =>
        case OnEndAddress => HookCodeEndAddress();
        case OnStartAddress => HookCodeStartAddress();
        case OnSkip => HookCodeSkips(at);
        case OnStartFaults => HookCodeStartFaults();
        case OnStopFaults => HookCodeStopFaults();
        case OnHardStop => HookCodeHardStop();
        case Placebo =>
        case Stats => HookCodeStats(at);
        case CountInstructions => HookCountInstructions();
        case FaultItAddress => HookCodeFaultItAddress(at);
        case FaultItRegister => HookCodeFaultItRegister(at);
        case FaultItInstruction => HookCodeFaultItInstruction(at);
        case FaultItIP => HookCodeFaultItIP(at);
        case RevertRegister => HookLifespanRevertRegister(at);
        case RepeatRegister => HookLifespanRepeatRegister(at);
        case RevertInstruction => HookLifespanRevertInstruction(at);
        case RepeatInstruction => HookLifespanRepeatInstruction(at);
        case RepeatIP => HookLifespanRepeatIP(at);
        case Equivalent => HookCodeEquivalent();
      }
    }

    /** The emulator calls the hooks that cover an instruction, including those they register. */
    method CallHooks(at: Site)
      modifies this
      ensures View() == Dispatch(e, old(View()), at, 0)
    {
      hide Call, Pending, Visit;
      var i := 0;
      ghost var r := View();
      while i < |hooks| && control.Going?
        invariant i <= |hooks|
        invariant Dispatch(e, View(), at, i) == Dispatch(e, r, at, 0)
        decreases Pending(View().hooks, i)
      {
        ghost var was := View();
        VisitDecreases(e, was, at, i);
        VisitIs(e, was, at, i);
        if hooks[i].deletions == 0 && Covers(hooks[i].where, at.address) {
          Callback(hooks[i].kind, at);
        }
        assert View() == Visit(e, was, at, i);
        DispatchNext(e, was, at, i);
        i := i + 1;
      }
    }

    /** The instruction after its hooks: executed, or not. */
    method Execute()
      modifies this
      ensures View() == Finish(e, old(View()))
    {
      match control {
        case Aborted => phase := Ended;
        case StopRequested => phase := Stopped;
        case Skipped => control := Going;
        case PcWritten =>
          PassOne();
          control := Going;
        case Going =>
          PassOne();
          match e.p.exec(cpu) {
            case Next(c) => cpu := c;
            case Leave(c) =>
              cpu := c;
              phase := Stopped;
            case Trap(c, why) =>
              cpu := c;
              phase := Stopped;
              state := if why.ErrorTrap? then Errored else Interrupted;
          }
      }
    }

    ghost method PassOne()
      modifies this`trail
      ensures View() == Pass(old(View()))
    {
      if inRange {
        trail := trail.(passed := trail.passed + 1);
      }
    }

    /** uc_emu_start: one segment, if the emulator comes back. */
    method UcEmuStart() returns (ghost m: nat)
      requires exists k: nat :: !Steps(e, View(), k).phase.Running?
      modifies this
      ensures View() == Steps(e, old(View()), m) && !phase.Running?
      ensures forall k: nat :: k < m ==> Steps(e, old(View()), k).phase.Running?
    {
      hide Dispatch, Finish, AfterSegment;
      m := 0;
      ghost var r := View();
      ghost var last: nat :| !Steps(e, r, last).phase.Running?;
      while phase.Running?
        invariant m <= last && View() == Steps(e, r, m)
        invariant forall k: nat :: k < m ==> Steps(e, r, k).phase.Running?
        decreases last - m
      {
        ghost var was := View();
        CallHooks(SiteOf(e.p, cpu));
        Execute();
        assert View() == Step(e, was);
        m := m + 1;
      }
    }

    /** my_uc_engine_start: the first segment, then the restart loop, then the final correction of the
        count.  If each segment ends, the loop does. */
    method MyUcEngineStart()
      requires phase.Running? && Waits(View()) && SegmentsEnd(e, View())
      modifies this
      ensures phase.Ended? && View() == Outcome(e, old(View()))
      ensures exists n: nat :: View() == Steps(e, old(View()), n)
    {
      hide Step, AfterSegment, SegmentsEnd, IsWithin, Outcome, Waits;
      ghost var r, budget := View(), trail.restarts + ToCome(View());
      IsWithinItsOwn(r);
      SegmentEnds(e, r, r, 0);
      ghost var m := UcEmuStart();
      StepsAreWithin(e, r, budget, 0, m);
      while phase.Stopped? && restart && !state.Errored?
        invariant View() == Steps(e, r, m) && !phase.Running? && IsWithin(View(), budget)
        decreases budget - trail.restarts
      {
        ghost var was := View();
        StartAgain();
        StepIsWithin(e, was, budget);
        BudgetIsKept(View(), budget);
        SegmentEnds(e, r, View(), m + 1);
        ghost var more := UcEmuStart();
        StepsAreWithin(e, Step(e, was), budget, 0, more);
        StepsAdd(e, r, m + 1, more);
        m := m + 1 + more;
        BudgetIsKept(View(), budget);
      }
      if phase.Stopped? {
        CorrectCount();
        m := m + 1;
      }
      OutcomeIs(e, r, m);
    }

    method StartAgain()
      requires phase.Stopped? && restart && !state.Errored?
      modifies this
      ensures View() == Step(e, old(View())) && phase.Running?
    {
      Restarts(e, View());
      hide Step, WritePc;
      restart := false;
      control := Going;
      phase := Running;
      cpu := WritePc(e.p, cpu, restartAddress);
      trail := trail.(restarts := trail.restarts + 1);
    }

    /** The count has gone one too far when the run ends. */
    method CorrectCount()
      requires phase.Stopped? && !(restart && !state.Errored?)
      modifies this
      ensures View() == Step(e, old(View())) && phase.Ended?
    {
      Ends(e, View());
      hide Step;
      phase := Ended;
      if count != 0 {
        count := count - 1;
      }
    }

    // ----- a whole fault run -----

    /** current_run_state_setup and current_run_state_init */
    constructor (e: Env, lines: seq<Line>, rule: FaultRule)
      ensures this.e == e && this.lines == lines && this.rule == rule && classes == []
      ensures hk == NO_HANDLES && !restart && state.NoneRs? && count == 0 && !inRange
    {
      this.e, this.lines, this.rule, classes := e, lines, rule, [];
      cpu, hooks, control, phase := e.p.image, [], Going, Ended;
      hk, count, inRange, state, restart, restartAddress := NO_HANDLES, 0, false, NoneRs, false, 0;
      trail := Trail(0, 0, 0, [], []);
    }

    method HookAddThree(a: HookKind, wa: Where, b: HookKind, wb: Where, c: HookKind, wc: Where)
      modifies this`hooks, this`hk
      ensures View() == InstallThree(old(View()), a, wa, b, wb, c, wc)
    {
      hide Install;
      HookAdd(a, wa);
      HookAdd(b, wb);
      HookAdd(c, wc);
    }

    /** uc_engine_open_and_mem_map, with the program loaded. */
    method OpenEngine()
      modifies this
      ensures View() == NewEngine(e, old(View()))
    {
      cpu, hooks, control, phase := e.p.image, [], Going, Running;
      trail := Trail(0, 0, 0, [], []);
    }

    /** my_uc_engine_setup, on a new engine. */
    method MyUcEngineSetup()
      modifies this
      ensures View() == SetupInstalled(e, NewEngine(e, old(View())))
    {
      hide InstallThree, NewEngine;
      OpenEngine();
      HookAddThree(OnInterrupt, Nowhere, OnMemoryInvalid, Nowhere, OnInstructionInvalid, Nowhere);
      HookAddThree(OnEndAddress, At({e.p.codeEnd}), OnStartAddress, At({ThumbCheck(e.p, e.p.codeStart)}),
                   OnSkip, At(e.p.skips.Keys));
      HookAddThree(OnStartFaults, At({e.p.faultStart}), OnStopFaults, At({e.p.faultEnd}), OnHardStop,
                   At(e.p.hardStops));
    }

    /** current_run_state_reset */
    method Reset()
      modifies this
      ensures View() == old(View()).(count := 0, inRange := false, state := NoneRs)
    {
      count, inRange, state := 0, false, NoneRs;
    }

    /** uc_delete_all_hooks */
    method UcDeleteAllHooks()
      modifies this
      ensures View() == DeleteHooks(old(View()), DELETION_ORDER)
    {
      var order := DELETION_ORDER;
      hide RemoveIfSet, DeleteHooks, DELETION_ORDER;
      var i := 0;
      ghost var r := View();
      assert order[0..] == order;
      while i < |order|
        invariant i <= |order|
        invariant DeleteHooks(View(), order[i..]) == DeleteHooks(r, order)
      {
        DeletesNext(View(), order, i);
        HookDelIfSet(order[i]);
        i := i + 1;
      }
      DeletesNone(View(), order[i..]);
    }

    /** get_on_with_it, if each segment of the emulator ends.  For a rule of a recorded line: its fault
        was made once, at its line; afterwards every hook was deleted once, no handle is in use, no restart
        is pending, and the line table is as it was. */
    method GetOnWithIt(faultRule: FaultRule, ghost trace: seq<Cpu>)
      requires IsClean(View()) && SegmentsEnd(e, SetUp(e, View(), faultRule, classes))
      modifies this
      ensures View() == Close(Outcome(e, SetUp(e, old(View()), faultRule, old(classes))))
      ensures Outcome(e, SetUp(e, old(View()), faultRule, old(classes))).phase.Ended?
      ensures CanRun(e, trace, faultRule, old(lines)) && !control.Aborted? ==>
                IsCompleted(e, trace, faultRule, old(lines), View())
    {
      ghost var left := View();
      SetUpWaits(e, left, faultRule, classes);
      PrepareRun(faultRule);
      hide Steps, SetUp, DeleteHooks, Remove, CanRun, IsCompleted, Outcome, SegmentsEnd, Waits, IsClean;
      MyUcEngineStart();
      ghost var r := View();
      HookDel(Placebo);
      UcDeleteAllHooks();
      if CanRun(e, trace, faultRule, left.lines) && !control.Aborted? {
        ClosedControl(r);
        CompletedRun(e, left, trace, faultRule, left.classes);
      }
    }

    method PrepareRun(faultRule: FaultRule)
      modifies this
      ensures View() == SetUp(e, old(View()), faultRule, old(classes)) && phase.Running?
    {
      SetUpIs(e, View(), faultRule, classes);
      hide SetUp, SetupInstalled, Install;
      rule := faultRule;
      MyUcEngineSetup();
      Reset();
      HookAdd(if e.mode.StatsMode? then Stats else Placebo, Everywhere);
      cpu := WritePc(e.p, e.p.image, e.p.codeStart);
    }
  }

  lemma {:induction false} ClosedControl(r: Run)
    ensures DeleteHooks(Remove(r, Placebo), DELETION_ORDER).control == r.control
  {
    hide DELETION_ORDER, SetHandle, HandleOf;
    DeletesKeepControl(Remove(r, Placebo), DELETION_ORDER);
  }

  lemma {:induction false} DeletesKeepControl(r: Run, kinds: seq<HookKind>)
    ensures DeleteHooks(r, kinds).control == r.control
    decreases |kinds|
  {
    hide SetHandle, HandleOf;
    if kinds != [] {
      DeletesKeepControl(RemoveIfSet(r, kinds[0]), kinds[1..]);
    }
  }

  lemma {:induction false} DeletesNext(r: Run, kinds: seq<HookKind>, i: nat)
    requires i < |kinds|
    ensures DeleteHooks(r, kinds[i..]) == DeleteHooks(RemoveIfSet(r, kinds[i]), kinds[i + 1..])
  {
    hide RemoveIfSet;
    assert kinds[i..][1..] == kinds[i + 1..];
  }

  lemma {:induction false} DeletesNone(r: Run, kinds: seq<HookKind>)
    requires kinds == []
    ensures DeleteHooks(r, kinds) == r
  {
  }

  lemma {:induction false} SetUpIs(e: Env, left: Run, rule: FaultRule, classes: seq<Class<FaultRule>>)
    ensures var r := NewEngine(e, left.(rule := rule, classes := classes));
            SetUp(e, left, rule, classes)
              == Install(SetupInstalled(e, r).(count := 0, inRange := false, state := NoneRs),
                         if e.mode.StatsMode? then Stats else Placebo, Everywhere)
                 .(cpu := WritePc(e.p, e.p.image, e.p.codeStart))
    ensures SetUp(e, left, rule, classes).phase.Running?
  {
    InstallsKeepPhase();
    hide Install;
  }

  lemma {:induction false} InstallsKeepPhase()
    ensures forall r: Run, kind, where :: Install(r, kind, where).phase == r.phase
  {
    hide SetHandle;
  }

  lemma {:induction false} AddsOnlyAHook(e: Env, r: Run, a: nat)
    ensures AddFaultHook(e, r, a) == r.(hooks := AddFaultHook(e, r, a).hooks, hk := AddFaultHook(e, r, a).hk)
  {
    hide SetHandle;
  }

  lemma {:induction false} AddLifespanIs(r: Run, revert: HookKind, repeat_: HookKind, where: Where)
    ensures AddLifespan(r, revert, repeat_, where)
         == if r.rule.lifespan.count == 0 then r
            else if r.rule.lifespan.mode.Revert? then Install(StartLifespan(r), revert, Everywhere)
            else if r.rule.lifespan.mode.Repeat? then Install(StartLifespan(r), repeat_, where)
            else StartLifespan(r)
  {
    hide Install;
  }

  lemma {:induction false} VisitIs(e: Env, r: Run, at: Site, i: nat)
    requires i < |r.hooks|
    ensures Visit(e, r, at, i) == if r.hooks[i].deletions == 0 && Covers(r.hooks[i].where, at.address)
                                  then Call(e, r, at, r.hooks[i].kind) else r
  {
    hide Call;
  }

  lemma {:induction false} DispatchNext(e: Env, r: Run, at: Site, i: nat)
    requires i < |r.hooks| && r.control.Going?
    ensures |Visit(e, r, at, i).hooks| > i
    ensures Dispatch(e, r, at, i) == Dispatch(e, Visit(e, r, at, i), at, i + 1)
  {
    OneVisit(e, r, at, i);
  }

  lemma {:induction false} Restarts(e: Env, r: Run)
    requires r.phase.Stopped? && r.restart && !r.state.Errored?
    ensures Step(e, r) == r.(restart := false, control := Going, phase := Running,
                             cpu := WritePc(e.p, r.cpu, r.restartAddress),
                             trail := r.trail.(restarts := r.trail.restarts + 1))
  {
    hide WritePc;
  }

  lemma {:induction false} Ends(e: Env, r: Run)
    requires r.phase.Stopped? && !(r.restart && !r.state.Errored?)
    ensures Step(e, r) == r.(phase := Ended, count := if r.count != 0 then r.count - 1 else 0)
  {
  }

  lemma {:induction false} IsWithinItsOwn(r: Run)
    requires r.phase.Running? && Waits(r)
    ensures IsWithin(r, r.trail.restarts + ToCome(r))
  {
  }

  lemma {:induction false} SegmentEnds(e: Env, r: Run, s: Run, m: nat)
    requires SegmentsEnd(e, r) && s == Steps(e, r, m)
    ensures exists k: nat :: !Steps(e, s, k).phase.Running?
  {
    hide Step;
    if s.phase.Running? {
      var k: nat :| k > m && !Steps(e, r, k).phase.Running?;
      StepsAdd(e, r, m, k - m);
      assert !Steps(e, s, k - m).phase.Running?;
    } else {
      assert !Steps(e, s, 0).phase.Running?;
    }
  }

  lemma {:induction false} SetUpWaits(e: Env, left: Run, rule: FaultRule, classes: seq<Class<FaultRule>>)
    requires IsClean(left)
    ensures Waits(SetUp(e, left, rule, classes))
  {
    hide SetUp, WritePc;
    SetUpIsLaunched(e, left, rule, classes);
  }

}

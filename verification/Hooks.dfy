/** What each hook callback does to a run, and how the emulator dispatches them.

    The emulator's contract: the code hooks that cover an instruction are called before it, in the
    order they were registered; a hook registered during a dispatch is visited in that dispatch; a
    deleted hook is not called; a stop request ends the dispatch and the segment, without executing
    the instruction; writing the program counter ends the dispatch, and execution goes on there. */
module Hooks {
  import opened Utils
  import opened Machine
  import opened Equivalence

  /** The instruction being dispatched. */
  datatype Site = Site(address: nat, size: nat)

  function SetHandle(hk: Handles, kind: HookKind, h: nat): Handles {
    match kind
    case OnInterrupt => hk.(interrupt := h)
    case OnMemoryInvalid => hk.(memoryInvalid := h)
    case OnInstructionInvalid => hk.(instructionInvalid := h)
    case OnEndAddress => hk.(endAddress := h)
    case OnStartAddress => hk.(startAddress := h)
    case OnSkip => hk.(skips := h)
    case OnStartFaults => hk.(startFaults := h)
    case OnStopFaults => hk.(stopFaults := h)
    case OnHardStop => hk.(hardStops := h)
    case Placebo => hk.(caller := h)
    case Stats => hk.(caller := h)
    case CountInstructions => hk.(countInstructions := h)
    case FaultItAddress => hk.(faultAddress := h)
    case FaultItRegister => hk.(faultIt := h)
    case FaultItInstruction => hk.(faultIt := h)
    case FaultItIP => hk.(faultIt := h)
    case RevertRegister => hk.(lifespan := h)
    case RepeatRegister => hk.(lifespan := h)
    case RevertInstruction => hk.(lifespan := h)
    case RepeatInstruction => hk.(lifespan := h)
    case RepeatIP => hk.(lifespan := h)
    case Equivalent => hk.(equivalent := h)
  }

  /** my_uc_hook_add: the new hook's handle goes into its field. */
  function Install(r: Run, kind: HookKind, where: Where): Run {
    r.(hooks := r.hooks + [Hook(kind, where, 0)], hk := SetHandle(r.hk, kind, |r.hooks| + 1))
  }

  /** my_uc_hook_del on the field of this kind of hook, which is then set to 0. */
  function Remove(r: Run, kind: HookKind): Run {
    var h := HandleOf(r.hk, kind);
    var hooks := if 0 < h <= |r.hooks|
                 then r.hooks[h - 1 := r.hooks[h - 1].(deletions := r.hooks[h - 1].deletions + 1)]
                 else r.hooks;
    r.(hooks := hooks, hk := SetHandle(r.hk, kind, 0))
  }

  function RemoveIfSet(r: Run, kind: HookKind): Run {
    if HandleOf(r.hk, kind) != 0 then Remove(r, kind) else r
  }

  function Stop(r: Run): Run {
    r.(control := StopRequested)
  }

  function Abort(r: Run): Run {
    r.(control := Aborted)
  }

  /** Stop here and have the restart loop resume at the address. */
  function RestartAt(r: Run, a: nat): Run {
    Stop(r.(restart := true, restartAddress := a))
  }

  function LineAt(lines: seq<Line>, i: nat): Line {
    if i < |lines| then lines[i] else BLANK_LINE
  }

  // ----- checkpoints -----

  function Save(p: Program, c: Cpu): Snapshot {
    Snapshot(c.regs, c.thumb, ReadMem(c, p.stack.address, p.stack.size), ReadMem(c, p.main.address, p.main.size),
             seq(|p.others|, i requires 0 <= i < |p.others| => ReadMem(c, p.others[i].address, p.others[i].size)))
  }

  function LoadOthers(regions: seq<Region>, c: Cpu, saved: seq<Bytes>, i: nat): Cpu
    requires |saved| == |regions| && i <= |regions|
    decreases |regions| - i
  {
    if i == |regions| then c else LoadOthers(regions, WriteMem(c, regions[i].address, saved[i]), saved, i + 1)
  }

  function Load(p: Program, c: Cpu, s: Snapshot): Cpu {
    var c1 := c.(regs := s.regs, thumb := s.thumb);
    var c2 := WriteMem(c1, p.stack.address, s.stack);
    var c3 := WriteMem(c2, p.main.address, s.main);
    if |s.others| == |p.others| then LoadOthers(p.others, c3, s.others, 0) else c3
  }

  /** uc_restore_from_checkpoint. */
  function RestoreFromCheckpoint(e: Env, r: Run, instr: nat): Run {
    var number := LineAt(r.lines, instr).nearest;
    var line := LineAt(r.lines, number);
    if line.snapshot.None? || !line.checkpoint then Abort(r)
    else
      var r1 := r.(cpu := Load(e.p, r.cpu, line.snapshot.value));
      var r2 := if r1.hk.countInstructions == 0 then Install(r1, CountInstructions, Everywhere) else r1;
      RestartAt(r2.(count := number, inRange := true, state := StartedFromCheckpoint,
                    trail := r2.trail.(passed := if number > 0 then number - 1 else 0)),
                line.address)
  }

  // ----- equivalence -----

  function RegionHashes(p: Program, c: Cpu, i: nat): (hashes: seq<nat>)
    requires i <= |p.others|
    ensures |hashes| == |p.others| - i
    decreases |p.others| - i
  {
    if i == |p.others| then []
    else [p.hashBytes(ReadMem(c, p.others[i].address, p.others[i].size))] + RegionHashes(p, c, i + 1)
  }

  /** make_hash.  The last 256 bytes of the stack region are left out. */
  function StateHashes(p: Program, c: Cpu): seq<nat> {
    [p.hashContext(c.regs, c.thumb), p.hashBytes(ReadMem(c, p.main.address, p.main.size)),
     p.hashBytes(ReadMem(c, p.stack.address, if p.stack.size < 256 then 0 else p.stack.size - 256))]
    + RegionHashes(p, c, 0)
  }

  function RecordState(e: Env, r: Run): Run {
    r.(classes := Record(r.classes, StateHashes(e.p, r.cpu), r.rule))
  }

  predicate IsEquivalent(e: Env, r: Run) {
    Known(r.classes, StateHashes(e.p, r.cpu))
  }

  function CheckEquivalent(e: Env, r: Run): Run {
    var r1 := RecordState(e, r);
    if IsEquivalent(e, r) then Stop(r1.(state := EquivalentRs)) else Remove(r1, Equivalent)
  }

  // ----- hooks of every run -----

  function AtEndAddress(r: Run): Run {
    Stop(RemoveIfSet(
           r.(state := if r.state.Faulted? then EndAddressAndFaulted
                       else if r.state.EquivalentRs? then EquivalentRs
                       else EndAddress), CountInstructions))
  }

  function AddFaultHook(e: Env, r: Run, a: nat): Run {
    var where := At({ThumbCheck(e.p, a)});
    match r.rule.target
    case Register => Install(r, FaultItAddress, where)
    case Instruction => Install(r, FaultItInstruction, where)
    case InstructionPointer => Install(r, FaultItIP, where)
  }

  predicate RestoresCheckpoint(e: Env, rule: FaultRule, lines: seq<Line>) {
    e.mode.FaultMode? && e.fromCheckpoint && rule.isSet && LineAt(lines, rule.instruction).nearest != NO_CHECKPOINT
  }

  function AtStartAddress(e: Env, r: Run): Run {
    if !r.state.NoneRs? then r
    else
      var r1 := if r.rule.isSet then AddFaultHook(e, r, LineAt(r.lines, r.rule.instruction).address) else r;
      if RestoresCheckpoint(e, r.rule, r.lines) then RestoreFromCheckpoint(e, r1, r.rule.instruction) else r1
  }

  function AtSkip(e: Env, r: Run, at: Site): Run {
    var size := if at.address in e.p.skips && e.p.skips[at.address] != 0 then e.p.skips[at.address] else at.size;
    var target := at.address + size + if e.p.thumbMode then 1 else 0;
    r.(cpu := WritePc(e.p, r.cpu, target), control := Skipped)
  }

  function AtStartFaults(r: Run): Run {
    var r1 := r.(inRange := true, count := if r.count == 0 then 1 else r.count);
    if r1.hk.countInstructions == 0 then Install(r1, CountInstructions, Everywhere) else r1
  }

  function AtStopFaults(r: Run): Run {
    r.(inRange := false)
  }

  function AtHardStop(e: Env, r: Run): Run {
    if !e.mode.FaultMode? then r
    else Stop(RemoveIfSet(r.(state := HardStopped), CountInstructions))
  }

  function Count(r: Run): Run {
    if r.inRange then r.(count := r.count + 1) else r
  }

  /** A line's details, and its snapshot if it is flagged. */
  function RecordedLine(e: Env, line: Line, c: Cpu, at: Site): Line {
    var here := line.(address := ThumbAddress(e.p, at.address), size := at.size);
    if e.fromCheckpoint && line.checkpoint then here.(snapshot := Some(Save(e.p, c))) else here
  }

  /** hook_code_stats.  An index outside the array is undefined behaviour in the source. */
  function RecordLine(e: Env, r: Run, at: Site): Run {
    if !r.inRange || r.count >= |r.lines| then r
    else r.(lines := r.lines[r.count := RecordedLine(e, r.lines[r.count], r.cpu, at)])
  }

  // ----- primary faults -----

  predicate IsTheLine(r: Run) {
    r.inRange && !r.state.Faulted? && r.rule.instruction == r.count
  }

  function Fire(r: Run, at: Site): Run {
    r.(trail := r.trail.(fired := r.trail.fired + [Firing(r.trail.passed + 1, at.address)]))
  }

  function StartLifespan(r: Run): Run {
    r.(rule := r.rule.(lifespan := r.rule.lifespan.(live := r.rule.lifespan.count)))
  }

  /** Adds the lifespan hook a rule asks for. */
  function AddLifespan(r: Run, revert: HookKind, repeat_: HookKind, where: Where): Run {
    if r.rule.lifespan.count == 0 then r
    else
      match r.rule.lifespan.mode
      case Revert => Install(StartLifespan(r), revert, Everywhere)
      case Repeat => Install(StartLifespan(r), repeat_, where)
      case NoMode => StartLifespan(r)
  }

  function WriteRegister(e: Env, r: Run, reg: nat, v: nat): Run {
    if reg == e.p.pcReg then r.(cpu := WritePc(e.p, r.cpu, v), control := PcWritten)
    else r.(cpu := r.cpu.(regs := r.cpu.regs[reg := v]))
  }

  function DoTheRegisterFault(e: Env, r: Run, at: Site): Run {
    var original := ReadReg(r.cpu, r.rule.number);
    match FaultReg(r.rule.mask, r.rule.operation, original, at.size)
    case None => Abort(r)
    case Some(v) =>
      WriteRegister(e, r.(rule := r.rule.(lifespan := r.rule.lifespan.(originalValue := original))), r.rule.number, v)
  }

  /** hook_code_fault_it_address: the register fault itself is left to a hook for all addresses,
      which is visited later in the same dispatch. */
  function FaultAddressHook(r: Run, at: Site): Run {
    if !IsTheLine(r) then r
    else RemoveIfSet(Install(r.(rule := r.rule.(faultedAddress := at.address)), FaultItRegister, Everywhere),
                     FaultItAddress)
  }

  function FaultRegisterHook(e: Env, r: Run, at: Site): Run {
    var r1 := DoTheRegisterFault(e, r, at);
    if r1.control.Aborted? then r1
    else
      var r2 := AddLifespan(Fire(r1, at), RevertRegister, RepeatRegister, Everywhere).(state := Faulted);
      if !e.stopOnEquivalence then RemoveIfSet(r2, FaultItRegister)
      else
        var r3 := RecordState(e, r2);
        if IsEquivalent(e, r2) then Stop(r3.(state := EquivalentRs)) else RemoveIfSet(r3, FaultItRegister)
  }

  function ToolWrites(e: Env, r: Run, a: nat, bytes: Bytes): Run {
    r.(cpu := WriteMem(r.cpu, a, bytes),
       trail := r.trail.(writes := r.trail.writes + [ToolWrite(r.trail.passed, a, bytes)]))
  }

  function DoTheInstructionFault(e: Env, r: Run, at: Site): Run {
    if !FaultsBytes(r.rule.operation) then Abort(r)
    else
      var original := ReadMem(r.cpu, at.address, at.size);
      var r1 := ToolWrites(e, r, ThumbCheck(e.p, at.address), FaultBytes(r.rule.mask, r.rule.operation, original));
      r1.(rule := r1.rule.(faultedAddress := at.address, lifespan := r1.rule.lifespan.(originalBytes := original)),
          state := Faulted)
  }

  function AddEquivalent(e: Env, r: Run): Run {
    if e.stopOnEquivalence then Install(r, Equivalent, Everywhere) else r
  }

  function FaultInstructionHook(e: Env, r: Run, at: Site): Run {
    if !IsTheLine(r) then r
    else
      var r1 := DoTheInstructionFault(e, r, at);
      if r1.control.Aborted? then r1
      else
        var r2 := AddLifespan(AddEquivalent(e, Fire(r1, at)), RevertInstruction, RepeatInstruction, At({at.address}));
        RemoveIfSet(RestartAt(r2, ThumbAddress(e.p, at.address)), FaultItInstruction)
  }

  /** do_the_IP_fault.  The dispatch ends here, so the count is advanced by hand. */
  function DoTheIPFault(e: Env, r: Run, at: Site): Run {
    if !r.rule.operation.Skip? then Abort(r)
    else
      r.(cpu := WritePc(e.p, r.cpu, Pc(e.p, r.cpu) + at.size + if IsArm(e.p) then 1 else 0), control := PcWritten,
         rule := r.rule.(faultedAddress := at.address), state := Faulted, count := r.count + 1)
  }

  /** A skip can be repeated, but not reverted. */
  function AddSkipLifespan(r: Run, at: Site): Run {
    if r.rule.lifespan.count == 0 then r
    else if r.rule.lifespan.mode.Repeat? then Install(StartLifespan(r), RepeatIP, At({at.address}))
    else StartLifespan(r)
  }

  function FaultIPHook(e: Env, r: Run, at: Site): Run {
    if !IsTheLine(r) then r
    else
      var r1 := DoTheIPFault(e, r, at);
      if r1.control.Aborted? then r1
      else RemoveIfSet(AddSkipLifespan(AddEquivalent(e, Fire(r1, at)), at), FaultItIP)
  }

  // ----- lifespans -----

  function CountDown(r: Run): Run {
    r.(rule := r.rule.(lifespan := r.rule.lifespan.(live := Dec(r.rule.lifespan.live))))
  }

  function RemoveIfSpent(r: Run, kind: HookKind): Run {
    if r.rule.lifespan.live == 0 then Remove(r, kind) else r
  }

  /** The register lifespans start after the faulted address. */
  predicate LifespanNotStarted(e: Env, r: Run, at: Site) {
    at.address == ThumbCheck(e.p, LineAt(r.lines, r.rule.instruction).address) &&
    r.rule.lifespan.count == r.rule.lifespan.live
  }

  function RevertRegisterHook(e: Env, r: Run, at: Site): Run {
    if LifespanNotStarted(e, r, at) then r
    else
      var r1 := CountDown(r);
      if r1.rule.lifespan.live != 0 then r1
      else Remove(WriteRegister(e, r1, r1.rule.number, r1.rule.lifespan.originalValue), RevertRegister)
  }

  function RepeatRegisterHook(e: Env, r: Run, at: Site): Run {
    if LifespanNotStarted(e, r, at) then r
    else
      var r1 := DoTheRegisterFault(e, CountDown(r), at);
      if r1.control.Aborted? then r1 else RemoveIfSpent(r1, RepeatRegister)
  }

  /** Step the count back, because the instruction is dispatched again.  That dispatch counts only
      inside the fault range: elsewhere the count is led astray. */
  function StepBack(r: Run): Run {
    r.(count := Dec(r.count), trail := r.trail.(drift := r.trail.drift - if r.inRange then 0 else 1))
  }

  function RevertInstructionHook(e: Env, r: Run, at: Site): Run {
    if r.count <= r.rule.instruction + 1 then r
    else
      var r1 := CountDown(r);
      if r1.rule.lifespan.live != 0 then r1
      else
        var site := ThumbCheck(e.p, LineAt(r.lines, r.rule.instruction).address);
        var r2 := Remove(ToolWrites(e, r1, site, r1.rule.lifespan.originalBytes), RevertInstruction);
        RemoveIfSet(RestartAt(StepBack(r2), ThumbAddress(e.p, at.address)), FaultItInstruction)
  }

  function RepeatInstructionHook(e: Env, r: Run, at: Site): Run {
    if r.count <= r.rule.instruction + 1 then r
    else
      var r1 := DoTheInstructionFault(e, r, at);
      if r1.control.Aborted? then r1
      else
        var r2 := RemoveIfSpent(CountDown(r1), RepeatInstruction);
        RestartAt(StepBack(r2), if IsArm(e.p) && at.size == 2 then at.address + 1 else at.address)
  }

  function RepeatIPHook(e: Env, r: Run, at: Site): Run {
    if r.rule.instruction == r.count then r
    else
      var r1 := DoTheIPFault(e, CountDown(r), at);
      if r1.control.Aborted? then r1
      else RemoveIfSpent(r1.(trail := r1.trail.(drift := r1.trail.drift + 1)), RepeatIP)
  }

  // ----- dispatch -----

  function Call(e: Env, r: Run, at: Site, kind: HookKind): Run {
    match kind
    case OnInterrupt => r
    case OnMemoryInvalid => r
    case OnInstructionInvalid => r
    case OnEndAddress => AtEndAddress(r)
    case OnStartAddress => AtStartAddress(e, r)
    case OnSkip => AtSkip(e, r, at)
    case OnStartFaults => AtStartFaults(r)
    case OnStopFaults => AtStopFaults(r)
    case OnHardStop => AtHardStop(e, r)
    case Placebo => r
    case Stats => RecordLine(e, r, at)
    case CountInstructions => Count(r)
    case FaultItAddress => FaultAddressHook(r, at)
    case FaultItRegister => FaultRegisterHook(e, r, at)
    case FaultItInstruction => FaultInstructionHook(e, r, at)
    case FaultItIP => FaultIPHook(e, r, at)
    case RevertRegister => RevertRegisterHook(e, r, at)
    case RepeatRegister => RepeatRegisterHook(e, r, at)
    case RevertInstruction => RevertInstructionHook(e, r, at)
    case RepeatInstruction => RepeatInstructionHook(e, r, at)
    case RepeatIP => RepeatIPHook(e, r, at)
    case Equivalent => CheckEquivalent(e, r)
  }

  predicate IsCalled(r: Run, at: Site, i: nat)
    requires i < |r.hooks|
  {
    r.hooks[i].deletions == 0 && Covers(r.hooks[i].where, at.address)
  }

  function Visit(e: Env, r: Run, at: Site, i: nat): Run
    requires i < |r.hooks|
  {
    if IsCalled(r, at, i) then Call(e, r, at, r.hooks[i].kind) else r
  }

  /** More than a visit to a hook of this kind, and to those it registers, can take.  No callback
      registers a hook of weight 6. */
  function Weight(kind: HookKind): nat {
    match kind
    case OnStartAddress => 6
    case Stats => 6
    case OnStartFaults => 2
    case FaultItAddress => 4
    case FaultItRegister => 2
    case FaultItInstruction => 4
    case FaultItIP => 4
    case _ => 1
  }

  /** The weight of the hooks from position i on. */
  function Pending(hooks: seq<Hook>, i: nat): nat
    requires i <= |hooks|
    decreases |hooks| - i
  {
    if i == |hooks| then 0 else Weight(hooks[i].kind) + Pending(hooks, i + 1)
  }

  /** Hooks are only appended and marked deleted. */
  ghost predicate Extends(before: seq<Hook>, after: seq<Hook>) {
    |before| <= |after| &&
    forall j :: 0 <= j < |before| ==> before[j].kind == after[j].kind && before[j].where == after[j].where
  }

  lemma {:induction false} PendingAppends(before: seq<Hook>, after: seq<Hook>, i: nat)
    requires i <= |before| && Extends(before, after)
    ensures Pending(after, i) == Pending(before, i) + Pending(after, |before|)
    decreases |before| - i
  {
    if i < |before| {
      PendingAppends(before, after, i + 1);
    }
  }

  /** Hooks of at most this weight were registered. */
  ghost predicate Grows(before: seq<Hook>, after: seq<Hook>, weight: nat) {
    Extends(before, after) && Pending(after, |before|) <= weight
  }

  lemma {:induction false} GrowsTwice(a: seq<Hook>, b: seq<Hook>, c: seq<Hook>, weight1: nat, weight2: nat, weight: nat)
    requires Grows(a, b, weight1) && Grows(b, c, weight2) && weight1 + weight2 <= weight
    ensures Grows(a, c, weight)
  {
    PendingAppends(b, c, |a|);
  }

  lemma {:induction false} GrowthLaws()
    ensures forall r: Run :: Grows(r.hooks, r.hooks, 0)
    ensures forall r: Run, kind :: Grows(r.hooks, Remove(r, kind).hooks, 0)
    ensures forall r: Run, kind, where :: Grows(r.hooks, Install(r, kind, where).hooks, Weight(kind))
  {
    forall r: Run, kind, where
      ensures Grows(r.hooks, Install(r, kind, where).hooks, Weight(kind))
    {
      assert Pending(Install(r, kind, where).hooks, |r.hooks| + 1) == 0;
    }
  }

  lemma {:induction false} CheckpointGrows(e: Env, r: Run, instr: nat)
    ensures Grows(r.hooks, RestoreFromCheckpoint(e, r, instr).hooks, 1)
  {
    hide Install, Remove, Extends, Pending, Load;
    GrowthLaws();
  }

  lemma {:induction false} StartGrows(e: Env, r: Run)
    ensures Grows(r.hooks, AtStartAddress(e, r).hooks, 5)
  {
    hide Install, Remove, Extends, Pending, RestoreFromCheckpoint;
    GrowthLaws();
    var r1 := if r.rule.isSet then AddFaultHook(e, r, LineAt(r.lines, r.rule.instruction).address) else r;
    var r2 := RestoreFromCheckpoint(e, r1, r.rule.instruction);
    CheckpointGrows(e, r1, r.rule.instruction);
    GrowsTwice(r.hooks, r1.hooks, r2.hooks, 4, 1, 5);
  }

  lemma {:induction false} AddLifespanGrows(r: Run, revert: HookKind, repeat_: HookKind, where: Where)
    requires Weight(revert) == Weight(repeat_) == 1
    ensures Grows(r.hooks, AddLifespan(r, revert, repeat_, where).hooks, 1)
  {
    hide Install, Remove, Extends, Pending, Weight;
    GrowthLaws();
    var s := StartLifespan(r);
    assert s.hooks == r.hooks && Grows(s.hooks, s.hooks, 0);
    assert Grows(s.hooks, Install(s, revert, Everywhere).hooks, 1);
    assert Grows(s.hooks, Install(s, repeat_, where).hooks, 1);
  }

  lemma {:induction false} AddressFaultGrows(r: Run, at: Site)
    ensures Grows(r.hooks, FaultAddressHook(r, at).hooks, 3)
  {
    hide Install, Remove, Extends, Pending;
    GrowthLaws();
    var r1 := Install(r.(rule := r.rule.(faultedAddress := at.address)), FaultItRegister, Everywhere);
    GrowsTwice(r.hooks, r1.hooks, RemoveIfSet(r1, FaultItAddress).hooks, 2, 0, 3);
  }

  lemma {:induction false} RegisterFaultGrows(e: Env, r: Run, at: Site)
    ensures Grows(r.hooks, FaultRegisterHook(e, r, at).hooks, 1)
  {
    hide Install, Remove, Extends, Pending, AddLifespan, StateHashes;
    GrowthLaws();
    var r1 := Fire(DoTheRegisterFault(e, r, at), at);
    assert r1.hooks == r.hooks;
    AddLifespanGrows(r1, RevertRegister, RepeatRegister, Everywhere);
    var r2 := AddLifespan(r1, RevertRegister, RepeatRegister, Everywhere).(state := Faulted);
    GrowsTwice(r.hooks, r2.hooks, RemoveIfSet(r2, FaultItRegister).hooks, 1, 0, 1);
    GrowsTwice(r.hooks, r2.hooks, RemoveIfSet(RecordState(e, r2), FaultItRegister).hooks, 1, 0, 1);
  }

  lemma {:induction false} InstructionFaultGrows(e: Env, r: Run, at: Site)
    ensures Grows(r.hooks, FaultInstructionHook(e, r, at).hooks, 3)
  {
    hide Install, Remove, Extends, Pending, AddLifespan, WriteMem;
    GrowthLaws();
    var r1 := Fire(DoTheInstructionFault(e, r, at), at);
    assert r1.hooks == r.hooks;
    var r2 := AddEquivalent(e, r1);
    var r3 := AddLifespan(r2, RevertInstruction, RepeatInstruction, At({at.address}));
    AddLifespanGrows(r2, RevertInstruction, RepeatInstruction, At({at.address}));
    GrowsTwice(r.hooks, r2.hooks, r3.hooks, 1, 1, 2);
    var r4 := RestartAt(r3, ThumbAddress(e.p, at.address));
    GrowsTwice(r.hooks, r4.hooks, RemoveIfSet(r4, FaultItInstruction).hooks, 2, 0, 3);
  }

  lemma {:induction false} IPFaultGrows(e: Env, r: Run, at: Site)
    ensures Grows(r.hooks, FaultIPHook(e, r, at).hooks, 3)
  {
    hide Install, Remove, Extends, Pending, WritePc;
    GrowthLaws();
    var r1 := Fire(DoTheIPFault(e, r, at), at);
    assert r1.hooks == r.hooks;
    var r2 := AddEquivalent(e, r1);
    var r3 := AddSkipLifespan(r2, at);
    GrowsTwice(r.hooks, r2.hooks, r3.hooks, 1, 1, 2);
    GrowsTwice(r.hooks, r3.hooks, RemoveIfSet(r3, FaultItIP).hooks, 2, 0, 3);
  }

  lemma {:induction false} RevertInstructionGrows(e: Env, r: Run, at: Site)
    ensures Grows(r.hooks, RevertInstructionHook(e, r, at).hooks, 0)
  {
    hide Install, Remove, Extends, Pending, WriteMem;
    GrowthLaws();
    var r1 := ToolWrites(e, CountDown(r), ThumbCheck(e.p, LineAt(r.lines, r.rule.instruction).address),
                         r.rule.lifespan.originalBytes);
    var r2 := StepBack(Remove(r1, RevertInstruction));
    var r3 := RestartAt(r2, ThumbAddress(e.p, at.address));
    GrowsTwice(r.hooks, r2.hooks, RemoveIfSet(r3, FaultItInstruction).hooks, 0, 0, 0);
  }

  /** A callback registers hooks that weigh less than its own. */
  lemma {:induction false} CallGrows(e: Env, r: Run, at: Site, kind: HookKind)
    ensures Grows(r.hooks, Call(e, r, at, kind).hooks, Weight(kind) - 1)
  {
    hide Install, Remove, Extends, Pending, WriteMem, WritePc, StateHashes, Save, FaultReg,
         AtStartAddress, FaultAddressHook, FaultRegisterHook, FaultInstructionHook, FaultIPHook, RevertInstructionHook;
    GrowthLaws();
    match kind
    case OnStartAddress => StartGrows(e, r);
    case FaultItAddress => AddressFaultGrows(r, at);
    case FaultItRegister => RegisterFaultGrows(e, r, at);
    case FaultItInstruction => InstructionFaultGrows(e, r, at);
    case FaultItIP => IPFaultGrows(e, r, at);
    case RevertInstruction => RevertInstructionGrows(e, r, at);
    case _ =>
  }

  lemma {:induction false} VisitGrows(e: Env, r: Run, at: Site, i: nat)
    requires i < |r.hooks|
    ensures Grows(r.hooks, Visit(e, r, at, i).hooks, Weight(r.hooks[i].kind) - 1)
  {
    hide Call, Extends;
    CallGrows(e, r, at, r.hooks[i].kind);
    GrowthLaws();
  }

  lemma {:induction false} VisitDecreases(e: Env, r: Run, at: Site, i: nat)
    requires i < |r.hooks|
    ensures i + 1 <= |Visit(e, r, at, i).hooks|
    ensures Pending(Visit(e, r, at, i).hooks, i + 1) < Pending(r.hooks, i)
  {
    hide Visit;
    VisitGrows(e, r, at, i);
    PendingAppends(r.hooks, Visit(e, r, at, i).hooks, i + 1);
  }

  /** One dispatch, from position i of the registration order on. */
  function Dispatch(e: Env, r: Run, at: Site, i: nat): Run
    requires i <= |r.hooks|
    decreases Pending(r.hooks, i)
  {
    if i == |r.hooks| || !r.control.Going? then r
    else
      VisitDecreases(e, r, at, i);
      Dispatch(e, Visit(e, r, at, i), at, i + 1)
  }

  // ----- segments and the restart loop -----

  function SiteOf(p: Program, c: Cpu): Site {
    Site(Pc(p, c), p.size(c))
  }

  /** The instruction just dispatched is behind the run. */
  function Pass(r: Run): Run {
    if r.inRange then r.(trail := r.trail.(passed := r.trail.passed + 1)) else r
  }

  /** What the emulator does after a dispatch. */
  function Finish(e: Env, r: Run): Run {
    match r.control
    case Aborted => r.(phase := Ended)
    case StopRequested => r.(phase := Stopped)
    case Skipped => r.(control := Going)
    case PcWritten => Pass(r).(control := Going)
    case Going =>
      match e.p.exec(r.cpu)
      case Next(c) => Pass(r).(cpu := c)
      case Leave(c) => Pass(r).(cpu := c, phase := Stopped)
      case Trap(c, why) =>
        Pass(r).(cpu := c, phase := Stopped, state := if why.ErrorTrap? then Errored else Interrupted)
  }

  /** my_uc_engine_start once the emulator has returned: go round the loop, or finish. */
  function AfterSegment(e: Env, r: Run): Run {
    if r.restart && !r.state.Errored? then
      r.(restart := false, control := Going, phase := Running, cpu := WritePc(e.p, r.cpu, r.restartAddress),
         trail := r.trail.(restarts := r.trail.restarts + 1))
    else
      r.(phase := Ended, count := if r.count != 0 then r.count - 1 else 0)
  }

  /** One dispatch and its instruction, or one turn of the restart loop. */
  function Step(e: Env, r: Run): Run {
    match r.phase
    case Running => Finish(e, Dispatch(e, r, SiteOf(e.p, r.cpu), 0))
    case Stopped => AfterSegment(e, r)
    case Ended => r
  }

  function Steps(e: Env, r: Run, n: nat): Run {
    if n == 0 then r else Step(e, Steps(e, r, n - 1))
  }
}

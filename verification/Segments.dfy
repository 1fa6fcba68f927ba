/** If every segment of the emulator ends, the restart loop ends: on any program, rule and line table. */
module Segments {
  import opened Utils
  import opened Machine
  import opened Equivalence
  import opened Hooks
  import opened GoldenRun
  import opened StatsRun
  import opened Aftermath

  /** The emulator always comes back: no segment goes on for ever. */
  ghost predicate SegmentsEnd(e: Env, r: Run) {
    forall m: nat :: Steps(e, r, m).phase.Running? ==> exists k: nat :: k > m && !Steps(e, r, k).phase.Running?
  }

  // ----- the restarts still to come -----

  /** The lifespan hooks that ask for a restart. */
  predicate AsksForRestart(kind: HookKind) {
    kind.RevertInstruction? || kind.RepeatInstruction?
  }

  /** A run has the fault and lifespan hooks of its rule's target only. */
  predicate Suits(kind: HookKind, target: Target) {
    match kind
    case FaultItInstruction => target.Instruction?
    case RevertInstruction => target.Instruction?
    case RepeatInstruction => target.Instruction?
    case FaultItAddress => target.Register?
    case FaultItRegister => target.Register?
    case RevertRegister => target.Register?
    case RepeatRegister => target.Register?
    case FaultItIP => target.InstructionPointer?
    case RepeatIP => target.InstructionPointer?
    case _ => true
  }

  predicate BeforeFault(state: RunState) {
    state.NoneRs? || state.StartedFromCheckpoint?
  }

  predicate MayGoOn(state: RunState) {
    BeforeFault(state) || state.Faulted?
  }

  /** A live hook that asks for restarts is the one the lifespan handle names, and has some left. */
  ghost predicate InOrder(r: Run) {
    && (forall i :: 0 <= i < |r.hooks| ==> Suits(r.hooks[i].kind, r.rule.target))
    && (r.rule.target.Instruction? && BeforeFault(r.state) ==> r.hk.lifespan == 0)
    && (forall i :: 0 <= i < |r.hooks| && r.hooks[i].deletions == 0 && AsksForRestart(r.hooks[i].kind) ==>
          r.hk.lifespan == i + 1 && r.rule.lifespan.live >= 1)
  }

  lemma {:induction false} OrderStays(r: Run, s: Run)
    requires InOrder(r) && s.hooks == r.hooks && s.hk.lifespan == r.hk.lifespan && s.rule.target == r.rule.target
    requires s.rule.lifespan.live == r.rule.lifespan.live && (BeforeFault(s.state) ==> BeforeFault(r.state))
    ensures InOrder(s)
  {
  }

  /** One for the restore, one for the fault, and one for each instruction the fault is to live. */
  function ToCome(r: Run): nat {
    if r.state.NoneRs? then 2 + r.rule.lifespan.count
    else if r.state.StartedFromCheckpoint? then 1 + r.rule.lifespan.count
    else if r.state.Faulted? && r.rule.target.Instruction? && r.hk.lifespan != 0 then r.rule.lifespan.live
    else 0
  }

  /** s goes on from r with nothing that matters to the restarts changed. */
  ghost predicate Keeps(r: Run, s: Run) {
    && InOrder(s) && s.state == r.state && s.phase == r.phase && s.restart == r.restart && s.control == r.control
    && s.trail.restarts == r.trail.restarts && s.hk.lifespan == r.hk.lifespan && s.rule.target == r.rule.target
    && s.rule.lifespan.mode == r.rule.lifespan.mode && s.rule.lifespan.count == r.rule.lifespan.count
    && s.rule.lifespan.live == r.rule.lifespan.live
  }

  /** What a callback may do: a restart it asks for is one fewer to come. */
  ghost predicate Asks(r: Run, s: Run) {
    && InOrder(s) && s.phase == r.phase && s.trail.restarts == r.trail.restarts
    && s.rule.lifespan.count == r.rule.lifespan.count
    && (s.control.StopRequested? || s.control.Aborted? || (MayGoOn(s.state) && !s.restart))
    && (s.restart ==> s.control.StopRequested? && MayGoOn(s.state))
    && ToCome(s) + (if s.restart then 1 else 0) <= ToCome(r)
  }

  /** A run about to be handed to a callback. */
  ghost predicate Waits(r: Run) {
    InOrder(r) && r.control.Going? && !r.restart && MayGoOn(r.state)
  }

  lemma {:induction false} KeepsInstall(r: Run, s: Run, kind: HookKind, where: Where)
    requires Keeps(r, s) && Suits(kind, r.rule.target) && !IsLifespan(kind)
    ensures Keeps(r, Install(s, kind, where))
  {
  }

  lemma {:induction false} KeepsRemove(r: Run, s: Run, kind: HookKind)
    requires Keeps(r, s) && !IsLifespan(kind)
    ensures Keeps(r, Remove(s, kind)) && Keeps(r, RemoveIfSet(s, kind))
  {
  }

  lemma {:induction false} KeepsAsks(r: Run, s: Run)
    requires Waits(r) && Keeps(r, s)
    ensures Asks(r, s)
  {
    hide InOrder;
  }

  // ----- the callbacks -----

  lemma {:induction false} RangeAsks(e: Env, r: Run, at: Site)
    requires Waits(r)
    ensures Asks(r, AtStartFaults(r)) && Asks(r, AtStopFaults(r)) && Asks(r, Count(r)) && Asks(r, RecordLine(e, r, at))
    ensures Asks(r, AtSkip(e, r, at))
  {
    hide InOrder, Install, WritePc, RecordedLine;
    var r1 := r.(inRange := true, count := if r.count == 0 then 1 else r.count);
    OrderStays(r, r1);
    OrderStays(r, AtStopFaults(r));
    OrderStays(r, Count(r));
    OrderStays(r, RecordLine(e, r, at));
    OrderStays(r, AtSkip(e, r, at));
    KeepsInstall(r, r1, CountInstructions, Everywhere);
  }

  lemma {:induction false} EndAsks(e: Env, r: Run)
    requires Waits(r)
    ensures Asks(r, AtEndAddress(r)) && Asks(r, AtHardStop(e, r))
  {
    hide InOrder, RemoveIfSet;
    var r1 := r.(state := if r.state.Faulted? then EndAddressAndFaulted else EndAddress);
    var r2 := r.(state := HardStopped);
    OrderStays(r, r1);
    OrderStays(r, r2);
    KeepsRemove(r1, r1, CountInstructions);
    KeepsRemove(r2, r2, CountInstructions);
    OrderStays(RemoveIfSet(r1, CountInstructions), AtEndAddress(r));
    OrderStays(RemoveIfSet(r2, CountInstructions), Stop(RemoveIfSet(r2, CountInstructions)));
  }

  lemma {:induction false} StartAsks(e: Env, r: Run)
    requires Waits(r)
    ensures Asks(r, AtStartAddress(e, r))
  {
    hide InOrder, Install, Load, RestoresCheckpoint, RestoreFromCheckpoint;
    var a := LineAt(r.lines, r.rule.instruction).address;
    KeepsInstall(r, r, PrimaryKind(r.rule.target), At({ThumbCheck(e.p, a)}));
    var r1 := if r.rule.isSet then AddFaultHook(e, r, a) else r;
    KeepsAsks(r, r1);
    if r.state.NoneRs? {
      RestoreAsks(e, r, r1);
    }
  }

  lemma {:induction false} RestoreAsks(e: Env, r: Run, r1: Run)
    requires Waits(r) && r.state.NoneRs? && Keeps(r, r1)
    ensures Asks(r, RestoreFromCheckpoint(e, r1, r.rule.instruction))
  {
    hide InOrder, Install, Load;
    var restored := RestoreFromCheckpoint(e, r1, r.rule.instruction);
    var line := LineAt(r1.lines, LineAt(r1.lines, r.rule.instruction).nearest);
    OrderStays(r1, Abort(r1));
    if line.snapshot.Some? && line.checkpoint {
      var r2 := r1.(cpu := Load(e.p, r1.cpu, line.snapshot.value));
      OrderStays(r1, r2);
      KeepsInstall(r, r2, CountInstructions, Everywhere);
      OrderStays(if r2.hk.countInstructions == 0 then Install(r2, CountInstructions, Everywhere) else r2, restored);
    }
  }

  lemma {:induction false} AddressAsks(r: Run, at: Site)
    requires Waits(r) && r.rule.target.Register?
    ensures Asks(r, FaultAddressHook(r, at))
  {
    hide InOrder, Install, RemoveIfSet;
    var r1 := r.(rule := r.rule.(faultedAddress := at.address));
    OrderStays(r, r1);
    KeepsInstall(r, r1, FaultItRegister, Everywhere);
    KeepsRemove(r, Install(r1, FaultItRegister, Everywhere), FaultItAddress);
    KeepsAsks(r, RemoveIfSet(Install(r1, FaultItRegister, Everywhere), FaultItAddress));
    KeepsAsks(r, r);
  }

  /** Without an instruction target nothing asks for a restart but the restore. */
  ghost predicate NoSites(r: Run, s: Run) {
    && (forall i :: 0 <= i < |s.hooks| ==> Suits(s.hooks[i].kind, s.rule.target))
    && s.rule.target == r.rule.target && !s.rule.target.Instruction? && s.phase == r.phase && s.restart == r.restart
    && s.trail.restarts == r.trail.restarts && s.rule.lifespan.count == r.rule.lifespan.count
    && s.rule.lifespan.mode == r.rule.lifespan.mode
  }

  lemma {:induction false} NoSitesAsk(r: Run, s: Run)
    requires Waits(r) && NoSites(r, s)
    requires s.state == r.state || s.state.Faulted? || (s.state.EquivalentRs?
                                                        && (s.control.StopRequested? || s.control.Aborted?))
    ensures Asks(r, s)
  {
  }

  lemma {:induction false} NoSitesRemove(r: Run, s: Run, kind: HookKind)
    requires NoSites(r, s)
    ensures NoSites(r, Remove(s, kind)) && NoSites(r, RemoveIfSet(s, kind))
    ensures Remove(s, kind).state == s.state && RemoveIfSet(s, kind).state == s.state
  {
    hide SetHandle, HandleOf;
  }

  lemma {:induction false} NoSitesInstall(r: Run, s: Run, kind: HookKind, where: Where)
    requires NoSites(r, s) && Suits(kind, r.rule.target)
    ensures NoSites(r, Install(s, kind, where)) && Install(s, kind, where).state == s.state
  {
    hide SetHandle;
  }

  lemma {:induction false} RegisterAsks(e: Env, r: Run, at: Site)
    requires Waits(r) && r.rule.target.Register?
    ensures Asks(r, FaultRegisterHook(e, r, at))
  {
    hide NoSites, AddLifespan, DoTheRegisterFault, InOrder, Asks, Waits, StateHashes, Record, Known, RemoveIfSet;
    var r1 := DoTheRegisterFault(e, r, at);
    RegisterHasNoSites(e, r, at);
    NoSitesAsk(r, r1);
    if !r1.control.Aborted? {
      var r3 := AddLifespan(Fire(r1, at), RevertRegister, RepeatRegister, Everywhere).(state := Faulted);
      NoSitesStay(r, r3, RecordState(e, r3));
      NoSitesStay(r, r3, Stop(RecordState(e, r3).(state := EquivalentRs)));
      NoSitesRemove(r, r3, FaultItRegister);
      NoSitesRemove(r, RecordState(e, r3), FaultItRegister);
      NoSitesAsk(r, FaultRegisterHook(e, r, at));
    }
  }

  lemma {:induction false} RegisterHasNoSites(e: Env, r: Run, at: Site)
    requires Waits(r) && r.rule.target.Register?
    ensures var r1 := DoTheRegisterFault(e, r, at);
            && NoSites(r, r1) && r1.state == r.state
            && NoSites(r, AddLifespan(Fire(r1, at), RevertRegister, RepeatRegister, Everywhere).(state := Faulted))
  {
    assert NoSites(r, r);
    hide NoSites, WritePc, FaultReg, Install;
    var r1 := DoTheRegisterFault(e, r, at);
    var r2 := Fire(r1, at);
    NoSitesStay(r, r, r1);
    NoSitesStay(r, r, r2);
    NoSitesStay(r, r, StartLifespan(r2));
    NoSitesInstall(r, StartLifespan(r2), RevertRegister, Everywhere);
    NoSitesInstall(r, StartLifespan(r2), RepeatRegister, Everywhere);
    var r3 := AddLifespan(r2, RevertRegister, RepeatRegister, Everywhere);
    NoSitesStay(r, r3, r3.(state := Faulted));
  }

  lemma {:induction false} NoSitesStay(r: Run, s: Run, t: Run)
    requires NoSites(r, s) && t.hooks == s.hooks && t.rule.target == s.rule.target && t.phase == s.phase
    requires t.restart == s.restart
    requires t.trail.restarts == s.trail.restarts && t.rule.lifespan.count == s.rule.lifespan.count
    requires t.rule.lifespan.mode == s.rule.lifespan.mode
    ensures NoSites(r, t)
  {
  }

  lemma {:induction false} RegisterLifespanAsks(e: Env, r: Run, at: Site)
    requires Waits(r) && r.rule.target.Register?
    ensures Asks(r, RevertRegisterHook(e, r, at)) && Asks(r, RepeatRegisterHook(e, r, at))
  {
    hide WritePc, FaultReg, LifespanNotStarted, Remove;
    var r1 := CountDown(r);
    var r2 := WriteRegister(e, r1, r1.rule.number, r1.rule.lifespan.originalValue);
    var r3 := DoTheRegisterFault(e, r1, at);
    assert NoSites(r, r) && NoSites(r, r1) && NoSites(r, r2) && NoSites(r, r3);
    assert r1.state == r2.state == r3.state == r.state;
    NoSitesRemove(r, r2, RevertRegister);
    NoSitesRemove(r, r3, RepeatRegister);
    hide NoSites, DoTheRegisterFault, InOrder, Asks, Waits, WriteRegister, CountDown;
    NoSitesAsk(r, r);
    NoSitesAsk(r, r1);
    NoSitesAsk(r, r3);
    NoSitesAsk(r, Remove(r2, RevertRegister));
    NoSitesAsk(r, Remove(r3, RepeatRegister));
  }

  lemma {:induction false} IPAsks(e: Env, r: Run, at: Site)
    requires Waits(r) && r.rule.target.InstructionPointer?
    ensures Asks(r, FaultIPHook(e, r, at))
  {
    hide WritePc, Install, RemoveIfSet;
    var r1 := DoTheIPFault(e, r, at);
    var r2 := Fire(r1, at);
    assert NoSites(r, r) && NoSites(r, r1) && NoSites(r, r2);
    NoSitesInstall(r, r2, Equivalent, Everywhere);
    var r3 := AddEquivalent(e, r2);
    assert NoSites(r, StartLifespan(r3)) && r3.state == r2.state;
    NoSitesInstall(r, StartLifespan(r3), RepeatIP, At({at.address}));
    var r4 := AddSkipLifespan(r3, at);
    assert NoSites(r, r4) && r4.state == r3.state;
    NoSitesRemove(r, r4, FaultItIP);
    assert r1.state == r.state || r1.state.Faulted?;
    hide NoSites, InOrder, Asks, Waits, AddSkipLifespan, AddEquivalent, DoTheIPFault, IsTheLine;
    NoSitesAsk(r, r);
    NoSitesAsk(r, r1);
    NoSitesAsk(r, RemoveIfSet(r4, FaultItIP));
  }

  lemma {:induction false} RepeatIPAsks(e: Env, r: Run, at: Site)
    requires Waits(r) && r.rule.target.InstructionPointer?
    ensures Asks(r, RepeatIPHook(e, r, at))
  {
    hide WritePc, Remove;
    var r1 := DoTheIPFault(e, CountDown(r), at);
    var r2 := r1.(trail := r1.trail.(drift := r1.trail.drift + 1));
    assert NoSites(r, r) && NoSites(r, r1) && NoSites(r, r2);
    assert r1.state == r.state || r1.state.Faulted?;
    NoSitesRemove(r, r2, RepeatIP);
    hide NoSites, InOrder, Asks, Waits, DoTheIPFault;
    NoSitesAsk(r, r);
    NoSitesAsk(r, r1);
    NoSitesAsk(r, r2);
    NoSitesAsk(r, Remove(r2, RepeatIP));
  }

  lemma {:induction false} CheckAsks(e: Env, r: Run)
    requires Waits(r)
    ensures Asks(r, CheckEquivalent(e, r))
  {
    hide StateHashes, Record, Known, Remove, InOrder;
    var r1 := RecordState(e, r);
    OrderStays(r, r1);
    OrderStays(r, Stop(r1.(state := EquivalentRs)));
    KeepsRemove(r, r1, Equivalent);
    KeepsAsks(r, Remove(r1, Equivalent));
  }

  // ----- the callbacks of an instruction fault -----

  lemma {:induction false} BytesKeep(e: Env, r: Run, at: Site)
    requires InOrder(r) && r.state.Faulted?
    ensures Keeps(r, DoTheInstructionFault(e, r, at)) || (DoTheInstructionFault(e, r, at) == Abort(r))
  {
    hide WriteMem, ReadMem, FaultBytes, InOrder;
    OrderStays(r, DoTheInstructionFault(e, r, at));
  }

  /** The lifespan hook of an instruction fault is put in order when its fault is made. */
  lemma {:induction false} SiteLifespan(r: Run, s: Run, where: Where)
    requires InOrder(r) && BeforeFault(r.state) && r.rule.target.Instruction?
    requires s.state.Faulted? && Keeps(r.(state := Faulted), s)
    ensures var l := AddLifespan(s, RevertInstruction, RepeatInstruction, where);
            && InOrder(l) && l.state == s.state && l.phase == s.phase && l.control == s.control
            && l.restart == s.restart
            && l.trail == s.trail && l.rule.lifespan.count == s.rule.lifespan.count
            && ToCome(l) <= l.rule.lifespan.count
  {
    hide SetHandle;
    assert SetHandle(s.hk, RevertInstruction, |s.hooks| + 1).lifespan
           == |s.hooks| + 1 by { HandleIsSet(s.hk, |s.hooks| + 1); }
    assert SetHandle(s.hk, RepeatInstruction, |s.hooks| + 1).lifespan
           == |s.hooks| + 1 by { HandleIsSet(s.hk, |s.hooks| + 1); }
  }

  lemma {:induction false} HandleIsSet(hk: Handles, h: nat)
    ensures SetHandle(hk, RevertInstruction, h).lifespan == SetHandle(hk, RepeatInstruction, h).lifespan == h
  {
  }

  lemma {:induction false} InstructionAsks(e: Env, r: Run, at: Site)
    requires Waits(r) && r.rule.target.Instruction?
    ensures Asks(r, FaultInstructionHook(e, r, at))
  {
    hide InOrder, AddLifespan, AddEquivalent, RemoveIfSet, DoTheInstructionFault;
    KeepsAsks(r, r);
    if IsTheLine(r) {
      FaultKeeps(e, r, at);
      var r1 := DoTheInstructionFault(e, r, at);
      if !r1.control.Aborted? {
        var r2 := AddEquivalent(e, Fire(r1, at));
        SiteLifespan(r, r2, At({at.address}));
        var r3 := AddLifespan(r2, RevertInstruction, RepeatInstruction, At({at.address}));
        var r4 := RestartAt(r3, ThumbAddress(e.p, at.address));
        OrderStays(r3, r4);
        KeepsRemove(r4, r4, FaultItInstruction);
      }
    }
  }

  /** The fault itself, before its lifespan hook. */
  lemma {:induction false} FaultKeeps(e: Env, r: Run, at: Site)
    requires InOrder(r) && r.control.Going?
    ensures var r1 := DoTheInstructionFault(e, r, at);
            if r1.control.Aborted? then r1 == Abort(r) && InOrder(r1)
            else r1.state.Faulted? && Keeps(r.(state := Faulted), AddEquivalent(e, Fire(r1, at)))
  {
    hide WriteMem, ReadMem, FaultBytes, Install, InOrder;
    var r1 := DoTheInstructionFault(e, r, at);
    OrderStays(r, r1);
    if !r1.control.Aborted? {
      OrderStays(r, Fire(r1, at));
      KeepsInstall(r.(state := Faulted), Fire(r1, at), Equivalent, Everywhere);
    }
  }

  /** A hook that asks for restarts, about to be called. */
  ghost predicate IsDue(r: Run, i: nat) {
    Waits(r) && i < |r.hooks| && r.hooks[i].deletions == 0 && AsksForRestart(r.hooks[i].kind)
  }

  /** It counts down by one, and goes when there is nothing left. */
  lemma {:induction false} CountsDown(r: Run, i: nat, s: Run, kind: HookKind)
    requires IsDue(r, i) && kind == r.hooks[i].kind
    requires s.hooks == r.hooks && s.hk == r.hk && s.state.Faulted? && s.rule.target == r.rule.target
    requires s.rule.lifespan.live == r.rule.lifespan.live - 1
    ensures r.hk.lifespan == i + 1 && r.rule.target.Instruction? && r.state.Faulted?
    ensures s.rule.lifespan.live != 0 ==> InOrder(s)
    ensures InOrder(Remove(s, kind)) && Remove(s, kind).hk.lifespan == 0
  {
  }

  lemma {:induction false} DueIsFaulted(r: Run, i: nat)
    requires IsDue(r, i)
    ensures r.state.Faulted? && r.hk.lifespan == i + 1 && r.rule.lifespan.live >= 1 && r.rule.target.Instruction?
    ensures InOrder(r)
  {
  }

  lemma {:induction false} RevertAsks(e: Env, r: Run, at: Site, i: nat)
    requires IsDue(r, i) && r.hooks[i].kind.RevertInstruction?
    ensures Asks(r, RevertInstructionHook(e, r, at))
  {
    DueIsFaulted(r, i);
    hide InOrder, RemoveIfSet, Remove, WriteMem;
    KeepsAsks(r, r);
    var r1 := CountDown(r);
    CountsDown(r, i, r1, RevertInstruction);
    var site := ThumbCheck(e.p, LineAt(r.lines, r.rule.instruction).address);
    var w := ToolWrites(e, r1, site, r1.rule.lifespan.originalBytes);
    CountsDown(r, i, w, RevertInstruction);
    RemoveKeepsRest(w, RevertInstruction);
    var r3 := RestartAt(StepBack(Remove(w, RevertInstruction)), ThumbAddress(e.p, at.address));
    OrderStays(Remove(w, RevertInstruction), r3);
    KeepsRemove(r3, r3, FaultItInstruction);
  }

  lemma {:induction false} RemoveKeepsRest(r: Run, kind: HookKind)
    ensures Remove(r, kind) == r.(hooks := Remove(r, kind).hooks, hk := Remove(r, kind).hk)
  {
  }

  lemma {:induction false} RepeatAsks(e: Env, r: Run, at: Site, i: nat)
    requires IsDue(r, i) && r.hooks[i].kind.RepeatInstruction?
    ensures Asks(r, RepeatInstructionHook(e, r, at))
  {
    DueIsFaulted(r, i);
    BytesKeep(e, r, at);
    hide InOrder, Remove, WriteMem, ReadMem, FaultBytes;
    OrderStays(r, Abort(r));
    KeepsAsks(r, r);
    var r1 := CountDown(DoTheInstructionFault(e, r, at));
    if r.count > r.rule.instruction + 1 && !r1.control.Aborted? {
      CountsDown(r, i, r1, RepeatInstruction);
      RemoveKeepsRest(r1, RepeatInstruction);
      OrderStays(RemoveIfSpent(r1, RepeatInstruction), RepeatInstructionHook(e, r, at));
    }
  }

  // ----- dispatches and steps -----

  lemma {:induction false} VisitAsks(e: Env, r: Run, at: Site, i: nat)
    requires Waits(r) && i < |r.hooks|
    ensures Asks(r, Visit(e, r, at, i))
  {
    assert Suits(r.hooks[i].kind, r.rule.target);
    hide InOrder, Waits, Asks, AtSkip, AtEndAddress, AtHardStop, AtStartAddress, AtStartFaults, AtStopFaults, Count,
         RecordLine, FaultAddressHook, FaultRegisterHook, FaultInstructionHook, FaultIPHook, RevertRegisterHook,
         RepeatRegisterHook, RevertInstructionHook, RepeatInstructionHook, RepeatIPHook, CheckEquivalent, Keeps;
    KeepsAsks(r, r);
    if IsCalled(r, at, i) {
      RangeAsks(e, r, at);
      EndAsks(e, r);
      match r.hooks[i].kind
      case OnStartAddress => StartAsks(e, r);
      case FaultItAddress => AddressAsks(r, at);
      case FaultItRegister => RegisterAsks(e, r, at);
      case FaultItInstruction => InstructionAsks(e, r, at);
      case FaultItIP => IPAsks(e, r, at);
      case RevertRegister => RegisterLifespanAsks(e, r, at);
      case RepeatRegister => RegisterLifespanAsks(e, r, at);
      case RevertInstruction => RevertAsks(e, r, at, i);
      case RepeatInstruction => RepeatAsks(e, r, at, i);
      case RepeatIP => RepeatIPAsks(e, r, at);
      case Equivalent => CheckAsks(e, r);
      case _ =>
    }
  }

  lemma {:induction false} DispatchAsks(e: Env, r: Run, at: Site, i: nat)
    requires Waits(r) && i <= |r.hooks|
    ensures Asks(r, Dispatch(e, r, at, i))
    decreases Pending(r.hooks, i)
  {
    hide Visit, InOrder;
    KeepsAsks(r, r);
    if i < |r.hooks| {
      VisitAsks(e, r, at, i);
      VisitDecreases(e, r, at, i);
      var s := Visit(e, r, at, i);
      if s.control.Going? {
        DispatchAsks(e, s, at, i + 1);
      } else {
        EndsThere(e, s, at, i + 1);
      }
      OneVisit(e, r, at, i);
    }
  }

  /** Between steps: with the restarts made, one asked for and those to come, the budget is kept. */
  ghost predicate IsWithin(r: Run, budget: nat) {
    && InOrder(r) && r.trail.restarts + ToCome(r) + (if r.restart then 1 else 0) <= budget
    && (r.phase.Running? ==> r.control.Going? && !r.restart && MayGoOn(r.state))
    && (r.phase.Stopped? && r.restart ==> MayGoOn(r.state))
  }

  lemma {:induction false} StepIsWithin(e: Env, r: Run, budget: nat)
    requires IsWithin(r, budget)
    ensures IsWithin(Step(e, r), budget) && Step(e, r).trail.restarts >= r.trail.restarts
    ensures r.phase.Stopped? && !Step(e, r).phase.Ended? ==>
              Step(e, r).phase.Running? && Step(e, r).trail.restarts == r.trail.restarts + 1
    ensures r.phase.Ended? ==> Step(e, r).phase.Ended?
  {
    if r.phase.Running? {
      hide InOrder, Dispatch, Finish;
      var d := Dispatch(e, r, SiteOf(e.p, r.cpu), 0);
      DispatchAsks(e, r, SiteOf(e.p, r.cpu), 0);
      FinishIsWithin(e, r, d, budget);
    } else {
      hide WritePc, InOrder;
      OrderStays(r, Step(e, r));
    }
  }

  lemma {:induction false} FinishIsWithin(e: Env, r: Run, d: Run, budget: nat)
    requires IsWithin(r, budget) && r.phase.Running? && Asks(r, d)
    ensures IsWithin(Finish(e, d), budget) && Finish(e, d).trail.restarts == r.trail.restarts
  {
    hide InOrder;
    OrderStays(d, Finish(e, d));
  }

  lemma {:induction false} StepsAreWithin(e: Env, r: Run, budget: nat, m: nat, n: nat)
    requires IsWithin(r, budget) && m <= n
    ensures IsWithin(Steps(e, r, n), budget) && Steps(e, r, n).trail.restarts >= Steps(e, r, m).trail.restarts
  {
    hide Step, IsWithin;
    if n > 0 {
      StepsAreWithin(e, r, budget, if m < n then m else n - 1, n - 1);
      StepIsWithin(e, Steps(e, r, n - 1), budget);
    }
  }

  lemma {:induction false} LaunchedIsWithin(e: Env, rule: FaultRule, lines: seq<Line>, classes: seq<Class<FaultRule>>)
    ensures IsWithin(Launched(e, rule, lines, classes), 2 + rule.lifespan.count)
  {
  }

  /** No run makes more than 2 + lifespan.count restarts: one for a checkpoint, one for an instruction
      fault, and one for each instruction the fault is to live. */
  lemma {:induction false} RestartsAreBounded(e: Env, rule: FaultRule, lines: seq<Line>,
                                              classes: seq<Class<FaultRule>>, n: nat)
    ensures Steps(e, Launched(e, rule, lines, classes), n).trail.restarts <= 2 + rule.lifespan.count
  {
    hide Steps, Launched, InOrder, ToCome;
    LaunchedIsWithin(e, rule, lines, classes);
    StepsAreWithin(e, Launched(e, rule, lines, classes), 2 + rule.lifespan.count, 0, n);
  }

  // ----- the end of the run -----

  /** From any step on: the segment ends, and either the run does or one more restart is made. */
  lemma {:induction false} EndsFrom(e: Env, r: Run, budget: nat, m: nat) returns (n: nat)
    requires SegmentsEnd(e, r) && IsWithin(r, budget)
    ensures Steps(e, r, n).phase.Ended?
    decreases budget - Steps(e, r, m).trail.restarts
  {
    hide Step, IsWithin;
    var k: nat := m;
    if Steps(e, r, m).phase.Running? {
      k :| k > m && !Steps(e, r, k).phase.Running?;
    }
    StepsAreWithin(e, r, budget, m, k);
    var s := Steps(e, r, k);
    StepIsWithin(e, s, budget);
    BudgetIsKept(Steps(e, r, k + 1), budget);
    if s.phase.Ended? {
      n := k;
    } else if Steps(e, r, k + 1).phase.Ended? {
      n := k + 1;
    } else {
      n := EndsFrom(e, r, budget, k + 1);
    }
  }

  lemma {:induction false} BudgetIsKept(r: Run, budget: nat)
    requires IsWithin(r, budget)
    ensures r.trail.restarts <= budget
  {
  }

  /** The restart loop terminates exactly when every segment does, on any program, for any rule and any
      line table, with a checkpoint or without. */
  lemma {:induction false} RunEndsIff(e: Env, rule: FaultRule, lines: seq<Line>, classes: seq<Class<FaultRule>>)
    ensures var r := Launched(e, rule, lines, classes);
            SegmentsEnd(e, r) <==> exists n: nat :: Steps(e, r, n).phase.Ended?
  {
    hide Steps, Launched, IsWithin;
    var r := Launched(e, rule, lines, classes);
    if SegmentsEnd(e, r) {
      LaunchedIsWithin(e, rule, lines, classes);
      var n := EndsFrom(e, r, 2 + rule.lifespan.count, 0);
    }
    if n: nat :| Steps(e, r, n).phase.Ended? {
      forall m: nat | Steps(e, r, m).phase.Running?
        ensures exists k: nat :: k > m && !Steps(e, r, k).phase.Running?
      {
        EndedStays(e, r, n, m + n + 1);
        assert !Steps(e, r, m + n + 1).phase.Running?;
      }
    }
  }

  lemma {:induction false} EndedStays(e: Env, r: Run, m: nat, n: nat)
    requires Steps(e, r, m).phase.Ended? && m <= n
    ensures Steps(e, r, n) == Steps(e, r, m)
  {
    hide Dispatch, Finish, AfterSegment;
    if m < n {
      EndedStays(e, r, m, n - 1);
    }
  }

  /** Where a run that ends comes to. */
  ghost function Outcome(e: Env, r: Run): (s: Run) {
    if n: nat :| Steps(e, r, n).phase.Ended? then Steps(e, r, n) else r
  }

  lemma {:induction false} OutcomeIs(e: Env, r: Run, n: nat)
    requires Steps(e, r, n).phase.Ended?
    ensures Outcome(e, r) == Steps(e, r, n)
  {
    hide Step;
    var m: nat :| Steps(e, r, m).phase.Ended? && Outcome(e, r) == Steps(e, r, m);
    EndedStays(e, r, if m < n then m else n, if m < n then n else m);
  }

  lemma {:induction false} OutcomeEnds(e: Env, r: Run) returns (n: nat)
    requires Outcome(e, r).phase.Ended?
    ensures Outcome(e, r) == Steps(e, r, n)
  {
    hide Step;
    if exists m: nat :: Steps(e, r, m).phase.Ended? {
      n :| Steps(e, r, n).phase.Ended?;
      OutcomeIs(e, r, n);
    } else {
      n := 0;
    }
  }
}

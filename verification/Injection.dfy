/** The primary fault: it is injected exactly once, at its line, for all three kinds of target. */
module Injection {
  import opened Utils
  import opened Machine
  import opened Equivalence
  import opened Hooks
  import opened GoldenRun
  import opened Aftermath

  /** Operations the target's fault function does not end the process on. */
  predicate Accepts(rule: FaultRule) {
    match rule.target
    case Register => !rule.operation.NotSet? && !rule.operation.Clear? && !rule.operation.Flip?
    case Instruction => FaultsBytes(rule.operation)
    case InstructionPointer => rule.operation.Skip?
  }

  /** What a rule keeps while a run goes on. */
  predicate SameRule(a: FaultRule, b: FaultRule) {
    && a.instruction == b.instruction && a.target == b.target && a.number == b.number && a.operation == b.operation
    && a.mask == b.mask && a.filter == b.filter && a.lifespan.mode == b.lifespan.mode
    && a.lifespan.count == b.lifespan.count
  }

  /** Restarts a run can make: one from its checkpoint, one to run the faulted instruction, and one
      for each count of its lifespan. */
  function RestartBudget(o: Origin, rule: FaultRule): nat {
    (if o.Restored? then 1 else 0) + (if rule.target.Instruction? then 1 else 0) + rule.lifespan.count
  }

  /** The run just before its primary hook is called. */
  ghost predicate AtTheHook(e: Env, o: Origin, w: Run, at: Site) {
    && e.mode.FaultMode? && w.control.Going? && w.phase.Running? && !w.restart && IsTheLine(w)
    && Accepts(w.rule)
    && (exists a :: w.hooks == SetupHooks(e) + [Hook(PrimaryKind(w.rule.target), At({a}), 0)] + [COUNT_HOOK])
    && w.hk == SetHandle(SETUP_HANDLES, PrimaryKind(w.rule.target), 11).(countInstructions := 12)
    && w.count == w.trail.passed + 1 && w.trail.drift == 0 && w.trail.fired == []
    && w.trail.restarts == if o.Restored? then 1 else 0
  }

  /** What a primary hook leaves, unless it ends the run: a faulted run, with the count moved on by
      as many instructions as were counted. */
  ghost predicate Fired(e: Env, w: Run, at: Site, s: Run, counted: nat) {
    && HasFaulted(e, s) && Remaining(s) <= w.rule.lifespan.count && s.phase.Running?
    && s.count == w.count + counted && s.inRange == w.inRange
    && s.trail == w.trail.(writes := s.trail.writes, fired := [Firing(w.count, at.address)])
  }

  // ----- the helpers of the fault hooks -----

  lemma {:induction false} LaterHandle(hk: Handles, kind: HookKind)
    requires IsLater(kind)
    ensures HandleOf(hk, kind) == if kind.Equivalent? then hk.equivalent else hk.lifespan
    ensures forall h: nat :: SetHandle(hk, kind, h) == if kind.Equivalent? then hk.(equivalent := h)
            else hk.(lifespan := h)
  {
  }

  lemma {:induction false} InstallLater(e: Env, r: Run, kind: HookKind, where: Where)
    requires LaterHooks(e, r.hooks, r.hk) && IsLater(kind) && HandleOf(r.hk, kind) == 0
    ensures var s := Install(r, kind, where);
            && LaterHooks(e, s.hooks, s.hk) && |s.hooks| > |r.hooks| && s.hooks[..|r.hooks|] == r.hooks
            && s == r.(hooks := s.hooks, hk := s.hk)
            && (forall i :: |r.hooks| <= i < |s.hooks| ==> s.hooks[i].kind == kind)
            && s.hk == if kind.Equivalent? then r.hk.(equivalent := s.hk.equivalent)
               else r.hk.(lifespan := s.hk.lifespan)
  {
    hide SetupHooks, HandleOf, SetHandle, IsLater;
    var s := Install(r, kind, where);
    LaterHandle(r.hk, kind);
    assert s.hooks[..10] == r.hooks[..10];
    assert IsLifespan(kind) || kind.Equivalent?;
    forall i | 12 <= i < |s.hooks| && s.hooks[i].deletions == 0 && !s.hooks[i].kind.FaultItRegister?
      ensures IsLater(s.hooks[i].kind) && HandleOf(s.hk, s.hooks[i].kind) == i + 1
    {
      if i < |r.hooks| {
        assert s.hooks[i] == r.hooks[i];
      }
      LaterHandle(r.hk, s.hooks[i].kind);
      LaterHandle(s.hk, s.hooks[i].kind);
    }
  }

  lemma {:induction false} AddsLifespan(e: Env, r: Run, revert: HookKind, repeat_: HookKind, where: Where)
    requires LaterHooks(e, r.hooks, r.hk) && IsLifespan(revert) && IsLifespan(repeat_) && r.hk.lifespan == 0
    ensures var s := AddLifespan(r, revert, repeat_, where);
            && LaterHooks(e, s.hooks, s.hk) && |s.hooks| >= |r.hooks| && s.hooks[..|r.hooks|] == r.hooks
            && (forall i :: |r.hooks| <= i < |s.hooks| ==> !s.hooks[i].kind.FaultItRegister?)
            && s == r.(hooks := s.hooks, hk := r.hk.(lifespan := s.hk.lifespan), rule := s.rule)
            && s.rule == r.rule.(lifespan := r.rule.lifespan.(live := s.rule.lifespan.live))
            && (s.hk.lifespan != 0 ==> 1 <= s.rule.lifespan.live == r.rule.lifespan.count)
  {
    hide LaterHooks, Install;
    var s := StartLifespan(r);
    HandleKinds(r.hk, revert);
    HandleKinds(r.hk, repeat_);
    InstallLater(e, s, revert, Everywhere);
    InstallLater(e, s, repeat_, where);
  }

  lemma {:induction false} HandleKinds(hk: Handles, kind: HookKind)
    requires IsLifespan(kind)
    ensures HandleOf(hk, kind) == hk.lifespan
  {
  }

  lemma {:induction false} AddsEquivalent(e: Env, r: Run)
    requires LaterHooks(e, r.hooks, r.hk) && r.hk.equivalent == 0
    ensures var s := AddEquivalent(e, r);
            && LaterHooks(e, s.hooks, s.hk) && |s.hooks| >= |r.hooks| && s.hooks[..|r.hooks|] == r.hooks
            && (forall i :: |r.hooks| <= i < |s.hooks| ==> !s.hooks[i].kind.FaultItRegister?)
            && s == r.(hooks := s.hooks, hk := r.hk.(equivalent := s.hk.equivalent))
  {
    hide LaterHooks, Install;
    InstallLater(e, r, Equivalent, Everywhere);
  }

  /** Deleting the primary hook, which is the only hook that made the fault. */
  lemma {:induction false} PrimaryGone(e: Env, r: Run, kind: HookKind)
    requires LaterHooks(e, r.hooks, r.hk) && HandleOf(r.hk, kind) == 11
    requires kind.FaultItInstruction? || kind.FaultItIP?
    requires r.hk.faultAddress == 0 && (forall i :: 12 <= i < |r.hooks| ==> !r.hooks[i].kind.FaultItRegister?)
    ensures var s := RemoveIfSet(r, kind);
            FaultedHooks(e, s.hooks, s.hk) && s == r.(hooks := s.hooks, hk := r.hk.(faultIt := 0))
  {
    hide SetupHooks, HandleOf, SetHandle;
    PrimaryHandle(r.hk, kind);
    var s := RemoveIfSet(r, kind);
    assert s.hooks[..10] == r.hooks[..10];
    SameLaterHandles(r.hk);
  }

  lemma {:induction false} PrimaryHandle(hk: Handles, kind: HookKind)
    requires kind.FaultItInstruction? || kind.FaultItIP?
    ensures HandleOf(hk, kind) == hk.faultIt && SetHandle(hk, kind, 0) == hk.(faultIt := 0)
  {
  }

  lemma {:induction false} SameLaterHandles(hk: Handles)
    ensures forall kind: HookKind :: IsLater(kind) ==> HandleOf(hk.(faultIt := 0), kind) == HandleOf(hk, kind)
  {
  }

  lemma {:induction false} FreshHooks(e: Env, o: Origin, w: Run, at: Site)
    requires AtTheHook(e, o, w, at)
    ensures LaterHooks(e, w.hooks, w.hk) && |w.hooks| == 12
    ensures w.hk.lifespan == 0 && w.hk.equivalent == 0
    ensures w.rule.target.Register? <==> w.hk.faultAddress != 0
    ensures w.rule.target.Register? ==> w.hk.faultAddress == 11 && w.hk.faultIt == 0
    ensures !w.rule.target.Register? ==> w.hk.faultIt == 11
  {
    hide SetupHooks;
  }

  // ----- the three kinds of fault -----

  /** The parts of a run that making a fault leaves alone. */
  ghost predicate SameMachine(w: Run, r: Run) {
    r.hooks == w.hooks && r.hk == w.hk && r.inRange == w.inRange && r.restart == w.restart && r.phase == w.phase &&
    r.rule.target == w.rule.target && r.rule.lifespan.count == w.rule.lifespan.count &&
    r.rule.lifespan.mode == w.rule.lifespan.mode &&
    r.trail == w.trail.(writes := r.trail.writes, fired := r.trail.fired)
  }

  lemma {:induction false} InstructionFaultMade(e: Env, w: Run, at: Site)
    requires FaultsBytes(w.rule.operation)
    ensures var r := Fire(DoTheInstructionFault(e, w, at), at);
            SameMachine(w, r) && r.count == w.count && r.state.Faulted? && r.control == w.control &&
            r.trail.fired == w.trail.fired + [Firing(w.trail.passed + 1, at.address)]
  {
    hide WriteMem, ReadMem, FaultBytes;
  }

  /** A fault was made and the later hooks are registered; only the primary hook is left to delete. */
  ghost predicate Prepared(w: Run, r: Run, at: Site) {
    && r.state.Faulted? && r.phase == w.phase && r.inRange == w.inRange && r.restart == w.restart
    && r.trail == w.trail.(writes := r.trail.writes, fired := [Firing(w.trail.passed + 1, at.address)])
    && r.hk.faultAddress == 0 && r.hk.faultIt == w.hk.faultIt
    && r.rule.lifespan.count == w.rule.lifespan.count
    && (r.hk.lifespan != 0 ==> 1 <= r.rule.lifespan.live <= r.rule.lifespan.count)
    && (forall i :: 12 <= i < |r.hooks| ==> !r.hooks[i].kind.FaultItRegister?)
  }

  lemma {:induction false} InstructionPrepares(e: Env, o: Origin, w: Run, at: Site)
    requires AtTheHook(e, o, w, at) && w.rule.target.Instruction?
    ensures var r := AddLifespan(AddEquivalent(e, Fire(DoTheInstructionFault(e, w, at), at)),
                                 RevertInstruction, RepeatInstruction, At({at.address}));
            LaterHooks(e, r.hooks, r.hk) && Prepared(w, r, at) && r.count == w.count && r.control.Going?
  {
    hide LaterHooks, DoTheInstructionFault, Fire, AddLifespan, AddEquivalent, SetupHooks, HandleOf, SetHandle;
    FreshHooks(e, o, w, at);
    InstructionFaultMade(e, w, at);
    var r1 := Fire(DoTheInstructionFault(e, w, at), at);
    AddsEquivalent(e, r1);
    var r2 := AddEquivalent(e, r1);
    AddsLifespan(e, r2, RevertInstruction, RepeatInstruction, At({at.address}));
    NoneBehind(e, w, r2, AddLifespan(r2, RevertInstruction, RepeatInstruction, At({at.address})));
  }

  lemma {:induction false} InstructionFires(e: Env, o: Origin, w: Run, at: Site)
    requires AtTheHook(e, o, w, at) && w.rule.target.Instruction?
    ensures Fired(e, w, at, FaultInstructionHook(e, w, at), 0)
    ensures FaultInstructionHook(e, w, at).control.StopRequested? && FaultInstructionHook(e, w, at).restart
  {
    FreshHooks(e, o, w, at);
    InstructionPrepares(e, o, w, at);
    hide LaterHooks, Fire, FaultedHooks, AddLifespan, AddEquivalent, RemoveIfSet, SetupHooks, FaultBytes, WriteMem,
         ReadMem;
    var r := AddLifespan(AddEquivalent(e, Fire(DoTheInstructionFault(e, w, at), at)),
                         RevertInstruction, RepeatInstruction, At({at.address}));
    PrimaryGone(e, RestartAt(r, ThumbAddress(e.p, at.address)), FaultItInstruction);
  }

  /** No register-fault hook was registered. */
  lemma {:induction false} NoneBehind(e: Env, w: Run, r2: Run, r3: Run)
    requires |w.hooks| == 12 <= |r2.hooks| <= |r3.hooks| && r3.hooks[..|r2.hooks|] == r2.hooks
    requires forall i :: 12 <= i < |r2.hooks| ==> !r2.hooks[i].kind.FaultItRegister?
    requires forall i :: |r2.hooks| <= i < |r3.hooks| ==> !r3.hooks[i].kind.FaultItRegister?
    ensures forall i :: 12 <= i < |r3.hooks| ==> !r3.hooks[i].kind.FaultItRegister?
  {
    assert forall i :: 0 <= i < |r2.hooks| ==> r3.hooks[i] == r3.hooks[..|r2.hooks|][i];
  }

  lemma {:induction false} AddsSkipLifespan(e: Env, r: Run, at: Site)
    requires LaterHooks(e, r.hooks, r.hk) && r.hk.lifespan == 0
    ensures var s := AddSkipLifespan(r, at);
            && LaterHooks(e, s.hooks, s.hk) && |s.hooks| >= |r.hooks| && s.hooks[..|r.hooks|] == r.hooks
            && (forall i :: |r.hooks| <= i < |s.hooks| ==> !s.hooks[i].kind.FaultItRegister?)
            && s == r.(hooks := s.hooks, hk := r.hk.(lifespan := s.hk.lifespan), rule := s.rule)
            && s.rule == r.rule.(lifespan := r.rule.lifespan.(live := s.rule.lifespan.live))
            && (s.hk.lifespan != 0 ==> 1 <= s.rule.lifespan.live == r.rule.lifespan.count)
  {
    hide LaterHooks, Install;
    HandleKinds(r.hk, RepeatIP);
    InstallLater(e, StartLifespan(r), RepeatIP, At({at.address}));
  }

  lemma {:induction false} IPPrepares(e: Env, o: Origin, w: Run, at: Site)
    requires AtTheHook(e, o, w, at) && w.rule.target.InstructionPointer?
    ensures var r := AddSkipLifespan(AddEquivalent(e, Fire(DoTheIPFault(e, w, at), at)), at);
            LaterHooks(e, r.hooks, r.hk) && Prepared(w, r, at) && r.count == w.count + 1 && r.control.PcWritten?
  {
    FreshHooks(e, o, w, at);
    hide LaterHooks, Fire, AddSkipLifespan, AddEquivalent, SetupHooks, DoTheIPFault;
    var r1 := Fire(DoTheIPFault(e, w, at), at);
    AddsEquivalent(e, r1);
    var r2 := AddEquivalent(e, r1);
    AddsSkipLifespan(e, r2, at);
    NoneBehind(e, w, r2, AddSkipLifespan(r2, at));
  }

  lemma {:induction false} IPFires(e: Env, o: Origin, w: Run, at: Site)
    requires AtTheHook(e, o, w, at) && w.rule.target.InstructionPointer?
    ensures Fired(e, w, at, FaultIPHook(e, w, at), 1)
    ensures FaultIPHook(e, w, at).control.PcWritten? && !FaultIPHook(e, w, at).restart
  {
    FreshHooks(e, o, w, at);
    IPPrepares(e, o, w, at);
    hide LaterHooks, Fire, FaultedHooks, AddSkipLifespan, AddEquivalent, RemoveIfSet, SetupHooks, WritePc;
    var r := AddSkipLifespan(AddEquivalent(e, Fire(DoTheIPFault(e, w, at), at)), at);
    PrimaryGone(e, r, FaultItIP);
  }

  lemma {:induction false} FireOnlyLogs(r: Run, at: Site)
    ensures Fire(r, at) == r.(trail := r.trail.(fired := r.trail.fired + [Firing(r.trail.passed + 1, at.address)]))
  {
  }

  // A register fault is made by a second hook, later in the same dispatch.

  /** The run when the second hook is called: the first is gone and the line has been counted. */
  ghost predicate AtTheSecondHook(e: Env, o: Origin, w: Run, v: Run) {
    && LaterHooks(e, v.hooks, v.hk) && |v.hooks| == 13
    && v.hooks[10].deletions > 0 && v.hooks[12] == Hook(FaultItRegister, Everywhere, 0)
    && v.hk.faultAddress == 0 && v.hk.faultIt == 13 && v.hk.lifespan == 0
    && v.control.Going? && v.phase.Running? && !v.restart && v.count == w.count + 1 && v.inRange
    && v.rule.operation == w.rule.operation && v.rule.lifespan == w.rule.lifespan && v.rule.target == w.rule.target
    && v.trail == w.trail && v.cpu == w.cpu
  }

  lemma {:induction false} RegisterHooksMove(e: Env, o: Origin, w: Run, at: Site)
    requires AtTheHook(e, o, w, at) && w.rule.target.Register?
    ensures AtTheSecondHook(e, o, w, Count(FaultAddressHook(w, at)))
    ensures FaultAddressHook(w, at).control.Going? && FaultAddressHook(w, at).hooks[11] == COUNT_HOOK
  {
    FreshHooks(e, o, w, at);
    hide SetupHooks;
    var v := FaultAddressHook(w, at);
    assert v.hooks[..10] == w.hooks[..10];
  }

  lemma {:induction false} RegisterFaultMade(e: Env, w: Run, at: Site)
    requires w.rule.target.Register? && Accepts(w.rule)
    ensures var r := DoTheRegisterFault(e, w, at);
            SameMachine(w, r) && r.count == w.count && r.trail == w.trail &&
            (r.control == w.control || r.control.PcWritten?)
  {
    hide WritePc, Bitwise;
  }

  lemma {:induction false} SecondGone(e: Env, r: Run)
    requires LaterHooks(e, r.hooks, r.hk) && |r.hooks| >= 13 && r.hk.faultIt == 13 && r.hk.faultAddress == 0
    requires r.hooks[10].deletions > 0
    requires forall i :: 13 <= i < |r.hooks| ==> !r.hooks[i].kind.FaultItRegister?
    requires r.hooks[12].kind.FaultItRegister?
    ensures var s := RemoveIfSet(r, FaultItRegister);
            FaultedHooks(e, s.hooks, s.hk) && s == r.(hooks := s.hooks, hk := r.hk.(faultIt := 0))
            && |s.hooks| == |r.hooks|
  {
    hide SetupHooks;
    var s := RemoveIfSet(r, FaultItRegister);
    assert s.hooks[..10] == r.hooks[..10];
  }

  /** The second hook leaves a faulted run, with its line counted, or ends it as equivalent. */
  lemma {:induction false} RegisterFires(e: Env, o: Origin, w: Run, v: Run, at: Site)
    requires AtTheHook(e, o, w, at) && w.rule.target.Register? && AtTheSecondHook(e, o, w, v)
    ensures var s := FaultRegisterHook(e, v, at);
            && |s.hooks| >= 13 && !s.restart && s.phase.Running?
            && if s.control.StopRequested?
               then s.state.EquivalentRs? && s.count >= 1 && s.trail == w.trail.(fired := [Firing(w.count, at.address)])
               else Fired(e, w, at, s, 1) && (s.control.Going? || s.control.PcWritten?)
  {
    hide LaterHooks, DoTheRegisterFault, Fire, FaultedHooks, AddLifespan, RemoveIfSet, SetupHooks, StateHashes,
         IsEquivalent, Record;
    RegisterFaultMade(e, v, at);
    FireOnlyLogs(DoTheRegisterFault(e, v, at), at);
    var r1 := Fire(DoTheRegisterFault(e, v, at), at);
    AddsLifespan(e, r1, RevertRegister, RepeatRegister, Everywhere);
    var r2 := AddLifespan(r1, RevertRegister, RepeatRegister, Everywhere).(state := Faulted);
    SecondGone(e, r2);
    SecondGone(e, RecordState(e, r2));
  }

  // ----- the whole dispatch -----

  lemma {:induction false} AtItsLine(e: Env, o: Origin, trace: seq<Cpu>, rule: FaultRule, lines: seq<Line>,
                                     classes: seq<Class<FaultRule>>, t: nat)
    requires IsGolden(e.p, trace) && t < |trace| - 1 && e.mode.FaultMode? && Accepts(rule)
    requires Fires(e, trace, rule, lines, t)
    ensures var w := Within(e, o, trace, rule, lines, classes, t);
            var at := SiteOf(e.p, trace[t]);
            && AtTheHook(e, o, w, at) && w.rule == rule && w.count == rule.instruction && w.inRange
            && Visit(e, w, at, 9) == w && IsCalled(w, at, 10)
            && w.hooks[10].kind == PrimaryKind(rule.target) && w.hooks[11] == COUNT_HOOK
  {
    hide Call;
    LineIsEntered(e.p, trace, t);
    CallerVisit(e, o, trace, rule, lines, classes, t);
    var w := Within(e, o, trace, rule, lines, classes, t);
    assert w.hooks[10] == FaultHook(e, rule, lines);
    assert w.hooks == SetupHooks(e) + [FaultHook(e, rule, lines)] + [COUNT_HOOK];
  }

  /** A run in GoesOn or IsOver with its fault logged. */
  ghost predicate HasInjected(e: Env, o: Origin, rule: FaultRule, address: nat, s: Run) {
    (GoesOn(e, s, RestartBudget(o, rule)) || IsOver(s, RestartBudget(o, rule))) &&
    s.trail.fired == [Firing(rule.instruction, address)]
  }

  lemma {:induction false} FinishFired(e: Env, o: Origin, w: Run, at: Site, s: Run, counted: nat)
    requires AtTheHook(e, o, w, at) && Fired(e, w, at, s, counted)
    requires s.control.StopRequested? ==> s.restart && counted == 0 && w.rule.target.Instruction?
    requires s.control.PcWritten? ==> !s.restart && counted == 1
    requires s.control.StopRequested? || s.control.PcWritten?
    ensures HasInjected(e, o, w.rule, at.address, Finish(e, s))
  {
    hide FaultedHooks, SetupHooks;
  }

  lemma {:induction false} RestOfRegisterDispatch(e: Env, o: Origin, w: Run, at: Site, s: Run)
    requires AtTheHook(e, o, w, at) && Fired(e, w, at, s, 1) && !s.restart && (s.control.Going? || s.control.PcWritten?)
    requires |s.hooks| >= 13
    ensures HasInjected(e, o, w.rule, at.address, Finish(e, Dispatch(e, s, at, 13)))
  {
    hide FaultedHooks, SetupHooks, Dispatch, LaterEffect;
    if s.control.PcWritten? {
      EndsThere(e, s, at, 13);
      FinishFired(e, o, w, at, s, 1);
    } else {
      LaterDispatch(e, s, at, 13);
      var r := s.(count := s.count - 1);
      assert Count(r) == s;
      LateEnd(e, r, Dispatch(e, s, at, 13), RestartBudget(o, w.rule));
    }
  }

  lemma {:induction false} RegisterCalls(e: Env, r: Run, at: Site, i: nat)
    requires i < |r.hooks| && IsCalled(r, at, i)
    ensures r.hooks[i].kind.FaultItAddress? ==> Visit(e, r, at, i) == FaultAddressHook(r, at)
    ensures r.hooks[i].kind.CountInstructions? ==> Visit(e, r, at, i) == Count(r)
    ensures r.hooks[i].kind.FaultItRegister? ==> Visit(e, r, at, i) == FaultRegisterHook(e, r, at)
  {
  }

  lemma {:induction false} ReachSecondHook(e: Env, o: Origin, w: Run, at: Site)
    requires AtTheHook(e, o, w, at) && w.rule.target.Register?
    requires |w.hooks| == 12 && IsCalled(w, at, 10) && w.hooks[10].kind.FaultItAddress?
    ensures var v := Count(FaultAddressHook(w, at));
            && AtTheSecondHook(e, o, w, v)
            && |FaultRegisterHook(e, v, at).hooks| >= 13
            && Dispatch(e, w, at, 10) == Dispatch(e, FaultRegisterHook(e, v, at), at, 13)
  {
    RegisterHooksMove(e, o, w, at);
    hide SetupHooks, Dispatch, Visit, LaterHooks, FaultRegisterHook, FaultAddressHook, AtTheHook, Count;
    var u := FaultAddressHook(w, at);
    RegisterCalls(e, w, at, 10);
    RegisterCalls(e, u, at, 11);
    RegisterCalls(e, Count(u), at, 12);
    OneVisit(e, w, at, 10);
    OneVisit(e, u, at, 11);
    OneVisit(e, Count(u), at, 12);
  }

  lemma {:induction false} RegisterDispatch(e: Env, o: Origin, w: Run, at: Site)
    requires AtTheHook(e, o, w, at) && w.rule.target.Register?
    requires |w.hooks| == 12 && IsCalled(w, at, 10) && w.hooks[10].kind.FaultItAddress?
    ensures HasInjected(e, o, w.rule, at.address, Finish(e, Dispatch(e, w, at, 10)))
  {
    hide SetupHooks, Dispatch, AtTheSecondHook, FaultRegisterHook, FaultAddressHook, AtTheHook, HasFaulted, Fired,
         GoesOn;
    ReachSecondHook(e, o, w, at);
    var v := Count(FaultAddressHook(w, at));
    RegisterFires(e, o, w, v, at);
    var s := FaultRegisterHook(e, v, at);
    if s.control.StopRequested? {
      EndsThere(e, s, at, 13);
      WithinBudget(e, o, w, at);
    } else {
      RestOfRegisterDispatch(e, o, w, at, s);
    }
  }

  lemma {:induction false} WithinBudget(e: Env, o: Origin, w: Run, at: Site)
    requires AtTheHook(e, o, w, at)
    ensures w.trail.restarts <= RestartBudget(o, w.rule) && w.rule.instruction == w.count
  {
  }

  /** The dispatch of the rule's line injects the fault. */
  lemma {:induction false} LineInjects(e: Env, o: Origin, trace: seq<Cpu>, rule: FaultRule, lines: seq<Line>,
                                       classes: seq<Class<FaultRule>>, t: nat)
    requires IsGolden(e.p, trace) && t < |trace| - 1 && e.mode.FaultMode? && Accepts(rule)
    requires o.Restored? || !RestoresCheckpoint(e, rule, lines)
    requires Fires(e, trace, rule, lines, t)
    ensures HasInjected(e, o, rule, Pc(e.p, trace[t]), Step(e, Before(e, o, trace, rule, lines, classes, t)))
  {
    hide Dispatch, Visit, SetupHooks, AtTheHook, HasInjected, RestoresCheckpoint, FaultInstructionHook, FaultIPHook;
    ReachWithin(e, o, trace, rule, lines, classes, t);
    InjectsFrom(e, o, trace, rule, lines, classes, t);
  }

  lemma {:induction false} InjectsFrom(e: Env, o: Origin, trace: seq<Cpu>, rule: FaultRule, lines: seq<Line>,
                                       classes: seq<Class<FaultRule>>, t: nat)
    requires IsGolden(e.p, trace) && t < |trace| - 1 && e.mode.FaultMode? && Accepts(rule)
    requires Fires(e, trace, rule, lines, t)
    ensures var w := Within(e, o, trace, rule, lines, classes, t);
            HasInjected(e, o, rule, Pc(e.p, trace[t]), Finish(e, Dispatch(e, w, SiteOf(e.p, trace[t]), 9)))
  {
    hide Dispatch, SetupHooks, AtTheHook, HasInjected, FaultInstructionHook, FaultIPHook, FaultAddressHook, Finish,
         Fired;
    var at, w := SiteOf(e.p, trace[t]), Within(e, o, trace, rule, lines, classes, t);
    AtItsLine(e, o, trace, rule, lines, classes, t);
    OneVisit(e, w, at, 9);
    match rule.target
    case Register => RegisterDispatch(e, o, w, at);
    case Instruction =>
      OneVisit(e, w, at, 10);
      InstructionFires(e, o, w, at);
      var s := FaultInstructionHook(e, w, at);
      EndsThere(e, s, at, 11);
      FinishFired(e, o, w, at, s, 0);
    case InstructionPointer =>
      OneVisit(e, w, at, 10);
      IPFires(e, o, w, at);
      var s := FaultIPHook(e, w, at);
      EndsThere(e, s, at, 11);
      FinishFired(e, o, w, at, s, 1);
  }
}

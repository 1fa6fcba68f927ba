/** A run after its primary fault, on whatever the faulted program does. */
module Aftermath {
  import opened Utils
  import opened Machine
  import opened Equivalence
  import opened Hooks
  import opened GoldenRun

  /** The hooks a run can still have live behind its counting hook once it has faulted. */
  predicate IsLater(kind: HookKind) {
    kind.RevertRegister? || kind.RepeatRegister? || kind.RevertInstruction? || kind.RepeatInstruction? ||
    kind.RepeatIP? || kind.Equivalent?
  }

  predicate IsLifespan(kind: HookKind) {
    IsLater(kind) && !kind.Equivalent?
  }

  /** The hooks of a run whose primary fault is being made: the counting hook is live, and the hooks
      behind it have their handles. */
  ghost predicate LaterHooks(e: Env, hooks: seq<Hook>, hk: Handles) {
    && |hooks| >= 12 && hooks[..10] == SetupHooks(e) && hooks[11] == COUNT_HOOK && hk.countInstructions == 12
    && (forall i :: 12 <= i < |hooks| && hooks[i].deletions == 0 && !hooks[i].kind.FaultItRegister? ==>
          IsLater(hooks[i].kind) && HandleOf(hk, hooks[i].kind) == i + 1)
    && (hk.lifespan != 0 ==> 12 < hk.lifespan <= |hooks| && IsLifespan(hooks[hk.lifespan - 1].kind)
                             && hooks[hk.lifespan - 1].deletions == 0)
    && (hk.equivalent != 0 ==> 12 < hk.equivalent <= |hooks| && hooks[hk.equivalent - 1].kind.Equivalent?)
  }

  /** The hooks of a run that has faulted: the hooks that made the fault are gone. */
  ghost predicate FaultedHooks(e: Env, hooks: seq<Hook>, hk: Handles) {
    && LaterHooks(e, hooks, hk) && hk.faultAddress == 0 && hk.faultIt == 0
    && hooks[10].deletions > 0
    && (forall i :: 12 <= i < |hooks| && hooks[i].kind.FaultItRegister? ==> hooks[i].deletions > 0)
  }

  /** After the primary fault and while the run goes on.  A lifespan hook's counter is positive. */
  ghost predicate HasFaulted(e: Env, r: Run) {
    && e.mode.FaultMode? && r.state.Faulted? && r.count >= 1
    && FaultedHooks(e, r.hooks, r.hk)
    && (r.hk.lifespan != 0 ==> 1 <= r.rule.lifespan.live <= r.rule.lifespan.count)
  }

  function FlagAt(e: Env, inRange: bool, a: nat): bool {
    a != e.p.faultEnd && (a == e.p.faultStart || inRange)
  }

  lemma {:induction false} StopVisits(e: Env, r: Run, at: Site)
    requires HasFaulted(e, r)
    ensures at.address == e.p.codeEnd ==> Visit(e, r, at, 3) == AtEndAddress(r)
    ensures at.address in e.p.skips ==> Visit(e, r, at, 5) == AtSkip(e, r, at)
    ensures at.address in e.p.hardStops ==> Visit(e, r, at, 8) == AtHardStop(e, r)
  {
    hide AtSkip, AtEndAddress, AtHardStop;
    assert forall i :: 0 <= i < 10 ==> r.hooks[i] == r.hooks[..10][i];
  }

  lemma {:induction false} QuietVisits(e: Env, r: Run, at: Site)
    requires HasFaulted(e, r)
    ensures Visit(e, r, at, 4) == r && Visit(e, r, at, 9) == r && Visit(e, r, at, 10) == r
    ensures Visit(e, r, at, 11) == Count(r)
  {
    hide Count;
    assert forall i :: 0 <= i < 10 ==> r.hooks[i] == r.hooks[..10][i];
  }

  lemma {:induction false} FlagVisits(e: Env, r: Run, at: Site)
    requires HasFaulted(e, r)
    ensures var r1 := Visit(e, r, at, 6);
            |r1.hooks| == |r.hooks| && r1.control == r.control &&
            Visit(e, r1, at, 7) == r.(inRange := FlagAt(e, r.inRange, at.address))
  {
    assert r.hooks[6] == r.hooks[..10][6] == SetupHooks(e)[6];
    assert r.hooks[7] == r.hooks[..10][7] == SetupHooks(e)[7];
    assert Visit(e, r, at, 6) == if at.address == e.p.faultStart then r.(inRange := true) else r;
  }

  /** The part of a dispatch up to the counting hook. */
  lemma {:induction false} FaultedPrefix(e: Env, r: Run, at: Site)
    requires HasFaulted(e, r) && r.control.Going?
    ensures var d := Dispatch(e, r, at, 0);
            var r1 := r.(inRange := FlagAt(e, r.inRange, at.address));
            if at.address == e.p.codeEnd then d == AtEndAddress(r)
            else if at.address in e.p.skips then d == AtSkip(e, r, at)
            else if at.address in e.p.hardStops then d == AtHardStop(e, r1)
            else d == Dispatch(e, Count(r1), at, 12)
  {
    hide Visit, Dispatch, AtSkip, SetupHooks;
    StopVisits(e, r, at);
    QuietVisits(e, r, at);
    FlagVisits(e, r, at);
    forall k | 0 <= k < 3 ensures Visit(e, r, at, k) == r { QuietVisit(e, r, at, k); }
    Idle(e, r, at, 0, 3);
    OneVisit(e, r, at, 3);
    if at.address == e.p.codeEnd {
      EndsThere(e, AtEndAddress(r), at, 4);
    } else {
      QuietVisit(e, r, at, 3);
      OneVisit(e, r, at, 4);
      OneVisit(e, r, at, 5);
      if at.address in e.p.skips {
        SkipEnds(e, r, at);
        EndsThere(e, AtSkip(e, r, at), at, 6);
      } else {
        QuietVisit(e, r, at, 5);
        OneVisit(e, r, at, 6);
        OneVisit(e, Visit(e, r, at, 6), at, 7);
        var r1 := r.(inRange := FlagAt(e, r.inRange, at.address));
        assert HasFaulted(e, r1);
        StopVisits(e, r1, at);
        QuietVisits(e, r1, at);
        OneVisit(e, r1, at, 8);
        if at.address in e.p.hardStops {
          EndsThere(e, AtHardStop(e, r1), at, 9);
        } else {
          QuietVisit(e, r1, at, 8);
          OneVisit(e, r1, at, 9);
          OneVisit(e, r1, at, 10);
          OneVisit(e, r1, at, 11);
        }
      }
    }
  }

  lemma {:induction false} SkipEnds(e: Env, r: Run, at: Site)
    ensures AtSkip(e, r, at).hooks == r.hooks && AtSkip(e, r, at).control.Skipped?
  {
  }

  lemma {:induction false} EndsThere(e: Env, r: Run, at: Site, i: nat)
    requires i <= |r.hooks| && !r.control.Going?
    ensures Dispatch(e, r, at, i) == r
  {
  }

  // ----- the hooks behind the counting hook -----

  /** The faults the lifespan can still cause. */
  function Remaining(r: Run): nat {
    if r.hk.lifespan != 0 then r.rule.lifespan.live else 0
  }

  /** What a hook behind the counting hook may do to a run: go on, with the count in step; ask for a
      restart, with the count set back and one fault less to come; or end the run. */
  ghost predicate LaterEffect(e: Env, r: Run, s: Run) {
    && |s.hooks| == |r.hooks| && s.phase == r.phase && s.inRange == r.inRange
    && s.trail.passed == r.trail.passed && s.trail.restarts == r.trail.restarts && s.trail.fired == r.trail.fired
    && match s.control
       case Going => HasFaulted(e, s) && !s.restart && s.count == r.count && s.trail.drift == r.trail.drift
                     && Remaining(s) <= Remaining(r)
       case PcWritten => HasFaulted(e, s) && !s.restart && s.count - s.trail.drift == r.count - r.trail.drift
                         && Remaining(s) <= Remaining(r)
       case StopRequested =>
         if s.restart
         then HasFaulted(e, s) && s.count == r.count - 1
              && s.trail.drift == r.trail.drift - (if r.inRange then 0 else 1)
              && Remaining(s) < Remaining(r)
         else s.state.EquivalentRs? && s.count >= 1
       case Aborted => true
       case Skipped => false
  }

  /** A live hook behind the counting hook, about to be called. */
  ghost predicate AboutToCall(e: Env, r: Run, i: nat, kind: HookKind) {
    HasFaulted(e, r) && r.control.Going? && !r.restart && 12 <= i < |r.hooks| &&
    r.hooks[i].deletions == 0 && r.hooks[i].kind == kind
  }

  lemma {:induction false} RemoveLater(e: Env, r: Run, i: nat, kind: HookKind)
    requires FaultedHooks(e, r.hooks, r.hk) && 12 <= i < |r.hooks|
    requires r.hooks[i].deletions == 0 && r.hooks[i].kind == kind
    ensures HandleOf(r.hk, kind) == i + 1
    ensures var s := Remove(r, kind);
            FaultedHooks(e, s.hooks, s.hk) && |s.hooks| == |r.hooks| && HandleOf(s.hk, kind) == 0
            && s == r.(hooks := s.hooks, hk := s.hk) && (kind.Equivalent? ==> s.hk.lifespan == r.hk.lifespan)
  {
    hide SetupHooks;
    assert IsLater(kind);
  }

  lemma {:induction false} RevertRegisterEffect(e: Env, r: Run, at: Site, i: nat)
    requires AboutToCall(e, r, i, RevertRegister)
    ensures LaterEffect(e, r, RevertRegisterHook(e, r, at))
  {
    hide WritePc, FaultedHooks, LifespanNotStarted, Remove;
    RemoveLater(e, r, i, RevertRegister);
    var r1 := WriteRegister(e, CountDown(r), r.rule.number, r.rule.lifespan.originalValue);
    RemoveLater(e, r1, i, RevertRegister);
  }

  lemma {:induction false} RepeatRegisterEffect(e: Env, r: Run, at: Site, i: nat)
    requires AboutToCall(e, r, i, RepeatRegister)
    ensures LaterEffect(e, r, RepeatRegisterHook(e, r, at))
  {
    hide WritePc, FaultedHooks, LifespanNotStarted, FaultReg, Remove;
    RemoveLater(e, r, i, RepeatRegister);
    RemoveLater(e, DoTheRegisterFault(e, CountDown(r), at), i, RepeatRegister);
  }

  lemma {:induction false} RevertInstructionEffect(e: Env, r: Run, at: Site, i: nat)
    requires AboutToCall(e, r, i, RevertInstruction)
    ensures LaterEffect(e, r, RevertInstructionHook(e, r, at))
  {
    hide WriteMem, FaultedHooks, Remove;
    RemoveLater(e, r, i, RevertInstruction);
    var r1 := ToolWrites(e, CountDown(r), ThumbCheck(e.p, LineAt(r.lines, r.rule.instruction).address),
                         r.rule.lifespan.originalBytes);
    RemoveLater(e, r1, i, RevertInstruction);
    assert Remove(r1, RevertInstruction).hk.faultIt == 0 by { FaultIsOver(e, Remove(r1, RevertInstruction)); }
  }

  lemma {:induction false} FaultIsOver(e: Env, r: Run)
    requires FaultedHooks(e, r.hooks, r.hk)
    ensures r.hk.faultIt == 0
  {
  }

  lemma {:induction false} RepeatInstructionEffect(e: Env, r: Run, at: Site, i: nat)
    requires AboutToCall(e, r, i, RepeatInstruction)
    ensures LaterEffect(e, r, RepeatInstructionHook(e, r, at))
  {
    hide WriteMem, FaultBytes, ReadMem, FaultedHooks, Remove;
    RemoveLater(e, r, i, RepeatInstruction);
    RemoveLater(e, CountDown(DoTheInstructionFault(e, r, at)), i, RepeatInstruction);
  }

  lemma {:induction false} RepeatIPEffect(e: Env, r: Run, at: Site, i: nat)
    requires AboutToCall(e, r, i, RepeatIP)
    ensures LaterEffect(e, r, RepeatIPHook(e, r, at))
  {
    hide WritePc, FaultedHooks, Remove;
    RemoveLater(e, r, i, RepeatIP);
    var r1 := DoTheIPFault(e, CountDown(r), at);
    RemoveLater(e, r1.(trail := r1.trail.(drift := r1.trail.drift + 1)), i, RepeatIP);
  }

  lemma {:induction false} EquivalentEffect(e: Env, r: Run, i: nat)
    requires AboutToCall(e, r, i, Equivalent)
    ensures LaterEffect(e, r, CheckEquivalent(e, r))
  {
    hide StateHashes, IsEquivalent, Record, FaultedHooks, Remove;
    RemoveLater(e, RecordState(e, r), i, Equivalent);
  }

  lemma {:induction false} LaterVisit(e: Env, r: Run, at: Site, i: nat)
    requires HasFaulted(e, r) && r.control.Going? && !r.restart && 12 <= i < |r.hooks|
    ensures LaterEffect(e, r, Visit(e, r, at, i))
  {
    hide HasFaulted, RevertRegisterHook, RepeatRegisterHook, RevertInstructionHook, RepeatInstructionHook, RepeatIPHook,
         CheckEquivalent;
    if IsCalled(r, at, i) {
      assert IsLater(r.hooks[i].kind) by { Behind(e, r, i); }
      match r.hooks[i].kind
      case RevertRegister => RevertRegisterEffect(e, r, at, i);
      case RepeatRegister => RepeatRegisterEffect(e, r, at, i);
      case RevertInstruction => RevertInstructionEffect(e, r, at, i);
      case RepeatInstruction => RepeatInstructionEffect(e, r, at, i);
      case RepeatIP => RepeatIPEffect(e, r, at, i);
      case Equivalent => EquivalentEffect(e, r, i);
    }
  }

  lemma {:induction false} Behind(e: Env, r: Run, i: nat)
    requires HasFaulted(e, r) && 12 <= i < |r.hooks| && r.hooks[i].deletions == 0
    ensures IsLater(r.hooks[i].kind)
  {
  }

  /** All the hooks behind the counting hook. */
  lemma {:induction false} LaterDispatch(e: Env, r: Run, at: Site, i: nat)
    requires HasFaulted(e, r) && r.control.Going? && !r.restart && 12 <= i <= |r.hooks|
    ensures LaterEffect(e, r, Dispatch(e, r, at, i))
    decreases |r.hooks| - i
  {
    hide HasFaulted, Visit;
    if i < |r.hooks| {
      OneVisit(e, r, at, i);
      LaterVisit(e, r, at, i);
      var s := Visit(e, r, at, i);
      if s.control.Going? {
        LaterDispatch(e, s, at, i + 1);
      } else if i + 1 <= |s.hooks| {
        EndsThere(e, s, at, i + 1);
      }
    }
  }

  // ----- whole steps -----

  /** Faulted and going on: the numbering holds up to the drift, and no more restarts can come than
      the budget has left. */
  ghost predicate GoesOn(e: Env, r: Run, budget: nat) {
    && HasFaulted(e, r) && r.count == r.trail.passed + 1 + r.trail.drift
    && r.trail.restarts + Remaining(r) + (if r.restart then 1 else 0) <= budget
    && ((r.phase.Running? && r.control.Going? && !r.restart) || (r.phase.Stopped? && r.restart))
  }

  /** No further segment.  The count the tool reports is what my_uc_engine_start leaves: the number
      of instructions the run went past, up to the drift. */
  ghost predicate IsOver(r: Run, budget: nat) {
    && r.trail.restarts <= budget
    && (r.phase.Ended? || (r.phase.Stopped? && !r.restart && r.count >= 1))
    && (r.control.Aborted? || r.state.EquivalentRs? ||
        r.count == r.trail.passed + r.trail.drift + if r.phase.Stopped? then 1 else 0)
  }

  lemma {:induction false} OverStaysOver(e: Env, r: Run, budget: nat)
    requires IsOver(r, budget)
    ensures IsOver(Step(e, r), budget) && Step(e, r).trail == r.trail
  {
  }

  lemma {:induction false} CountingKeeps(e: Env, r: Run, b: bool)
    requires HasFaulted(e, r)
    ensures HasFaulted(e, r.(inRange := b)) && HasFaulted(e, Count(r.(inRange := b)))
  {
    hide FaultedHooks;
  }

  /** The dispatch stopped or skipped before its instruction was counted. */
  lemma {:induction false} EarlyEnd(e: Env, r: Run, at: Site, budget: nat)
    requires GoesOn(e, r, budget) && r.phase.Running?
    ensures IsOver(AtEndAddress(r).(phase := Stopped), budget) && IsOver(AtHardStop(e, r).(phase := Stopped), budget)
    ensures AtEndAddress(r).control.StopRequested? && AtHardStop(e, r).control.StopRequested?
    ensures AtEndAddress(r).trail == AtHardStop(e, r).trail == r.trail
    ensures GoesOn(e, AtSkip(e, r, at).(control := Going), budget) && AtSkip(e, r, at).control.Skipped?
    ensures AtSkip(e, r, at).trail == r.trail
  {
    hide FaultedHooks, WritePc;
  }

  /** After the hooks behind the counting hook. */
  lemma {:induction false} LateEnd(e: Env, r: Run, s: Run, budget: nat)
    requires GoesOn(e, r, budget) && r.phase.Running?
    requires LaterEffect(e, Count(r), s)
    ensures (GoesOn(e, Finish(e, s), budget) || IsOver(Finish(e, s), budget))
    ensures Finish(e, s).trail.fired == r.trail.fired
  {
    hide FaultedHooks;
  }

  lemma {:induction false} FaultedStep(e: Env, r: Run, budget: nat)
    requires GoesOn(e, r, budget)
    ensures GoesOn(e, Step(e, r), budget) || IsOver(Step(e, r), budget)
    ensures Step(e, r).trail.fired == r.trail.fired
  {
    hide FaultedHooks, Dispatch, AtEndAddress, AtHardStop, AtSkip, LaterEffect;
    if r.phase.Running? {
      var at := SiteOf(e.p, r.cpu);
      var r1 := r.(inRange := FlagAt(e, r.inRange, at.address));
      FaultedPrefix(e, r, at);
      CountingKeeps(e, r, r1.inRange);
      EarlyEnd(e, r, at, budget);
      EarlyEnd(e, r1, at, budget);
      if at.address != e.p.codeEnd && at.address !in e.p.skips && at.address !in e.p.hardStops {
        assert |r1.hooks| >= 12 by { Behind12(e, r1); }
        LaterDispatch(e, Count(r1), at, 12);
        LateEnd(e, r1, Dispatch(e, r, at, 0), budget);
      }
    }
  }

  lemma {:induction false} Behind12(e: Env, r: Run)
    requires HasFaulted(e, r)
    ensures |r.hooks| >= 12
  {
  }

  /** On any program, a faulted run never fires again, keeps its numbering up to the drift, and
      restarts no more often than its budget. */
  lemma {:induction false} FaultedSteps(e: Env, r: Run, budget: nat, n: nat)
    requires GoesOn(e, r, budget) || IsOver(r, budget)
    ensures GoesOn(e, Steps(e, r, n), budget) || IsOver(Steps(e, r, n), budget)
    ensures Steps(e, r, n).trail.fired == r.trail.fired
  {
    hide GoesOn, IsOver, Step;
    if n > 0 {
      FaultedSteps(e, r, budget, n - 1);
      var s := Steps(e, r, n - 1);
      if GoesOn(e, s, budget) {
        FaultedStep(e, s, budget);
      } else {
        OverStaysOver(e, s, budget);
      }
    }
  }
}

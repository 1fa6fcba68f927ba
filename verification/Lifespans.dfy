/** How long a reverted instruction fault lives, and what the tool writes to the program's memory. */
module Lifespans {
  import opened Utils
  import opened Machine
  import opened Equivalence
  import opened Hooks
  import opened GoldenRun
  import opened StatsRun
  import opened Aftermath
  import opened Injection
  import opened ExactlyOnce

  /** A revert rule at work: its line, its count, the position of its lifespan hook, the write that
      made the fault, and the bytes it replaced. */
  datatype Reversion = Reversion(line: nat, count: nat, hook: nat, fault: ToolWrite, original: Bytes)

  /** The lifespan hook is the last one, behind at most an equivalence hook. */
  ghost predicate HookIsLast(r: Run, v: Reversion) {
    && |r.hooks| == v.hook + 1 && r.hooks[v.hook] == Hook(RevertInstruction, Everywhere, r.hooks[v.hook].deletions)
    && (v.hook == 12 || (v.hook == 13 && r.hooks[12].kind.Equivalent?))
  }

  /** What stays the same from the fault on. */
  ghost predicate Follows(e: Env, r: Run, v: Reversion) {
    && HookIsLast(r, v) && r.hk.equivalent != v.hook + 1 && r.rule.instruction == v.line
    && r.rule.lifespan.count == v.count
    && v.fault.passed + 1 == v.line && v.fault.address == ThumbCheck(e.p, LineAt(r.lines, v.line).address)
  }

  /** In-range instructions gone past since the fault, as the countdown sees them. */
  function Lived(v: Reversion, count: nat): nat {
    if count <= v.line + 1 then 0 else count - (v.line + 1)
  }

  /** The faulted bytes are in place.  exact: no instruction outside the fault range was dispatched. */
  ghost predicate Living(e: Env, r: Run, v: Reversion, exact: bool) {
    && Follows(e, r, v) && r.hk.lifespan == v.hook + 1 && r.hooks[v.hook].deletions == 0
    && r.trail.writes == [v.fault] && r.rule.lifespan.originalBytes == v.original
    && r.trail.drift == 0 && r.count >= v.line
    && r.rule.lifespan.live + Lived(v, r.count) <= v.count
    && (exact ==> r.rule.lifespan.live + Lived(v, r.count) == v.count)
  }

  /** The original bytes were written back, once, and the hook deleted, once. */
  ghost predicate Reverted(e: Env, r: Run, v: Reversion, exact: bool) {
    && Follows(e, r, v) && r.hk.lifespan == 0 && r.hooks[v.hook].deletions == 1
    && |r.trail.writes| == 2 && r.trail.writes[0] == v.fault
    && var back := r.trail.writes[1];
       back.address == v.fault.address && back.bytes == v.original
       && v.fault.passed < back.passed <= v.fault.passed + v.count
       && (exact ==> back.passed == v.fault.passed + v.count)
  }

  /** The run is over, with the faulted bytes still in place. */
  ghost predicate EndedAlive(e: Env, r: Run, v: Reversion) {
    && Follows(e, r, v) && r.trail.writes == [v.fault] && r.hooks[v.hook].deletions == 0
    && (r.phase.Ended? || (r.phase.Stopped? && !r.restart))
  }

  // ----- one dispatch -----

  /** Within a dispatch, after counting and before the lifespan hook. */
  ghost predicate AboutToLive(e: Env, r: Run, v: Reversion, was: nat, exact: bool) {
    && Follows(e, r, v) && r.hk.lifespan == v.hook + 1 && r.hooks[v.hook].deletions == 0 && r.hk.faultIt == 0
    && r.trail.writes == [v.fault] && r.rule.lifespan.originalBytes == v.original && r.trail.drift == 0
    && !r.restart && r.control.Going?
    && was >= v.line && r.count == was + (if r.inRange then 1 else 0) && r.trail.passed + 1 == was
    && 1 <= r.rule.lifespan.live && r.rule.lifespan.live + Lived(v, was) <= v.count
    && (exact ==> r.rule.lifespan.live + Lived(v, was) == v.count)
  }

  lemma {:induction false} RevertEffect(e: Env, r: Run, at: Site, v: Reversion)
    requires Follows(e, r, v) && r.hk.lifespan == v.hook + 1 && r.hooks[v.hook].deletions == 0 && r.hk.faultIt == 0
    requires r.count > v.line + 1 && r.rule.lifespan.live == 1 && r.trail.writes == [v.fault]
    requires r.rule.lifespan.originalBytes == v.original
    ensures var s := RevertInstructionHook(e, r, at);
            && Follows(e, s, v) && s.hk.lifespan == 0 && s.hooks[v.hook].deletions == 1 && s.restart
            && s.inRange == r.inRange && s.control.StopRequested?
            && s.trail.writes == [v.fault, ToolWrite(r.trail.passed, v.fault.address, v.original)]
  {
    hide WriteMem;
  }

  lemma {:induction false} RevertCall(e: Env, r: Run, at: Site, v: Reversion, was: nat, exact: bool)
    requires AboutToLive(e, r, v, was, exact)
    ensures var s := RevertInstructionHook(e, r, at);
            && (s.restart ==> Reverted(e, s, v, exact && r.inRange))
            && (!s.restart ==> Living(e, s, v, exact && r.inRange) && s.control.Going?)
            && s.inRange == r.inRange && (s.restart ==> s.control.StopRequested?)
  {
    if r.count > v.line + 1 && r.rule.lifespan.live == 1 {
      RevertEffect(e, r, at, v);
      hide RevertInstructionHook;
    } else {
      hide WriteMem, Remove;
    }
  }

  lemma {:induction false} EquivalentVisit(e: Env, r: Run, at: Site, v: Reversion, was: nat, exact: bool)
    requires AboutToLive(e, r, v, was, exact) && v.hook == 13 && FaultedHooks(e, r.hooks, r.hk)
    ensures var s := Visit(e, r, at, 12);
            && Follows(e, s, v) && s.trail == r.trail && s.restart == r.restart && s.inRange == r.inRange
            && s.hooks[v.hook].deletions == 0 && |s.hooks| == 14 && s.hooks[13] == r.hooks[13]
            && (s.control.Going? ==> AboutToLive(e, s, v, was, exact))
            && (s.control.Going? || s.control.StopRequested?)
  {
    hide StateHashes, Record, Known, SetupHooks;
  }

  lemma {:induction false} RevertVisit(e: Env, r: Run, at: Site, v: Reversion, was: nat, exact: bool)
    requires AboutToLive(e, r, v, was, exact)
    ensures Visit(e, r, at, v.hook) == RevertInstructionHook(e, r, at)
  {
    hide RevertInstructionHook;
  }

  /** A dispatch from the hooks behind the counting hook on. */
  lemma {:induction false} LivingDispatch(e: Env, r: Run, at: Site, v: Reversion, was: nat, exact: bool)
    requires AboutToLive(e, r, v, was, exact) && FaultedHooks(e, r.hooks, r.hk)
    ensures var d := Dispatch(e, r, at, 12);
            && d.inRange == r.inRange
            && (d.restart ==> Reverted(e, d, v, exact && r.inRange))
            && (!d.restart && d.control.Going? ==> Living(e, d, v, exact && r.inRange))
            && (!d.restart && !d.control.Going? ==>
                  Follows(e, d, v) && d.trail.writes == [v.fault] && d.hooks[v.hook].deletions == 0
                    && d.control.StopRequested?)
  {
    hide Visit, RevertInstructionHook, FaultedHooks, Dispatch, LineAt;
    OneVisit(e, r, at, 12);
    var r1 := if v.hook == 12 then r else Visit(e, r, at, 12);
    if v.hook == 13 {
      EquivalentVisit(e, r, at, v, was, exact);
      if r1.control.Going? {
        OneVisit(e, r1, at, 13);
      } else {
        EndsThere(e, r1, at, 13);
      }
    }
    if r1.control.Going? {
      RevertVisit(e, r1, at, v, was, exact);
      RevertCall(e, r1, at, v, was, exact);
      NothingBehind(e, RevertInstructionHook(e, r1, at), at);
    }
  }

  lemma {:induction false} NothingBehind(e: Env, r: Run, at: Site)
    ensures Dispatch(e, r, at, |r.hooks|) == r
  {
  }

  lemma {:induction false} CountsForLiving(e: Env, r: Run, v: Reversion, exact: bool, budget: nat, b: bool)
    requires Living(e, r, v, exact) && GoesOn(e, r, budget) && r.phase.Running?
    ensures AboutToLive(e, Count(r.(inRange := b)), v, r.count, exact) && FaultedHooks(e, r.hooks, r.hk)
    ensures Count(r.(inRange := b)).hooks == r.hooks && Count(r.(inRange := b)).hk == r.hk
    ensures Count(r.(inRange := b)).inRange == b && r.control.Going? && HasFaulted(e, r) && e.mode.FaultMode?
    ensures !r.restart
  {
    hide LineAt, SetupHooks;
  }

  /** A dispatch that stops or skips before its instruction is counted. */
  lemma {:induction false} EarlyStops(e: Env, r: Run, at: Site, v: Reversion)
    requires Follows(e, r, v) && !r.restart && r.hooks[v.hook].deletions == 0 && FaultedHooks(e, r.hooks, r.hk)
    ensures var s := AtEndAddress(r);
            Follows(e, s, v) && s.trail == r.trail && s.hooks[v.hook].deletions == 0 && !s.restart
              && s.control.StopRequested?
    ensures e.mode.FaultMode? ==>
            var s := AtHardStop(e, r);
            Follows(e, s, v) && s.trail == r.trail && s.hooks[v.hook].deletions == 0 && !s.restart
              && s.control.StopRequested?
  {
    hide LineAt, SetupHooks;
  }

  lemma {:induction false} LivingSkips(e: Env, r: Run, at: Site, v: Reversion, exact: bool)
    requires Living(e, r, v, exact)
    ensures var s := AtSkip(e, r, at);
            Living(e, s.(control := Going), v, exact) && s.inRange == r.inRange && s.control.Skipped?
  {
    hide LineAt, WritePc;
  }

  lemma {:induction false} LivingFinish(e: Env, d: Run, v: Reversion, exact: bool)
    ensures var s := Finish(e, d);
            && (Living(e, d, v, exact) && d.control.Going? ==> Living(e, s, v, exact))
            && (Reverted(e, d, v, exact) ==> Reverted(e, s, v, exact))
            && (Follows(e, d, v) ==> Follows(e, s, v))
            && s.inRange == d.inRange && s.trail.writes == d.trail.writes && s.hooks == d.hooks
            && s.restart == d.restart
            && (d.control.StopRequested? ==> s.phase.Stopped?)
  {
    hide LineAt, Finish;
    FinishKeepsIt(e, d);
  }

  lemma {:induction false} FinishKeepsIt(e: Env, d: Run)
    ensures var s := Finish(e, d);
            && s.hooks == d.hooks && s.hk == d.hk && s.rule == d.rule && s.lines == d.lines && s.count == d.count
            && s.inRange == d.inRange && s.restart == d.restart
            && s.trail.writes == d.trail.writes && s.trail.drift == d.trail.drift
            && (d.control.StopRequested? ==> s.phase.Stopped?)
  {
  }

  lemma {:induction false} LivingFollows(e: Env, r: Run, v: Reversion, exact: bool, b: bool)
    requires Living(e, r, v, exact)
    ensures Follows(e, r, v) && Follows(e, r.(inRange := b), v) && r.trail.writes == [v.fault]
    ensures r.hooks[v.hook].deletions == 0
    ensures Living(e, r, v, false)
  {
  }

  lemma {:induction false} FinishSkip(e: Env, d: Run)
    requires d.control.Skipped?
    ensures Finish(e, d) == d.(control := Going)
  {
  }

  lemma {:induction false} LivingStep(e: Env, r: Run, v: Reversion, exact: bool, budget: nat)
    requires Living(e, r, v, exact) && GoesOn(e, r, budget) && r.phase.Running?
    ensures var s := Step(e, r);
            Living(e, s, v, exact && s.inRange) || Reverted(e, s, v, exact && s.inRange) || EndedAlive(e, s, v)
  {
    hide Dispatch, FaultedHooks, AtEndAddress, AtHardStop, AtSkip, Count, Finish, LineAt, Living, Reverted, Follows,
         HasFaulted;
    var at := SiteOf(e.p, r.cpu);
    var r1 := r.(inRange := FlagAt(e, r.inRange, at.address));
    CountsForLiving(e, r, v, exact, budget, r1.inRange);
    FaultedPrefix(e, r, at);
    var d := Dispatch(e, r, at, 0);
    LivingFollows(e, r, v, exact, r1.inRange);
    EarlyStops(e, r, at, v);
    EarlyStops(e, r1, at, v);
    LivingFinish(e, d, v, exact && d.inRange);
    if at.address == e.p.codeEnd {
    } else if at.address in e.p.skips {
      LivingSkips(e, r, at, v, exact);
      FinishSkip(e, d);
      if exact && !r.inRange {
        LivingFollows(e, d.(control := Going), v, exact, true);
      }
    } else if at.address in e.p.hardStops {
    } else {
      LivingDispatch(e, Count(r1), at, v, r.count, exact);
      LivingFinish(e, d, v, exact && r1.inRange);
    }
  }

  // ----- after the revert -----

  lemma {:induction false} RevertedChecks(e: Env, r: Run, v: Reversion, exact: bool)
    requires Reverted(e, r, v, exact)
    ensures Reverted(e, CheckEquivalent(e, r), v, exact)
  {
    hide StateHashes, Record, Known, LineAt;
  }

  lemma {:induction false} RevertedVisit(e: Env, r: Run, at: Site, v: Reversion, exact: bool, i: nat)
    requires Reverted(e, r, v, exact) && 12 <= i < |r.hooks|
    ensures Reverted(e, Visit(e, r, at, i), v, exact)
  {
    hide CheckEquivalent, LineAt;
    RevertedChecks(e, r, v, exact);
    assert i == v.hook || r.hooks[i].kind.Equivalent?;
  }

  lemma {:induction false} RevertedDispatch(e: Env, r: Run, at: Site, v: Reversion, exact: bool, i: nat)
    requires Reverted(e, r, v, exact) && 12 <= i <= |r.hooks|
    ensures Reverted(e, Dispatch(e, r, at, i), v, exact)
    decreases |r.hooks| - i
  {
    hide Visit, LineAt;
    if i < |r.hooks| && r.control.Going? {
      RevertedVisit(e, r, at, v, exact, i);
      OneVisit(e, r, at, i);
      RevertedDispatch(e, Visit(e, r, at, i), at, v, exact, i + 1);
    }
  }

  lemma {:induction false} RevertedEnds(e: Env, r: Run, at: Site, v: Reversion, exact: bool, b: bool)
    requires Reverted(e, r, v, exact) && FaultedHooks(e, r.hooks, r.hk)
    ensures Reverted(e, AtEndAddress(r), v, exact) && Reverted(e, AtHardStop(e, r), v, exact)
    ensures Reverted(e, AtSkip(e, r, at), v, exact)
    ensures Reverted(e, r.(inRange := b), v, exact) && Reverted(e, Count(r.(inRange := b)), v, exact)
  {
    hide LineAt, SetupHooks, WritePc;
  }

  lemma {:induction false} RevertedStep(e: Env, r: Run, v: Reversion, exact: bool)
    requires Reverted(e, r, v, exact) && (r.phase.Running? ==> HasFaulted(e, r) && r.control.Going?)
    ensures Reverted(e, Step(e, r), v, exact)
  {
    hide Dispatch, FaultedHooks, AtEndAddress, AtHardStop, AtSkip, Count, Finish, Reverted, AfterSegment;
    if r.phase.Running? {
      var at := SiteOf(e.p, r.cpu);
      var r1 := r.(inRange := FlagAt(e, r.inRange, at.address));
      FaultedPrefix(e, r, at);
      RevertedEnds(e, r, at, v, exact, r1.inRange);
      RevertedEnds(e, r1, at, v, exact, r1.inRange);
      if at.address !in e.p.skips && at.address != e.p.codeEnd && at.address !in e.p.hardStops {
        Twelve(e, Count(r1), v, exact);
        RevertedDispatch(e, Count(r1), at, v, exact, 12);
      }
      LivingFinish(e, Dispatch(e, r, at, 0), v, exact);
    } else {
      AfterKeeps(e, r, v, exact);
    }
  }

  lemma {:induction false} Twelve(e: Env, r: Run, v: Reversion, exact: bool)
    requires Reverted(e, r, v, exact)
    ensures 12 <= |r.hooks|
  {
  }

  lemma {:induction false} AfterKeeps(e: Env, r: Run, v: Reversion, exact: bool)
    ensures Reverted(e, r, v, exact) ==> Reverted(e, AfterSegment(e, r), v, exact)
    ensures EndedAlive(e, r, v) && r.phase.Stopped? ==> EndedAlive(e, AfterSegment(e, r), v)
    ensures Living(e, r, v, exact) && r.restart && !r.state.Errored? ==> Living(e, AfterSegment(e, r), v, exact)
    ensures AfterSegment(e, r).inRange == r.inRange
  {
    hide LineAt, WritePc;
  }

  // ----- whole runs -----

  /** From the fault on: the faulted bytes are in place and the run goes on, or they were reverted, or
      the run is over with them in place. */
  ghost predicate Lives(e: Env, r: Run, v: Reversion, exact: bool, budget: nat) {
    || (GoesOn(e, r, budget) && Living(e, r, v, exact))
    || ((GoesOn(e, r, budget) || IsOver(r, budget)) && Reverted(e, r, v, exact))
    || (IsOver(r, budget) && EndedAlive(e, r, v))
  }

  lemma {:induction false} LivesStep(e: Env, r: Run, v: Reversion, exact: bool, budget: nat)
    requires Lives(e, r, v, exact, budget)
    ensures Lives(e, Step(e, r), v, exact && Step(e, r).inRange, budget)
  {
    hide Living, Reverted, EndedAlive, Step, IsOver, HasFaulted;
    if GoesOn(e, r, budget) {
      FaultedStep(e, r, budget);
    } else {
      OverStaysOver(e, r, budget);
    }
    LivesStepBody(e, r, v, exact, budget);
    Sorted(e, Step(e, r), v, exact && Step(e, r).inRange, budget);
  }

  lemma {:induction false} Sorted(e: Env, s: Run, v: Reversion, exact: bool, budget: nat)
    requires GoesOn(e, s, budget) || IsOver(s, budget)
    requires Living(e, s, v, exact) || Reverted(e, s, v, exact) || EndedAlive(e, s, v)
    ensures Lives(e, s, v, exact, budget)
  {
    hide HasFaulted, HookIsLast;
  }

  lemma {:induction false} LivesStepBody(e: Env, r: Run, v: Reversion, exact: bool, budget: nat)
    requires Lives(e, r, v, exact, budget)
    ensures var s := Step(e, r);
            var x := exact && s.inRange;
            Living(e, s, v, x) || Reverted(e, s, v, x) || EndedAlive(e, s, v)
  {
    hide Living, Reverted, EndedAlive, Dispatch, Finish, HasFaulted, AfterSegment;
    Weakens(e, Step(e, r), v, exact);
    match r.phase
    case Running =>
      if Reverted(e, r, v, exact) {
        assert GoesOn(e, r, budget);
        RevertedStep(e, r, v, exact);
      } else {
        NotEnded(e, r, v);
        LivingStep(e, r, v, exact, budget);
      }
    case Stopped =>
      AfterKeeps(e, r, v, exact);
      if GoesOn(e, r, budget) {
        StillFaulted(e, r);
      }
    case Ended =>
  }

  lemma {:induction false} NotEnded(e: Env, r: Run, v: Reversion)
    requires r.phase.Running?
    ensures !EndedAlive(e, r, v) && forall budget :: !IsOver(r, budget)
  {
  }

  lemma {:induction false} StillFaulted(e: Env, r: Run)
    requires HasFaulted(e, r)
    ensures !r.state.Errored?
  {
  }

  lemma {:induction false} Weakens(e: Env, r: Run, v: Reversion, exact: bool)
    ensures Living(e, r, v, exact) ==> Living(e, r, v, false)
    ensures Reverted(e, r, v, exact) ==> Reverted(e, r, v, false)
  {
  }

  /** Every instruction dispatched in the first n steps was in the fault range. */
  ghost predicate StaysInRange(e: Env, r: Run, n: nat) {
    forall m: nat :: 0 < m <= n ==> Steps(e, r, m).inRange
  }

  lemma {:induction false} LivesSteps(e: Env, r: Run, v: Reversion, budget: nat, n: nat)
    requires Lives(e, r, v, true, budget)
    ensures Lives(e, Steps(e, r, n), v, StaysInRange(e, r, n), budget)
  {
    hide Lives, Step;
    if n > 0 {
      LivesSteps(e, r, v, budget, n - 1);
      LivesStep(e, Steps(e, r, n - 1), v, StaysInRange(e, r, n - 1), budget);
      assert StaysInRange(e, r, n) <==> StaysInRange(e, r, n - 1) && Steps(e, r, n).inRange;
    } else {
      assert StaysInRange(e, r, n);
    }
  }

  // ----- from the fault -----

  /** The revert rule at work on line rule.instruction, whose instruction is at the site. */
  function RevertOf(e: Env, c: Cpu, rule: FaultRule, at: Site): Reversion
    requires FaultsBytes(rule.operation) && rule.instruction > 0
  {
    var original := ReadMem(c, at.address, at.size);
    Reversion(rule.instruction, rule.lifespan.count, if e.stopOnEquivalence then 13 else 12,
           ToolWrite(rule.instruction - 1, at.address, FaultBytes(rule.mask, rule.operation, original)), original)
  }

  ghost predicate RevertsInstruction(rule: FaultRule) {
    rule.target.Instruction? && rule.lifespan.mode.Revert? && rule.lifespan.count > 0
  }

  lemma {:induction false} InstallsLast(e: Env, r: Run, at: Site, hook: nat)
    requires |r.hooks| == 12 && r.rule.lifespan.mode.Revert? && r.rule.lifespan.count > 0
    requires hook == if e.stopOnEquivalence then 13 else 12
    requires r.hk.lifespan == r.hk.equivalent == 0 && HandleOf(r.hk, FaultItInstruction) == 11
    ensures var s := AddLifespan(AddEquivalent(e, r), RevertInstruction, RepeatInstruction, At({at.address}));
            && |s.hooks| == hook + 1 && s.hooks[hook] == Hook(RevertInstruction, Everywhere, 0)
            && (hook == 13 ==> s.hooks[12].kind.Equivalent?)
            && s.hk.lifespan == hook + 1 && s.hk.equivalent != hook + 1 && HandleOf(s.hk, FaultItInstruction) == 11
            && s == r.(hooks := s.hooks, hk := s.hk,
                       rule := r.rule.(lifespan := r.rule.lifespan.(live := r.rule.lifespan.count)))
  {
  }

  lemma {:induction false} FaultLives(e: Env, o: Origin, w: Run, at: Site)
    requires AtTheHook(e, o, w, at) && RevertsInstruction(w.rule) && w.trail.writes == []
    requires w.count == w.rule.instruction > 0
    requires at.address == ThumbCheck(e.p, at.address) == ThumbCheck(e.p, LineAt(w.lines, w.rule.instruction).address)
    ensures Living(e, FaultInstructionHook(e, w, at), RevertOf(e, w.cpu, w.rule, at), true)
  {
    FaultIsMade(e, o, w, at);
    hide DoTheInstructionFault, Fire, AddEquivalent, AddLifespan, RemoveIfSet, LineAt, ThumbCheck, RevertOf,
         AtTheHook, HandleOf;
    var r1 := Fire(DoTheInstructionFault(e, w, at), at);
    var v := RevertOf(e, w.cpu, w.rule, at);
    RevertsThere(e, w.cpu, w.rule, at);
    InstallsLast(e, r1, at, v.hook);
    var r2 := AddLifespan(AddEquivalent(e, r1), RevertInstruction, RepeatInstruction, At({at.address}));
  }

  lemma {:induction false} RevertsThere(e: Env, c: Cpu, rule: FaultRule, at: Site)
    requires FaultsBytes(rule.operation) && rule.instruction > 0
    ensures var v := RevertOf(e, c, rule, at);
            && v.line == rule.instruction && v.count == rule.lifespan.count && v.fault.passed + 1 == v.line
            && v.fault.address == at.address && v.hook == (if e.stopOnEquivalence then 13 else 12)
  {
  }

  lemma {:induction false} FaultIsMade(e: Env, o: Origin, w: Run, at: Site)
    requires AtTheHook(e, o, w, at) && w.rule.target.Instruction?
    ensures IsTheLine(w) && FaultsBytes(w.rule.operation) && !DoTheInstructionFault(e, w, at).control.Aborted?
  {
    hide SetupHooks, WriteMem, ReadMem, FaultBytes;
  }

  /** The dispatch of an instruction fault's line ends with its primary hook. */
  lemma {:induction false} InstructionStep(e: Env, o: Origin, trace: seq<Cpu>, rule: FaultRule, lines: seq<Line>,
                                           classes: seq<Class<FaultRule>>, u: nat)
    requires IsGolden(e.p, trace) && u < Last(trace) && e.mode.FaultMode? && Accepts(rule) && rule.target.Instruction?
    requires o.Restored? || !RestoresCheckpoint(e, rule, lines)
    requires Fires(e, trace, rule, lines, u)
    ensures var w := Within(e, o, trace, rule, lines, classes, u);
            var s := FaultInstructionHook(e, w, SiteOf(e.p, trace[u]));
            && AtTheHook(e, o, w, SiteOf(e.p, trace[u])) && w.count == rule.instruction
            && s.control.StopRequested? && s.restart
            && Step(e, Before(e, o, trace, rule, lines, classes, u)) == Finish(e, s)
  {
    hide Dispatch, SetupHooks, AtTheHook, FaultInstructionHook, RestoresCheckpoint, Finish;
    var at, w := SiteOf(e.p, trace[u]), Within(e, o, trace, rule, lines, classes, u);
    ReachWithin(e, o, trace, rule, lines, classes, u);
    AtItsLine(e, o, trace, rule, lines, classes, u);
    OneVisit(e, w, at, 9);
    OneVisit(e, w, at, 10);
    InstructionFires(e, o, w, at);
    EndsThere(e, FaultInstructionHook(e, w, at), at, 11);
  }

  /** The step of the rule's dispatch leaves the faulted bytes in place. */
  lemma {:induction false} LineFaultLives(e: Env, o: Origin, trace: seq<Cpu>, rule: FaultRule, lines: seq<Line>,
                                          classes: seq<Class<FaultRule>>)
    requires HasItsLine(e, trace, rule, lines) && Accepts(rule) && RevertsInstruction(rule)
    requires o.Restored? || !RestoresCheckpoint(e, rule, lines)
    ensures var u := FaultDispatch(e, trace, rule, lines);
            Lives(e, Step(e, Before(e, o, trace, rule, lines, classes, u)),
                  RevertOf(e, trace[u], rule, SiteOf(e.p, trace[u])), true, RestartBudget(o, rule))
  {
    hide AtTheHook, HasInjected, FaultInstructionHook, Fires, RestoresCheckpoint, RevertOf, Living,
         IsGolden, Before, Within, Step, Finish, GoesOn, IsOver, Reverted, EndedAlive;
    var u := FaultDispatch(e, trace, rule, lines);
    FiresThereOnly(e, trace, rule, lines);
    var at, w := SiteOf(e.p, trace[u]), Within(e, o, trace, rule, lines, classes, u);
    InstructionStep(e, o, trace, rule, lines, classes, u);
    SiteIsLine(e, o, trace, rule, lines, classes, u);
    FaultLives(e, o, w, at);
    var v := RevertOf(e, trace[u], rule, at);
    LivingFinishes(e, FaultInstructionHook(e, w, at), v);
    LineInjects(e, o, trace, rule, lines, classes, u);
    InjectedGoesOn(e, o, rule, at.address, Finish(e, FaultInstructionHook(e, w, at)));
  }

  lemma {:induction false} SiteIsLine(e: Env, o: Origin, trace: seq<Cpu>, rule: FaultRule, lines: seq<Line>,
                                      classes: seq<Class<FaultRule>>, u: nat)
    requires IsGolden(e.p, trace) && u < Last(trace) && Fires(e, trace, rule, lines, u)
    ensures var at, w := SiteOf(e.p, trace[u]), Within(e, o, trace, rule, lines, classes, u);
            && at.address == ThumbCheck(e.p, at.address) == ThumbCheck(e.p, LineAt(lines, rule.instruction).address)
            && w.trail.writes == [] && w.cpu == trace[u] && w.lines == lines && w.rule == rule
  {
  }

  lemma {:induction false} LivingFinishes(e: Env, s: Run, v: Reversion)
    requires Living(e, s, v, true) && s.control.StopRequested? && s.restart
    ensures Living(e, Finish(e, s), v, true) && Finish(e, s).phase.Stopped? && Finish(e, s).restart
  {
    hide LineAt;
  }

  lemma {:induction false} InjectedGoesOn(e: Env, o: Origin, rule: FaultRule, address: nat, r: Run)
    requires HasInjected(e, o, rule, address, r) && r.phase.Stopped? && r.restart
    ensures GoesOn(e, r, RestartBudget(o, rule))
  {
    hide HasFaulted;
  }

  /** What Lives says of a run. */
  lemma {:induction false} LivesMeans(e: Env, r: Run, v: Reversion, exact: bool, budget: nat)
    requires Lives(e, r, v, exact, budget)
    ensures r.hooks[v.hook].kind.RevertInstruction? && r.hooks[v.hook].deletions == |r.trail.writes| - 1 <= 1
    ensures r.trail.writes == [v.fault] ||
            (v.fault.passed < r.trail.writes[1].passed <= v.fault.passed + v.count &&
             (exact ==> r.trail.writes[1].passed == v.fault.passed + v.count) &&
             r.trail.writes == [v.fault, ToolWrite(r.trail.writes[1].passed, v.fault.address, v.original)])
    ensures r.hk.lifespan != 0 && GoesOn(e, r, budget) ==>
              1 <= r.rule.lifespan.live <= v.count && r.trail.passed <= v.fault.passed + v.count
    ensures GoesOn(e, r, budget) ==> (r.hk.lifespan == 0 <==> |r.trail.writes| == 2)
  {
    hide FaultedHooks;
  }

  /** A revert-n instruction fault.  The tool writes to the program's memory once, before the line is
      executed, and at most once more: the original bytes, to the same place, once at most n in-range
      instructions have been executed with the fault in place, and exactly n if nothing outside the
      range was.  They are written back, if the run goes on past them.  The lifespan hook is deleted
      exactly when that happens, once, and its counter is between 1 and n as long as it is there. */
  lemma {:induction false} RevertedFaultLives(e: Env, o: Origin, trace: seq<Cpu>, rule: FaultRule, lines: seq<Line>,
                                              classes: seq<Class<FaultRule>>, n: nat)
    requires HasItsLine(e, trace, rule, lines) && Accepts(rule) && RevertsInstruction(rule)
    requires o.Restored? || !RestoresCheckpoint(e, rule, lines)
    ensures var u := FaultDispatch(e, trace, rule, lines);
            var faulted := Step(e, Before(e, o, trace, rule, lines, classes, u));
            var r, k := Steps(e, faulted, n), rule.instruction;
            var original := ReadMem(trace[u], Pc(e.p, trace[u]), e.p.size(trace[u]));
            var fault := ToolWrite(k - 1, Pc(e.p, trace[u]), FaultBytes(rule.mask, rule.operation, original));
            var hook := if e.stopOnEquivalence then 13 else 12;
            && |r.hooks| > hook && r.hooks[hook].kind.RevertInstruction?
            && r.hooks[hook].deletions == |r.trail.writes| - 1 <= 1
            && (r.trail.writes == [fault] ||
                exists p: nat :: p < k + rule.lifespan.count && p >= k
                  && r.trail.writes == [fault, ToolWrite(p, Pc(e.p, trace[u]), original)]
                  && (StaysInRange(e, faulted, n) ==> p == k - 1 + rule.lifespan.count))
            && (GoesOn(e, r, RestartBudget(o, rule)) && r.hk.lifespan != 0 ==>
                  1 <= r.rule.lifespan.live <= rule.lifespan.count && r.trail.passed <= k - 1 + rule.lifespan.count)
            && (GoesOn(e, r, RestartBudget(o, rule)) && r.trail.passed > k - 1 + rule.lifespan.count ==>
                  |r.trail.writes| == 2)
  {
    hide Lives, Before, Step, HasItsLine, RestoresCheckpoint, ReadMem, FaultBytes, StaysInRange, GoesOn;
    FiresThereOnly(e, trace, rule, lines);
    var u := FaultDispatch(e, trace, rule, lines);
    var faulted := Step(e, Before(e, o, trace, rule, lines, classes, u));
    var v := RevertOf(e, trace[u], rule, SiteOf(e.p, trace[u]));
    LineFaultLives(e, o, trace, rule, lines, classes);
    LivesSteps(e, faulted, v, RestartBudget(o, rule), n);
    LivesMeans(e, Steps(e, faulted, n), v, StaysInRange(e, faulted, n), RestartBudget(o, rule));
    LivesHooks(e, Steps(e, faulted, n), v, StaysInRange(e, faulted, n), RestartBudget(o, rule));
  }

  lemma {:induction false} LivesHooks(e: Env, r: Run, v: Reversion, exact: bool, budget: nat)
    requires Lives(e, r, v, exact, budget)
    ensures |r.hooks| == v.hook + 1
  {
  }
}

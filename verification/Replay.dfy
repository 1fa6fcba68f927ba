/** Restoring a checkpoint and going on is running from the start. */
module Replay {
  import opened Machine
  import opened Equivalence
  import opened Hooks
  import opened GoldenRun
  import opened StatsRun
  import opened Snapshots
  import opened TwinRuns
  import opened Aftermath
  import opened Injection
  import opened ExactlyOnce

  /** Dispatch t is the flagged line that a run of this rule restores, not after the rule's own line. */
  ghost predicate FlaggedAt(e: Env, trace: seq<Cpu>, rule: FaultRule, lines: seq<Line>, t: nat) {
    && IsGolden(e.p, trace) && KeepsMapping(e.p) && IsRecorded(e, trace, lines)
    && RestoresCheckpoint(e, rule, lines)
    && t < Last(trace) && IsLine(e.p, trace, t)
    && LineAt(lines, rule.instruction).nearest == LineNumber(e.p, trace, t) <= rule.instruction
    && lines[LineNumber(e.p, trace, t)].checkpoint
  }

  ghost predicate RestoresAt(e: Env, trace: seq<Cpu>, rule: FaultRule, lines: seq<Line>, t: nat) {
    FlaggedAt(e, trace, rule, lines, t) && Resumable(e.p, trace[t])
  }

  function OriginAt(e: Env, trace: seq<Cpu>, t: nat): Origin
    requires t < |trace|
  {
    Restored(ThumbAddress(e.p, Pc(e.p, trace[t])))
  }

  /** The run that has restored the checkpoint of the line dispatched at t. */
  function Resumed(e: Env, trace: seq<Cpu>, rule: FaultRule, lines: seq<Line>, classes: seq<Class<FaultRule>>, t: nat)
    : Run
    requires t < |trace|
  {
    Unfaulted(OriginAt(e, trace, t), trace[t], BaseHooks(e, rule, lines, true), BaseHandles(rule, true), rule, lines,
              classes,
              true, true, LinesBefore(e.p, trace, t))
  }

  lemma {:induction false} AddsTheFaultHook(e: Env, rule: FaultRule, lines: seq<Line>, classes: seq<Class<FaultRule>>)
    requires rule.isSet
    ensures var r := Launched(e, rule, lines, classes);
            AddFaultHook(e, r, LineAt(lines, rule.instruction).address)
              == r.(hooks := BaseHooks(e, rule, lines, true), hk := BaseHandles(rule, true))
  {
    hide SetupHooks;
  }

  /** The snapshot is there, and restoring it leaves the CPU of the line. */
  lemma {:induction false} SnapshotIsThere(e: Env, trace: seq<Cpu>, rule: FaultRule, lines: seq<Line>, t: nat)
    requires FlaggedAt(e, trace, rule, lines, t)
    ensures LineNumber(e.p, trace, t) < |lines|
    ensures var line := lines[LineNumber(e.p, trace, t)];
            && line.snapshot.Some? && line.checkpoint && line.address == ThumbAddress(e.p, Pc(e.p, trace[t]))
            && Load(e.p, WritePc(e.p, e.p.image, e.p.codeStart), line.snapshot.value) == trace[t]
  {
    hide Save, Load;
    GoldenMapsRegions(e.p, trace, 0);
    GoldenMapsRegions(e.p, trace, t);
    LoadUndoesSave(e.p, trace[0], trace[t]);
  }

  /** uc_restore_from_checkpoint does not end the process. */
  lemma {:induction false} RestoreVisit(e: Env, trace: seq<Cpu>, rule: FaultRule, lines: seq<Line>,
                                        classes: seq<Class<FaultRule>>, t: nat)
    requires FlaggedAt(e, trace, rule, lines, t)
    ensures var r := Launched(e, rule, lines, classes);
            AtStartAddress(e, r) == Resumed(e, trace, rule, lines, classes, t).(
              control := StopRequested, restart := true,
              trail := Resumed(e, trace, rule, lines, classes, t).trail.(restarts := 0))
  {
    hide Load, SetupHooks, AddFaultHook, BaseHooks, IsGolden, KeepsMapping, IsRecorded, WritePc, LinesBefore;
    AddsTheFaultHook(e, rule, lines, classes);
    SnapshotIsThere(e, trace, rule, lines, t);
  }

  lemma {:induction false} RestoreDispatch(e: Env, trace: seq<Cpu>, rule: FaultRule, lines: seq<Line>,
                                           classes: seq<Class<FaultRule>>, t: nat)
    requires FlaggedAt(e, trace, rule, lines, t)
    ensures var r := Launched(e, rule, lines, classes);
            Dispatch(e, r, SiteOf(e.p, r.cpu), 0) == AtStartAddress(e, r)
  {
    hide Visit, Dispatch, SetupHooks, AtStartAddress;
    var r := Launched(e, rule, lines, classes);
    var at := SiteOf(e.p, r.cpu);
    assert at.address != e.p.codeEnd && at.address == ThumbCheck(e.p, e.p.codeStart) by { assert r.cpu == trace[0]; }
    forall k | 0 <= k < 4 ensures Visit(e, r, at, k) == r { QuietVisit(e, r, at, k); }
    Idle(e, r, at, 0, 4);
    OneVisit(e, r, at, 4);
    CallsStart(e, r, at);
    RestoreVisit(e, trace, rule, lines, classes, t);
    EndsThere(e, AtStartAddress(e, r), at, 5);
  }

  lemma {:induction false} CallsStart(e: Env, r: Run, at: Site)
    requires |r.hooks| >= 10 && r.hooks[..10] == SetupHooks(e) && at.address == ThumbCheck(e.p, e.p.codeStart)
    ensures Visit(e, r, at, 4) == AtStartAddress(e, r)
  {
    hide AtStartAddress;
    assert r.hooks[4] == r.hooks[..10][4] == SetupHooks(e)[4];
  }

  lemma {:induction false} TwoSteps(e: Env, r: Run)
    ensures Steps(e, r, 2) == Step(e, Step(e, r))
  {
    hide Step;
    assert Steps(e, r, 1) == Step(e, Steps(e, r, 0));
  }

  /** One dispatch and one turn of the restart loop bring the run to its checkpoint.  The CPU there is
      the one the fault-free run had exactly when that CPU is resumable. */
  lemma {:induction false} RestoresCheckpointInTwo(e: Env, trace: seq<Cpu>, rule: FaultRule, lines: seq<Line>,
                                                   classes: seq<Class<FaultRule>>, t: nat)
    requires FlaggedAt(e, trace, rule, lines, t)
    ensures var r := Steps(e, Launched(e, rule, lines, classes), 2);
            && r == Resumed(e, trace, rule, lines, classes, t).(cpu := r.cpu)
            && r.cpu == WritePc(e.p, trace[t], ThumbAddress(e.p, Pc(e.p, trace[t])))
            && (r.cpu == trace[t] <==> Resumable(e.p, trace[t]))
  {
    hide Dispatch, SetupHooks, AtStartAddress;
    var r := Launched(e, rule, lines, classes);
    RestoreDispatch(e, trace, rule, lines, classes, t);
    RestoreVisit(e, trace, rule, lines, classes, t);
    TwoSteps(e, r);
  }

  /** The restored run's first dispatch, up to the caller's hook. */
  lemma {:induction false} ResumedDispatch(e: Env, trace: seq<Cpu>, rule: FaultRule, lines: seq<Line>,
                                           classes: seq<Class<FaultRule>>, t: nat)
    requires RestoresAt(e, trace, rule, lines, t)
    ensures var o := OriginAt(e, trace, t);
            Dispatch(e, Resumed(e, trace, rule, lines, classes, t), SiteOf(e.p, trace[t]), 0)
              == Dispatch(e, Within(e, o, trace, rule, lines, classes, t), SiteOf(e.p, trace[t]), 9)
  {
    hide Visit, Dispatch, SetupHooks, KeepsMapping, IsRecorded, RestoresCheckpoint, Resumable;
    var o, at, r := OriginAt(e, trace, t), SiteOf(e.p, trace[t]), Resumed(e, trace, rule, lines, classes, t);
    forall k | 0 <= k < 4 ensures Visit(e, r, at, k) == r { QuietVisit(e, r, at, k); }
    Idle(e, r, at, 0, 4);
    OneVisit(e, r, at, 4);
    StartIgnored(e, r, at);
    QuietVisit(e, r, at, 5);
    Idle(e, r, at, 5, 6);
    OneVisit(e, r, at, 6);
    RangeVisits(e, o, at, trace[t], BaseHooks(e, rule, lines, true), BaseHandles(rule, true), rule, lines, classes,
                true, true, LinesBefore(e.p, trace, t));
    OneVisit(e, Visit(e, r, at, 6), at, 7);
    LineIsEntered(e.p, trace, t);
    assert at.address != e.p.faultEnd;
    QuietVisit(e, r, at, 8);
    Idle(e, r, at, 8, 9);
  }

  lemma {:induction false} StartIgnored(e: Env, r: Run, at: Site)
    requires |r.hooks| >= 10 && r.hooks[..10] == SetupHooks(e) && !r.state.NoneRs?
    ensures Visit(e, r, at, 4) == r
  {
    assert r.hooks[4] == r.hooks[..10][4] == SetupHooks(e)[4];
  }

  lemma {:induction false} ResumedStep(e: Env, trace: seq<Cpu>, rule: FaultRule, lines: seq<Line>,
                                       classes: seq<Class<FaultRule>>, t: nat)
    requires RestoresAt(e, trace, rule, lines, t)
    ensures Step(e, Resumed(e, trace, rule, lines, classes, t))
         == Step(e, Before(e, OriginAt(e, trace, t), trace, rule, lines, classes, t))
  {
    hide Dispatch, Finish, KeepsMapping, IsRecorded, RestoresCheckpoint, Resumable, SetupHooks;
    ResumedDispatch(e, trace, rule, lines, classes, t);
    ReachWithin(e, OriginAt(e, trace, t), trace, rule, lines, classes, t);
  }

  // ----- the fast run and the simple run -----

  lemma {:induction false} WithinTwins(e: Env, trace: seq<Cpu>, rule: FaultRule, lines: seq<Line>,
                                       classes: seq<Class<FaultRule>>, t: nat, u: nat)
    requires t < |trace| && u < |trace|
    ensures Twins(false, Within(FromTheStart(e), FromStart, trace, rule, lines, classes, u),
                  Within(e, OriginAt(e, trace, t), trace, rule, lines, classes, u))
    ensures u > 0 ==> Twins(false, Before(FromTheStart(e), FromStart, trace, rule, lines, classes, u),
                            Before(e, OriginAt(e, trace, t), trace, rule, lines, classes, u))
  {
    hide SetupHooks;
    assert SetupHooks(FromTheStart(e)) == SetupHooks(e) by { SameSetup(e); }
  }

  lemma {:induction false} SameSetup(e: Env)
    ensures SetupHooks(FromTheStart(e)) == SetupHooks(e)
  {
  }

  lemma {:induction false} SetupHasNoStats(e: Env, rule: FaultRule, lines: seq<Line>)
    requires e.mode.FaultMode?
    ensures NoStats(BaseHooks(e, rule, lines, true) + [COUNT_HOOK])
  {
  }

  /** The primary hook, called on both. */
  lemma {:induction false} TwinPrimary(e: Env, o: Origin, w: Run, v: Run, at: Site)
    requires AtTheHook(FromTheStart(e), FromStart, w, at) && AtTheHook(e, o, v, at) && Twins(false, w, v)
    requires NoStats(w.hooks)
    requires e.mode.FaultMode?
    requires |w.hooks| == 12 && IsCalled(w, at, 10) && w.hooks[10].kind == PrimaryKind(w.rule.target)
    ensures StayTwins(false, w, Dispatch(FromTheStart(e), w, at, 10), Dispatch(e, v, at, 10))
    ensures !Dispatch(FromTheStart(e), w, at, 10).state.NoneRs? && NoStats(Dispatch(FromTheStart(e), w, at, 10).hooks)
  {
    hide AtTheHook, Dispatch, Visit, Twins, FaultInstructionHook, FaultIPHook, FaultAddressHook, FaultRegisterHook,
         NoStats, SetupHooks;
    assert IsCalled(v, at, 10) && |v.hooks| == 12 && v.hooks[10] == w.hooks[10] && w.rule == v.rule
           && w.control.Going? && v.control.Going? by {
      TheSame(w, v);
      IsGoing(FromTheStart(e), FromStart, w, at);
    }
    if w.rule.target.Register? {
      TwinRegisterPrimary(e, o, w, v, at);
    } else {
      OneVisit(FromTheStart(e), w, at, 10);
      OneVisit(e, v, at, 10);
      VisitNoStats(FromTheStart(e), w, at, 10);
      TwinOtherPrimary(e, o, w, v, at);
    }
  }

  lemma {:induction false} IsGoing(e: Env, o: Origin, w: Run, at: Site)
    requires AtTheHook(e, o, w, at)
    ensures w.control.Going?
  {
  }

  lemma {:induction false} TheSame(w: Run, v: Run)
    requires Twins(false, w, v)
    ensures w.hooks == v.hooks && w.rule == v.rule && w.control == v.control && w.phase == v.phase && w.cpu == v.cpu
    ensures !w.state.NoneRs? ==> v.state == w.state
  {
  }

  lemma {:induction false} TwinOtherPrimary(e: Env, o: Origin, w: Run, v: Run, at: Site)
    requires AtTheHook(FromTheStart(e), FromStart, w, at) && AtTheHook(e, o, v, at) && Twins(false, w, v)
    requires |w.hooks| == |v.hooks| == 12 && IsCalled(w, at, 10) && IsCalled(v, at, 10)
    requires w.hooks[10].kind == v.hooks[10].kind == PrimaryKind(w.rule.target) && !w.rule.target.Register?
    requires w.rule == v.rule
    ensures var w1, v1 := Visit(FromTheStart(e), w, at, 10), Visit(e, v, at, 10);
            && StayTwins(false, w, w1, v1) && !w1.state.NoneRs? && |w1.hooks| > 10 && |v1.hooks| > 10
            && Dispatch(FromTheStart(e), w1, at, 11) == w1 && Dispatch(e, v1, at, 11) == v1
  {
    hide AtTheHook, Dispatch, Twins, FaultInstructionHook, FaultIPHook, FaultAddressHook, FaultRegisterHook,
         SetupHooks, FaultedHooks;
    VisitDecreases(FromTheStart(e), w, at, 10);
    VisitDecreases(e, v, at, 10);
    if w.rule.target.Instruction? {
      TwinInstructionHook(false, e, w, v, at);
      InstructionFires(FromTheStart(e), FromStart, w, at);
      InstructionFires(e, o, v, at);
    } else {
      TwinIPHook(false, e, w, v, at);
      IPFires(FromTheStart(e), FromStart, w, at);
      IPFires(e, o, v, at);
    }
    EndsThere(FromTheStart(e), Visit(FromTheStart(e), w, at, 10), at, 11);
    EndsThere(e, Visit(e, v, at, 10), at, 11);
  }

  lemma {:induction false} TwinRegisterPrimary(e: Env, o: Origin, w: Run, v: Run, at: Site)
    requires AtTheHook(FromTheStart(e), FromStart, w, at) && AtTheHook(e, o, v, at) && Twins(false, w, v)
    requires NoStats(w.hooks)
    requires e.mode.FaultMode?
    requires |w.hooks| == |v.hooks| == 12 && IsCalled(w, at, 10) && IsCalled(v, at, 10)
    requires w.hooks[10].kind.FaultItAddress? && v.hooks[10].kind.FaultItAddress? && w.rule.target.Register?
    requires w.rule == v.rule
    ensures StayTwins(false, w, Dispatch(FromTheStart(e), w, at, 10), Dispatch(e, v, at, 10))
    ensures !Dispatch(FromTheStart(e), w, at, 10).state.NoneRs? && NoStats(Dispatch(FromTheStart(e), w, at, 10).hooks)
  {
    hide AtTheHook, Dispatch, Twins, FaultAddressHook, FaultRegisterHook, SetupHooks, AtTheSecondHook, Count, NoStats;
    ReachSecondHook(FromTheStart(e), FromStart, w, at);
    ReachSecondHook(e, o, v, at);
    TwinAddressHook(false, w, v, at);
    TwinRange(false, FaultAddressHook(w, at), FaultAddressHook(v, at));
    var w1, v1 := Count(FaultAddressHook(w, at)), Count(FaultAddressHook(v, at));
    TwinRegisterHook(false, e, w1, v1, at);
    var w2, v2 := FaultRegisterHook(FromTheStart(e), w1, at), FaultRegisterHook(e, v1, at);
    RegisterFires(FromTheStart(e), FromStart, w, w1, at);
    RegisterFires(e, o, v, v1, at);
    RegisterNoStats(FromTheStart(e), w, at);
    assert !w2.state.NoneRs? && !v2.state.NoneRs?;
    TwinDispatch(false, e, w2, v2, at, 13);
    TheSame(Dispatch(FromTheStart(e), w2, at, 13), Dispatch(e, v2, at, 13));
  }

  lemma {:induction false} RegisterNoStats(e: Env, w: Run, at: Site)
    requires NoStats(w.hooks)
    ensures NoStats(FaultRegisterHook(e, Count(FaultAddressHook(w, at)), at).hooks)
  {
    hide FaultAddressHook, FaultRegisterHook, NoStats, Grows;
    AddressFaultGrows(w, at);
    GrowsNoStats(w.hooks, FaultAddressHook(w, at).hooks, 3);
    var v := Count(FaultAddressHook(w, at));
    RegisterFaultGrows(e, v, at);
    GrowsNoStats(v.hooks, FaultRegisterHook(e, v, at).hooks, 1);
  }

  /** The dispatch that injects. */
  lemma {:induction false} TwinInjection(e: Env, trace: seq<Cpu>, rule: FaultRule, lines: seq<Line>,
                                         classes: seq<Class<FaultRule>>, t: nat, u: nat)
    requires IsGolden(e.p, trace) && e.mode.FaultMode? && Accepts(rule) && t < |trace|
    requires u < Last(trace) && Fires(e, trace, rule, lines, u)
    ensures var w := Within(FromTheStart(e), FromStart, trace, rule, lines, classes, u);
            var v := Within(e, OriginAt(e, trace, t), trace, rule, lines, classes, u);
            var w1 := Finish(FromTheStart(e), Dispatch(FromTheStart(e), w, SiteOf(e.p, trace[u]), 9));
            var v1 := Finish(e, Dispatch(e, v, SiteOf(e.p, trace[u]), 9));
            StayTwins(false, w, w1, v1) && !w1.state.NoneRs? && NoStats(w1.hooks)
  {
    hide AtTheHook, Dispatch, Visit, Twins, SetupHooks, NoStats, Finish;
    var o, at := OriginAt(e, trace, t), SiteOf(e.p, trace[u]);
    var w := Within(FromTheStart(e), FromStart, trace, rule, lines, classes, u);
    var v := Within(e, o, trace, rule, lines, classes, u);
    WithinTwins(e, trace, rule, lines, classes, t, u);
    AtItsLine(FromTheStart(e), FromStart, trace, rule, lines, classes, u);
    AtItsLine(e, o, trace, rule, lines, classes, u);
    OneVisit(FromTheStart(e), w, at, 9);
    OneVisit(e, v, at, 9);
    FaultHookThere(e, rule, lines, trace, classes, u);
    TwinPrimary(e, o, w, v, at);
    var w1, v1 := Dispatch(FromTheStart(e), w, at, 10), Dispatch(e, v, at, 10);
    TwinFinish(false, e, w1, v1);
    TheSame(w1, v1);
    TheSame(Finish(FromTheStart(e), w1), Finish(e, v1));
  }

  lemma {:induction false} FaultHookThere(e: Env, rule: FaultRule, lines: seq<Line>, trace: seq<Cpu>,
                                          classes: seq<Class<FaultRule>>, u: nat)
    requires u < |trace| && rule.isSet && IsLine(e.p, trace, u) && e.mode.FaultMode?
    ensures var w := Within(FromTheStart(e), FromStart, trace, rule, lines, classes, u);
            |w.hooks| == 12 && NoStats(w.hooks)
  {
    hide SetupHooks, NoStats;
    LineIsEntered(e.p, trace, u);
    SetupHasNoStats(FromTheStart(e), rule, lines);
  }

  // ----- refinement -----

  lemma {:induction false} SameFromOne(e: Env, a: Run, b: Run, n: nat)
    requires Step(e, a) == Step(e, b) && n > 0
    ensures Steps(e, a, n) == Steps(e, b, n)
  {
    hide Step;
    if n > 1 {
      SameFromOne(e, a, b, n - 1);
    } else {
      assert Steps(e, a, 0) == a && Steps(e, b, 0) == b;
    }
  }

  /** The run from the start address, which never restores a checkpoint. */
  lemma {:induction false} SimpleRun(e: Env, trace: seq<Cpu>, rule: FaultRule, lines: seq<Line>,
                                     classes: seq<Class<FaultRule>>, n: nat)
    requires HasItsLine(e, trace, rule, lines) && n <= FaultDispatch(e, trace, rule, lines)
    ensures Steps(FromTheStart(e), Launched(FromTheStart(e), rule, lines, classes), n)
         == Before(FromTheStart(e), FromStart, trace, rule, lines, classes, n)
  {
    hide Before, Step, Launched, Fires, IsGolden, IsRecorded;
    FiresThereOnly(e, trace, rule, lines);
    LaunchedIsBefore(FromTheStart(e), trace, rule, lines, classes);
    assert forall t :: 0 <= t < Last(trace) ==>
             Fires(FromTheStart(e), trace, rule, lines, t) == Fires(e, trace, rule, lines, t)
      by { SameFires(e, trace, rule, lines); }
    FollowsGolden(FromTheStart(e), FromStart, trace, rule, lines, classes, 0, n);
  }

  lemma {:induction false} SameFires(e: Env, trace: seq<Cpu>, rule: FaultRule, lines: seq<Line>)
    requires |trace| > 0
    ensures forall t :: 0 <= t < Last(trace) ==>
              Fires(FromTheStart(e), trace, rule, lines, t) == Fires(e, trace, rule, lines, t)
  {
  }

  /** The run that restores the checkpoint of dispatch t, after at least one dispatch. */
  lemma {:induction false} FastRun(e: Env, trace: seq<Cpu>, rule: FaultRule, lines: seq<Line>,
                                   classes: seq<Class<FaultRule>>, t: nat, n: nat)
    requires HasItsLine(e, trace, rule, lines) && RestoresAt(e, trace, rule, lines, t) && n > 0
    ensures Steps(e, Launched(e, rule, lines, classes), 2 + n)
         == Steps(e, Before(e, OriginAt(e, trace, t), trace, rule, lines, classes, t), n)
  {
    hide Before, Step, Launched, BaseHooks, IsRecorded, IsGolden, Resumable, RestoresCheckpoint;
    RestoresCheckpointInTwo(e, trace, rule, lines, classes, t);
    ResumedStep(e, trace, rule, lines, classes, t);
    StepsAdd(e, Launched(e, rule, lines, classes), 2, n);
    SameFromOne(e, Resumed(e, trace, rule, lines, classes, t),
                Before(e, OriginAt(e, trace, t), trace, rule, lines, classes, t), n);
  }

  lemma {:induction false} CheckpointIsBehind(e: Env, trace: seq<Cpu>, rule: FaultRule, lines: seq<Line>, t: nat)
    requires HasItsLine(e, trace, rule, lines) && RestoresAt(e, trace, rule, lines, t)
    ensures t <= FaultDispatch(e, trace, rule, lines)
  {
    hide LinesBefore, IsRecorded, Resumable, KeepsMapping, RestoresCheckpoint;
    var u := FaultDispatch(e, trace, rule, lines);
    if u < t {
      LinesGrow(e.p, trace, u, t);
    }
  }

  /** The step that injects, on both. */
  lemma {:induction false} InjectionSteps(e: Env, trace: seq<Cpu>, rule: FaultRule, lines: seq<Line>,
                                          classes: seq<Class<FaultRule>>, t: nat)
    requires HasItsLine(e, trace, rule, lines) && RestoresAt(e, trace, rule, lines, t) && Accepts(rule)
    ensures var u := FaultDispatch(e, trace, rule, lines);
            var r := Step(FromTheStart(e), Before(FromTheStart(e), FromStart, trace, rule, lines, classes, u));
            var s := Step(e, Before(e, OriginAt(e, trace, t), trace, rule, lines, classes, u));
            Twins(false, r, s) && !r.state.NoneRs? && NoStats(r.hooks)
  {
    hide Dispatch, Finish, IsRecorded, Resumable, KeepsMapping, RestoresCheckpoint, Fires, SetupHooks, NoStats, Twins;
    FiresThereOnly(e, trace, rule, lines);
    var u := FaultDispatch(e, trace, rule, lines);
    assert !SkippedAt(e.p, trace, u) && !RestoresCheckpoint(FromTheStart(e), rule,
                                                            lines) by { NeverRestores(e, rule, lines); }
    ReachWithin(FromTheStart(e), FromStart, trace, rule, lines, classes, u);
    ReachWithin(e, OriginAt(e, trace, t), trace, rule, lines, classes, u);
    TwinInjection(e, trace, rule, lines, classes, t, u);
  }

  lemma {:induction false} NeverRestores(e: Env, rule: FaultRule, lines: seq<Line>)
    ensures !RestoresCheckpoint(FromTheStart(e), rule, lines)
  {
  }

  lemma {:induction false} TwinsBeforeTheFault(e: Env, trace: seq<Cpu>, rule: FaultRule, lines: seq<Line>,
                                               classes: seq<Class<FaultRule>>, t: nat, n: nat)
    requires HasItsLine(e, trace, rule, lines) && RestoresAt(e, trace, rule, lines, t)
    requires t + 1 + n <= FaultDispatch(e, trace, rule, lines)
    ensures Twins(false, Steps(FromTheStart(e), Launched(FromTheStart(e), rule, lines, classes), t + 1 + n),
                  Steps(e, Launched(e, rule, lines, classes), 2 + 1 + n))
  {
    hide Before, Step, Launched, IsRecorded, IsGolden, Resumable, KeepsMapping, RestoresCheckpoint, Twins, Fires;
    FiresThereOnly(e, trace, rule, lines);
    FastRun(e, trace, rule, lines, classes, t, 1 + n);
    SimpleRun(e, trace, rule, lines, classes, t + 1 + n);
    FollowsGolden(e, OriginAt(e, trace, t), trace, rule, lines, classes, t, t + 1 + n);
    WithinTwins(e, trace, rule, lines, classes, t, t + 1 + n);
  }

  lemma {:induction false} TwinsAfterTheFault(e: Env, trace: seq<Cpu>, rule: FaultRule, lines: seq<Line>,
                                              classes: seq<Class<FaultRule>>, t: nat, n: nat)
    requires HasItsLine(e, trace, rule, lines) && RestoresAt(e, trace, rule, lines, t) && Accepts(rule)
    requires t <= FaultDispatch(e, trace, rule, lines) < t + 1 + n
    ensures var r := Steps(FromTheStart(e), Launched(FromTheStart(e), rule, lines, classes), t + 1 + n);
            Twins(false, r, Steps(e, Launched(e, rule, lines, classes), 2 + 1 + n)) && !r.state.NoneRs?
  {
    hide Before, Step, Launched, IsRecorded, IsGolden, Resumable, KeepsMapping, RestoresCheckpoint, Twins, NoStats,
         Fires, Accepts;
    var u, o := FaultDispatch(e, trace, rule, lines), OriginAt(e, trace, t);
    FiresThereOnly(e, trace, rule, lines);
    FastRun(e, trace, rule, lines, classes, t, 1 + n);
    SimpleRun(e, trace, rule, lines, classes, u);
    FollowsGolden(e, o, trace, rule, lines, classes, t, u);
    InjectionSteps(e, trace, rule, lines, classes, t);
    var rest := t + n - u;
    StepsAdd(FromTheStart(e), Launched(FromTheStart(e), rule, lines, classes), u + 1, rest);
    StepsAdd(e, Before(e, o, trace, rule, lines, classes, t), u + 1 - t, rest);
    TwinSteps(false, e, Step(FromTheStart(e), Before(FromTheStart(e), FromStart, trace, rule, lines, classes, u)),
              Step(e, Before(e, o, trace, rule, lines, classes, u)), rest);
  }

  /** Checkpoint replay refines replay from the start.  Once the restored line has been dispatched,
      the two runs are twins for ever: the same registers, memory, count, range flag, rule, hooks,
      control and result, dispatch by dispatch; and no snapshot is ever missing. */
  lemma {:induction false} ReplayRefines(e: Env, trace: seq<Cpu>, rule: FaultRule, lines: seq<Line>,
                                         classes: seq<Class<FaultRule>>, t: nat, n: nat)
    requires HasItsLine(e, trace, rule, lines) && RestoresAt(e, trace, rule, lines, t) && Accepts(rule)
    ensures Twins(false, Steps(FromTheStart(e), Launched(FromTheStart(e), rule, lines, classes), t + 1 + n),
                  Steps(e, Launched(e, rule, lines, classes), 2 + 1 + n))
  {
    hide Steps, Launched, HasItsLine, RestoresAt, Accepts, Twins;
    CheckpointIsBehind(e, trace, rule, lines, t);
    if t + 1 + n <= FaultDispatch(e, trace, rule, lines) {
      TwinsBeforeTheFault(e, trace, rule, lines, classes, t, n);
    } else {
      TwinsAfterTheFault(e, trace, rule, lines, classes, t, n);
    }
  }

  /** What a run ends with, apart from the count of restarts. */
  ghost predicate SameOutcome(r: Run, s: Run) {
    s.phase.Ended? && s.cpu == r.cpu && s.state == r.state && s.count == r.count && s.inRange == r.inRange &&
    s.rule == r.rule && s.lines == r.lines && s.classes == r.classes && s.hk == r.hk && s.hooks == r.hooks
  }

  /** If the run from the start ends, the run from the checkpoint ends with the same outcome, having
      gone through the restore and t dispatches fewer. */
  lemma {:induction false} ReplayEndsTheSame(e: Env, trace: seq<Cpu>, rule: FaultRule, lines: seq<Line>,
                                             classes: seq<Class<FaultRule>>, t: nat, n: nat)
    requires HasItsLine(e, trace, rule, lines) && RestoresAt(e, trace, rule, lines, t) && Accepts(rule)
    requires Steps(FromTheStart(e), Launched(FromTheStart(e), rule, lines, classes), t + 1 + n).phase.Ended?
    ensures SameOutcome(Steps(FromTheStart(e), Launched(FromTheStart(e), rule, lines, classes), t + 1 + n),
                        Steps(e, Launched(e, rule, lines, classes), 3 + n))
  {
    hide Steps, Launched, HasItsLine, RestoresAt, Accepts;
    CheckpointIsBehind(e, trace, rule, lines, t);
    EndedHasFaulted(e, trace, rule, lines, classes, t + 1 + n);
    TwinsAfterTheFault(e, trace, rule, lines, classes, t, n);
  }

  /** A run that has ended is past its fault. */
  lemma {:induction false} EndedHasFaulted(e: Env, trace: seq<Cpu>, rule: FaultRule, lines: seq<Line>,
                                           classes: seq<Class<FaultRule>>, n: nat)
    requires HasItsLine(e, trace, rule, lines) && Accepts(rule)
    requires Steps(FromTheStart(e), Launched(FromTheStart(e), rule, lines, classes), n).phase.Ended?
    ensures n > FaultDispatch(e, trace, rule, lines)
  {
    hide Steps, Launched;
    FiresThereOnly(e, trace, rule, lines);
    if n <= FaultDispatch(e, trace, rule, lines) {
      SimpleRun(e, trace, rule, lines, classes, n);
    }
  }

  // ----- exactly once, from a checkpoint -----

  lemma {:induction false} RestoreStops(e: Env, trace: seq<Cpu>, rule: FaultRule, lines: seq<Line>,
                                        classes: seq<Class<FaultRule>>, t: nat)
    requires FlaggedAt(e, trace, rule, lines, t)
    ensures var q := Resumed(e, trace, rule, lines, classes, t);
            Step(e, Launched(e, rule, lines, classes))
              == q.(control := StopRequested, phase := Stopped, restart := true, trail := q.trail.(restarts := 0))
  {
    RestoreDispatch(e, trace, rule, lines, classes, t);
    RestoreVisit(e, trace, rule, lines, classes, t);
    hide Dispatch, SetupHooks, AtStartAddress, FlaggedAt;
  }

  /** Nothing was injected yet, and the numbering holds. */
  predicate IsFresh(r: Run) {
    IsNumbered(r) && r.trail.fired == [] && r.trail.restarts <= 1 && !r.phase.Ended?
  }

  lemma {:induction false} FreshStates(e: Env, trace: seq<Cpu>, rule: FaultRule, lines: seq<Line>,
                                       classes: seq<Class<FaultRule>>, t: nat, c: Cpu)
    requires t < |trace|
    ensures IsFresh(Launched(e, rule, lines, classes))
    ensures var q := Resumed(e, trace, rule, lines, classes, t);
            IsFresh(q.(cpu := c)) &&
            IsFresh(q.(control := StopRequested, phase := Stopped, restart := true, trail := q.trail.(restarts := 0)))
  {
    hide SetupHooks, BaseHooks;
  }

  lemma {:induction false} FreshAtOne(e: Env, trace: seq<Cpu>, rule: FaultRule, lines: seq<Line>,
                                      classes: seq<Class<FaultRule>>, t: nat)
    requires FlaggedAt(e, trace, rule, lines, t)
    ensures IsFresh(Steps(e, Launched(e, rule, lines, classes), 1))
  {
    RestoreStops(e, trace, rule, lines, classes, t);
    FreshStates(e, trace, rule, lines, classes, t, trace[t]);
    hide Step, Launched, Resumed, FlaggedAt, IsFresh;
    var r := Launched(e, rule, lines, classes);
    assert Steps(e, r, 0) == r && Steps(e, r, 1) == Step(e, Steps(e, r, 0));
  }

  lemma {:induction false} FreshAtTwo(e: Env, trace: seq<Cpu>, rule: FaultRule, lines: seq<Line>,
                                      classes: seq<Class<FaultRule>>, t: nat)
    requires FlaggedAt(e, trace, rule, lines, t)
    ensures IsFresh(Steps(e, Launched(e, rule, lines, classes), 2))
  {
    assert t < |trace|;
    hide Steps, Launched, Resumed, FlaggedAt, IsFresh;
    RestoresCheckpointInTwo(e, trace, rule, lines, classes, t);
    FreshStates(e, trace, rule, lines, classes, t, Steps(e, Launched(e, rule, lines, classes), 2).cpu);
  }

  lemma {:induction false} FreshAtZero(e: Env, trace: seq<Cpu>, rule: FaultRule, lines: seq<Line>,
                                       classes: seq<Class<FaultRule>>, t: nat)
    requires t < |trace|
    ensures IsFresh(Steps(e, Launched(e, rule, lines, classes), 0))
  {
    FreshStates(e, trace, rule, lines, classes, t, trace[t]);
    hide Launched, IsFresh, Step;
  }

  lemma {:induction false} FirstStepsNumbered(e: Env, trace: seq<Cpu>, rule: FaultRule, lines: seq<Line>,
                                              classes: seq<Class<FaultRule>>, t: nat, n: nat)
    requires FlaggedAt(e, trace, rule, lines, t) && n <= 2
    ensures IsFresh(Steps(e, Launched(e, rule, lines, classes), n))
  {
    hide Steps, Launched, IsFresh, IsGolden, KeepsMapping, IsRecorded, RestoresCheckpoint;
    if n == 0 {
      FreshAtZero(e, trace, rule, lines, classes, t);
    } else if n == 1 {
      FreshAtOne(e, trace, rule, lines, classes, t);
    } else {
      FreshAtTwo(e, trace, rule, lines, classes, t);
    }
  }

  /** With a checkpoint too, the run injects its fault exactly once, keeps its numbering, and makes at
      most 2 + lifespan.count restarts. */
  lemma {:induction false} RestoredFaultsExactlyOnce(e: Env, trace: seq<Cpu>, rule: FaultRule, lines: seq<Line>,
                                                     classes: seq<Class<FaultRule>>, t: nat, n: nat)
    requires HasItsLine(e, trace, rule, lines) && RestoresAt(e, trace, rule, lines, t) && Accepts(rule)
    ensures t <= FaultDispatch(e, trace, rule, lines)
    ensures var u := FaultDispatch(e, trace, rule, lines);
            var r := Steps(e, Launched(e, rule, lines, classes), n);
            && r.trail.fired == (if n <= 2 + (u - t) then [] else [Firing(rule.instruction, Pc(e.p, trace[u]))])
            && IsNumbered(r)
            && r.trail.restarts <= RestartBudget(OriginAt(e, trace, t), rule) <= 2 + rule.lifespan.count
            && (r.trail.fired != [] && !r.control.Aborted? && !r.state.EquivalentRs? ==> Ahead(r) == r.trail.drift)
  {
    hide Before, Launched, HasInjected, IsNumbered, Ahead, Steps, HasItsLine, RestoresAt, Accepts;
    CheckpointIsBehind(e, trace, rule, lines, t);
    var u, o := FaultDispatch(e, trace, rule, lines), OriginAt(e, trace, t);
    if n <= 2 {
      assert FlaggedAt(e, trace, rule, lines, t) by { RestoresFlagged(e, trace, rule, lines, t); }
      FirstStepsNumbered(e, trace, rule, lines, classes, t, n);
    } else {
      FastRun(e, trace, rule, lines, classes, t, n - 2);
      InjectsOnce(e, o, trace, rule, lines, classes, t, n - 2);
      if t + n - 2 <= u {
        FiresThereOnly(e, trace, rule, lines);
        BeforeIsNumbered(e, o, trace, rule, lines, classes, t + n - 2);
      } else {
        InjectedIsNumbered(e, o, rule, Pc(e.p, trace[u]), Steps(e, Launched(e, rule, lines, classes), n));
        InjectedIsAhead(e, o, rule, Pc(e.p, trace[u]), Steps(e, Launched(e, rule, lines, classes), n));
      }
    }
  }

  lemma {:induction false} RestoresFlagged(e: Env, trace: seq<Cpu>, rule: FaultRule, lines: seq<Line>, t: nat)
    requires RestoresAt(e, trace, rule, lines, t)
    ensures FlaggedAt(e, trace, rule, lines, t) && Resumable(e.p, trace[t])
  {
  }
}

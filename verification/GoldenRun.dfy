/** The fault-free run of the program, and what the tool's machine looks like while a run still
    follows it. */
module GoldenRun {
  import opened Machine
  import opened Equivalence
  import opened Hooks

  // ----- the golden trace -----

  function SkipTarget(p: Program, c: Cpu): nat {
    var a := Pc(p, c);
    a + (if a in p.skips && p.skips[a] != 0 then p.skips[a] else p.size(c)) + if p.thumbMode then 1 else 0
  }

  ghost predicate Advances(p: Program, c: Cpu, d: Cpu) {
    if Pc(p, c) in p.skips then d == WritePc(p, c, SkipTarget(p, c)) else p.exec(c) == Next(d)
  }

  /** The CPU at each dispatch of a fault-free run: from the start address, which is dispatched
      once, to the end address, past no hard stop, and without errors. */
  ghost predicate IsGolden(p: Program, trace: seq<Cpu>) {
    && |trace| > 0
    && trace[0] == WritePc(p, p.image, p.codeStart)
    && (forall t :: 0 <= t < |trace| - 1 ==> Advances(p, trace[t], trace[t + 1]))
    && (forall t :: 0 <= t < |trace| - 1 ==> Pc(p, trace[t]) != p.codeEnd && Pc(p, trace[t]) !in p.hardStops)
    && Pc(p, trace[|trace| - 1]) == p.codeEnd
    && (forall t :: 0 <= t < |trace| ==> (Pc(p, trace[t]) == ThumbCheck(p, p.codeStart) <==> t == 0))
    && (IsArm(p) ==> forall t :: 0 <= t < |trace| ==> Pc(p, trace[t]) % 2 == 0)
  }

  predicate SkippedAt(p: Program, trace: seq<Cpu>, t: nat)
    requires t < |trace|
  {
    Pc(p, trace[t]) in p.skips
  }

  /** in_fault_range before dispatch t. */
  predicate FlagBefore(p: Program, trace: seq<Cpu>, t: nat)
    requires t < |trace|
    decreases t, 0
  {
    t > 0 && FlagAfter(p, trace, t - 1)
  }

  predicate FlagAfter(p: Program, trace: seq<Cpu>, t: nat)
    requires t < |trace|
    decreases t, 1
  {
    if SkippedAt(p, trace, t) then FlagBefore(p, trace, t)
    else if Pc(p, trace[t]) == p.faultEnd then false
    else Pc(p, trace[t]) == p.faultStart || FlagBefore(p, trace, t)
  }

  /** The fault start address was dispatched before dispatch t. */
  predicate Entered(p: Program, trace: seq<Cpu>, t: nat)
    requires t <= |trace|
  {
    t > 0 && (Entered(p, trace, t - 1) || (Pc(p, trace[t - 1]) == p.faultStart && !SkippedAt(p, trace, t - 1)))
  }

  /** Dispatch t is an in-range instruction: a line. */
  predicate IsLine(p: Program, trace: seq<Cpu>, t: nat)
    requires t < |trace|
  {
    !SkippedAt(p, trace, t) && FlagAfter(p, trace, t)
  }

  /** The number of in-range instructions before dispatch t. */
  function LinesBefore(p: Program, trace: seq<Cpu>, t: nat): nat
    requires t <= |trace|
  {
    if t == 0 then 0 else LinesBefore(p, trace, t - 1) + if IsLine(p, trace, t - 1) then 1 else 0
  }

  /** total_instruction_count: the last dispatch, at the end address, is not counted. */
  function TotalLines(p: Program, trace: seq<Cpu>): nat
    requires |trace| > 0
  {
    LinesBefore(p, trace, |trace| - 1)
  }

  lemma {:induction false} LineIsEntered(p: Program, trace: seq<Cpu>, t: nat)
    requires t < |trace|
    ensures FlagAfter(p, trace, t) ==> Entered(p, trace, t + 1)
    ensures FlagBefore(p, trace, t) ==> Entered(p, trace, t)
    ensures LinesBefore(p, trace, t) > 0 ==> Entered(p, trace, t)
  {
    assert FlagBefore(p, trace, t) ==> t > 0 && FlagAfter(p, trace, t - 1);
    if t > 0 {
      LineIsEntered(p, trace, t - 1);
    }
  }

  lemma {:induction false} LinesGrow(p: Program, trace: seq<Cpu>, t: nat, u: nat)
    requires t <= u <= |trace|
    ensures LinesBefore(p, trace, t) <= LinesBefore(p, trace, u)
    ensures t < u && IsLine(p, trace, t) ==> LinesBefore(p, trace, t) < LinesBefore(p, trace, u)
    decreases u - t
  {
    if t < u {
      LinesGrow(p, trace, t + 1, u);
    }
  }

  /** The dispatch of line k. */
  function DispatchOf(p: Program, trace: seq<Cpu>, k: nat, u: nat): (t: nat)
    requires u <= |trace| && 1 <= k <= LinesBefore(p, trace, u)
    ensures t < u && IsLine(p, trace, t) && LinesBefore(p, trace, t) + 1 == k
  {
    if LinesBefore(p, trace, u - 1) < k then u - 1 else DispatchOf(p, trace, k, u - 1)
  }

  // ----- the machine on the golden trace -----

  /** The hooks of my_uc_engine_setup and the one its caller adds. */
  function SetupHooks(e: Env): (hooks: seq<Hook>)
    ensures |hooks| == 10
  {
    [Hook(OnInterrupt, Nowhere, 0), Hook(OnMemoryInvalid, Nowhere, 0), Hook(OnInstructionInvalid, Nowhere, 0),
     Hook(OnEndAddress, At({e.p.codeEnd}), 0), Hook(OnStartAddress, At({ThumbCheck(e.p, e.p.codeStart)}), 0),
     Hook(OnSkip, At(e.p.skips.Keys), 0), Hook(OnStartFaults, At({e.p.faultStart}), 0),
     Hook(OnStopFaults, At({e.p.faultEnd}), 0), Hook(OnHardStop, At(e.p.hardStops), 0),
     Hook(if e.mode.StatsMode? then Stats else Placebo, Everywhere, 0)]
  }

  const SETUP_HANDLES := Handles(1, 2, 3, 4, 5, 6, 7, 8, 9, 10, 0, 0, 0, 0, 0)

  function PrimaryKind(t: Target): HookKind {
    match t
    case Register => FaultItAddress
    case Instruction => FaultItInstruction
    case InstructionPointer => FaultItIP
  }

  function FaultHook(e: Env, rule: FaultRule, lines: seq<Line>): Hook {
    Hook(PrimaryKind(rule.target), At({ThumbCheck(e.p, LineAt(lines, rule.instruction).address)}), 0)
  }

  const COUNT_HOOK := Hook(CountInstructions, Everywhere, 0)

  /** The hooks ahead of the counting hook. */
  function BaseHooks(e: Env, rule: FaultRule, lines: seq<Line>, started: bool): (hooks: seq<Hook>)
    ensures |hooks| >= 10 && hooks[..10] == SetupHooks(e)
  {
    if started && rule.isSet then SetupHooks(e) + [FaultHook(e, rule, lines)] else SetupHooks(e)
  }

  function BaseHandles(rule: FaultRule, started: bool): (hk: Handles)
    ensures hk.countInstructions == 0
  {
    if started && rule.isSet then SetHandle(SETUP_HANDLES, PrimaryKind(rule.target), 11) else SETUP_HANDLES
  }

  /** How a run came to follow the golden trace: from the start address, or by a restore. */
  datatype Origin = FromStart | Restored(restartAddress: nat)

  predicate HasStarted(o: Origin, t: nat) {
    t > 0 || o.Restored?
  }

  /** A run that has not faulted: these hooks, then the counting hook if the range was entered. */
  function Unfaulted(o: Origin, c: Cpu, base: seq<Hook>, hk: Handles, rule: FaultRule, lines: seq<Line>,
                     classes: seq<Class<FaultRule>>, entered: bool, inRange: bool, passed: nat): Run
  {
    Run(c, if entered then base + [COUNT_HOOK] else base,
        if entered then hk.(countInstructions := |base| + 1) else hk,
        if entered then passed + 1 else 0, inRange,
        if o.FromStart? then NoneRs else StartedFromCheckpoint, false, if o.FromStart? then 0 else o.restartAddress,
        rule, lines, classes, Going, Running, Trail(passed, 0, if o.FromStart? then 0 else 1, [], []))
  }

  /** The run before dispatch t of the golden trace. */
  function Before(e: Env, o: Origin, trace: seq<Cpu>, rule: FaultRule, lines: seq<Line>,
                                        classes: seq<Class<FaultRule>>, t: nat): Run
    requires t < |trace|
  {
    Unfaulted(o, trace[t], BaseHooks(e, rule, lines, HasStarted(o, t)), BaseHandles(rule, HasStarted(o, t)), rule,
              lines, classes,
              Entered(e.p, trace, t), FlagBefore(e.p, trace, t), LinesBefore(e.p, trace, t))
  }

  /** The run within dispatch t, when the hooks of my_uc_engine_setup have been visited. */
  function Within(e: Env, o: Origin, trace: seq<Cpu>, rule: FaultRule, lines: seq<Line>,
                                        classes: seq<Class<FaultRule>>, t: nat): Run
    requires t < |trace|
  {
    Unfaulted(o, trace[t], BaseHooks(e, rule, lines, true), BaseHandles(rule, true), rule, lines, classes,
              Entered(e.p, trace, t + 1), FlagAfter(e.p, trace, t), LinesBefore(e.p, trace, t))
  }

  lemma {:induction false} Idle(e: Env, r: Run, at: Site, i: nat, j: nat)
    requires i <= j <= |r.hooks| && r.control.Going?
    requires forall k :: i <= k < j ==> Visit(e, r, at, k) == r
    ensures Dispatch(e, r, at, i) == Dispatch(e, r, at, j)
    decreases j - i
  {
    hide Visit;
    if i < j {
      OneVisit(e, r, at, i);
      Idle(e, r, at, i + 1, j);
    }
  }

  lemma {:induction false} OneVisit(e: Env, r: Run, at: Site, i: nat)
    requires i < |r.hooks| && r.control.Going?
    ensures |Visit(e, r, at, i).hooks| > i
    ensures Dispatch(e, r, at, i) == Dispatch(e, Visit(e, r, at, i), at, i + 1)
  {
    hide Visit;
    VisitDecreases(e, r, at, i);
  }

  /** Visits to the hooks of my_uc_engine_setup that do nothing. */
  lemma {:induction false} QuietVisit(e: Env, r: Run, at: Site, i: nat)
    requires |r.hooks| >= 10 && r.hooks[..10] == SetupHooks(e) && i < 9
    requires i == 3 ==> at.address != e.p.codeEnd
    requires i == 4 ==> at.address != ThumbCheck(e.p, e.p.codeStart)
    requires i == 5 ==> at.address !in e.p.skips
    requires i == 6 ==> at.address != e.p.faultStart
    requires i == 7 ==> at.address != e.p.faultEnd
    requires i == 8 ==> at.address !in e.p.hardStops
    ensures Visit(e, r, at, i) == r
  {
    hide Call;
    assert r.hooks[i] == r.hooks[..10][i] == SetupHooks(e)[i];
  }

  /** The run within dispatch t, past the start-address hook. */
  function Started(e: Env, o: Origin, trace: seq<Cpu>, rule: FaultRule, lines: seq<Line>,
                                        classes: seq<Class<FaultRule>>, t: nat): (r: Run)
    requires t < |trace|
    ensures |r.hooks| >= 10 && r.hooks[..10] == SetupHooks(e) && r.control.Going?
  {
    Unfaulted(o, trace[t], BaseHooks(e, rule, lines, true), BaseHandles(rule, true), rule, lines, classes,
              Entered(e.p, trace, t), FlagBefore(e.p, trace, t), LinesBefore(e.p, trace, t))
  }

  /** The start address adds the fault hook; no later dispatch does. */
  lemma {:induction false} StartVisit(e: Env, o: Origin, trace: seq<Cpu>, rule: FaultRule, lines: seq<Line>,
                                        classes: seq<Class<FaultRule>>, t: nat)
    requires IsGolden(e.p, trace) && t < |trace| - 1
    requires o.Restored? || !RestoresCheckpoint(e, rule, lines)
    ensures Visit(e, Before(e, o, trace, rule, lines, classes, t), SiteOf(e.p, trace[t]), 4)
         == Started(e, o, trace, rule, lines, classes, t)
  {
    hide RestoreFromCheckpoint;
    var r := Before(e, o, trace, rule, lines, classes, t);
    assert r.hooks[4] == r.hooks[..10][4] == SetupHooks(e)[4];
    if t == 0 && o.FromStart? {
      assert Visit(e, r, SiteOf(e.p, trace[t]), 4) == AtStartAddress(e, r);
    }
  }

  lemma {:induction false} PastStart(e: Env, o: Origin, trace: seq<Cpu>, rule: FaultRule, lines: seq<Line>,
                                        classes: seq<Class<FaultRule>>, t: nat)
    requires IsGolden(e.p, trace) && t < |trace| - 1
    requires o.Restored? || !RestoresCheckpoint(e, rule, lines)
    ensures Dispatch(e, Before(e, o, trace, rule, lines, classes, t), SiteOf(e.p, trace[t]), 0)
         == Dispatch(e, Started(e, o, trace, rule, lines, classes, t), SiteOf(e.p, trace[t]), 5)
  {
    hide Visit, Dispatch, RestoresCheckpoint, SetupHooks;
    var at := SiteOf(e.p, trace[t]);
    var r0 := Before(e, o, trace, rule, lines, classes, t);
    forall k | 0 <= k < 4 ensures Visit(e, r0, at, k) == r0 { QuietVisit(e, r0, at, k); }
    Idle(e, r0, at, 0, 4);
    OneVisit(e, r0, at, 4);
    StartVisit(e, o, trace, rule, lines, classes, t);
  }

  lemma {:induction false} RangeVisits(e: Env, o: Origin, at: Site, c: Cpu, base: seq<Hook>, hk: Handles,
                                       rule: FaultRule, lines: seq<Line>, classes: seq<Class<FaultRule>>,
                                       entered: bool, inRange: bool, passed: nat)
    requires |base| >= 10 && base[..10] == SetupHooks(e) && hk.countInstructions == 0
    requires (inRange ==> entered) && (!entered ==> passed == 0)
    ensures var r := Unfaulted(o, c, base, hk, rule, lines, classes, entered, inRange, passed);
            var r1 := Visit(e, r, at, 6);
            && |r1.hooks| >= 10 && r1.control.Going?
            && Visit(e, r1, at, 7)
               == Unfaulted(o, c, base, hk, rule, lines, classes, entered || at.address == e.p.faultStart,
                            at.address != e.p.faultEnd && (inRange || at.address == e.p.faultStart), passed)
  {
    var r := Unfaulted(o, c, base, hk, rule, lines, classes, entered, inRange, passed);
    assert r.hooks[6] == base[..10][6] == SetupHooks(e)[6];
    var r1 := Visit(e, r, at, 6);
    assert r1 == Unfaulted(o, c, base, hk, rule, lines, classes, entered || at.address == e.p.faultStart,
                           inRange || at.address == e.p.faultStart, passed);
    assert r1.hooks[7] == base[..10][7] == SetupHooks(e)[7];
  }

  /** Up to the caller's hook. */
  lemma {:induction false} ReachWithin(e: Env, o: Origin, trace: seq<Cpu>, rule: FaultRule, lines: seq<Line>,
                                        classes: seq<Class<FaultRule>>, t: nat)
    requires IsGolden(e.p, trace) && t < |trace| - 1 && !SkippedAt(e.p, trace, t)
    requires o.Restored? || !RestoresCheckpoint(e, rule, lines)
    ensures Dispatch(e, Before(e, o, trace, rule, lines, classes, t), SiteOf(e.p, trace[t]), 0)
         == Dispatch(e, Within(e, o, trace, rule, lines, classes, t), SiteOf(e.p, trace[t]), 9)
  {
    hide Visit, Dispatch, FlagBefore, LinesBefore, RestoresCheckpoint, SetupHooks;
    var at := SiteOf(e.p, trace[t]);
    PastStart(e, o, trace, rule, lines, classes, t);
    var r1 := Started(e, o, trace, rule, lines, classes, t);
    QuietVisit(e, r1, at, 5);
    Idle(e, r1, at, 5, 6);
    LineIsEntered(e.p, trace, t);
    RangeVisits(e, o, at, trace[t], BaseHooks(e, rule, lines, true), BaseHandles(rule, true), rule, lines, classes,
                Entered(e.p, trace, t), FlagBefore(e.p, trace, t), LinesBefore(e.p, trace, t));
    OneVisit(e, r1, at, 6);
    OneVisit(e, Visit(e, r1, at, 6), at, 7);
    var r3 := Within(e, o, trace, rule, lines, classes, t);
    QuietVisit(e, r3, at, 8);
    Idle(e, r3, at, 8, 9);
  }

  // ----- one dispatch of a run that does not fault in it -----

  /** The line table after dispatch t: only the stats run changes it. */
  function LinesAfter(e: Env, trace: seq<Cpu>, lines: seq<Line>, t: nat): (after: seq<Line>)
    requires t < |trace|
    ensures |after| == |lines|
    ensures !e.mode.StatsMode? ==> after == lines
  {
    var n := LinesBefore(e.p, trace, t) + 1;
    if e.mode.StatsMode? && IsLine(e.p, trace, t) && n < |lines|
    then lines[n := RecordedLine(e, lines[n], trace[t], SiteOf(e.p, trace[t]))]
    else lines
  }

  /** The primary fault hook is called at dispatch t and finds its line there. */
  predicate Fires(e: Env, trace: seq<Cpu>, rule: FaultRule, lines: seq<Line>, t: nat)
    requires t < |trace|
  {
    rule.isSet && IsLine(e.p, trace, t) && rule.instruction == LinesBefore(e.p, trace, t) + 1 &&
    Pc(e.p, trace[t]) == ThumbCheck(e.p, LineAt(lines, rule.instruction).address)
  }

  lemma {:induction false} CallerVisit(e: Env, o: Origin, trace: seq<Cpu>, rule: FaultRule, lines: seq<Line>,
                                        classes: seq<Class<FaultRule>>, t: nat)
    requires t < |trace| && !SkippedAt(e.p, trace, t) && (e.mode.StatsMode? ==> !rule.isSet)
    ensures Visit(e, Within(e, o, trace, rule, lines, classes, t), SiteOf(e.p, trace[t]), 9)
         == Within(e, o, trace, rule, LinesAfter(e, trace, lines, t), classes, t)
  {
    hide RecordedLine;
    var r := Within(e, o, trace, rule, lines, classes, t);
    LineIsEntered(e.p, trace, t);
    assert r.hooks[9] == r.hooks[..10][9] == SetupHooks(e)[9];
  }

  lemma {:induction false} FaultHookDeclines(e: Env, o: Origin, trace: seq<Cpu>, rule: FaultRule, lines: seq<Line>,
                                        classes: seq<Class<FaultRule>>, t: nat)
    requires t < |trace| && !SkippedAt(e.p, trace, t) && rule.isSet && !Fires(e, trace, rule, lines, t)
    ensures Visit(e, Within(e, o, trace, rule, lines, classes, t), SiteOf(e.p, trace[t]), 10)
         == Within(e, o, trace, rule, lines, classes, t)
  {
    hide DoTheInstructionFault, DoTheIPFault;
    LineIsEntered(e.p, trace, t);
    assert Within(e, o, trace, rule, lines, classes, t).hooks[10] == FaultHook(e, rule, lines);
  }

  lemma {:induction false} CountVisit(e: Env, o: Origin, at: Site, c: Cpu, base: seq<Hook>, hk: Handles,
                                      rule: FaultRule, lines: seq<Line>, classes: seq<Class<FaultRule>>,
                                      entered: bool, inRange: bool, passed: nat)
    requires inRange ==> entered
    ensures var r := Unfaulted(o, c, base, hk, rule, lines, classes, entered, inRange, passed);
            Dispatch(e, r, at, |base|) == if inRange then r.(count := r.count + 1) else r
  {
    var r := Unfaulted(o, c, base, hk, rule, lines, classes, entered, inRange, passed);
    if entered {
      OneVisit(e, r, at, |base|);
      assert r.hooks[|base|] == COUNT_HOOK;
    }
  }

  /** After the caller's hook, a dispatch that does not fault only counts. */
  lemma {:induction false} RestOfDispatch(e: Env, o: Origin, trace: seq<Cpu>, rule: FaultRule, lines: seq<Line>,
                                        classes: seq<Class<FaultRule>>, t: nat)
    requires t < |trace| && !SkippedAt(e.p, trace, t) && (e.mode.StatsMode? ==> !rule.isSet)
    requires !Fires(e, trace, rule, lines, t)
    ensures var r := Within(e, o, trace, rule, LinesAfter(e, trace, lines, t), classes, t);
            Dispatch(e, Within(e, o, trace, rule, lines, classes, t), SiteOf(e.p, trace[t]), 9)
            == if r.inRange then r.(count := r.count + 1) else r
  {
    hide Visit, Dispatch, SetupHooks, Fires, LinesAfter, Entered, FlagAfter, LinesBefore;
    var at := SiteOf(e.p, trace[t]);
    var r, after := Within(e, o, trace, rule, lines, classes, t), LinesAfter(e, trace, lines, t);
    CallerVisit(e, o, trace, rule, lines, classes, t);
    OneVisit(e, r, at, 9);
    var r1 := Within(e, o, trace, rule, after, classes, t);
    if rule.isSet {
      FaultHookDeclines(e, o, trace, rule, after, classes, t);
      OneVisit(e, r1, at, 10);
    }
    LineIsEntered(e.p, trace, t);
    CountVisit(e, o, at, trace[t], BaseHooks(e, rule, after, true), BaseHandles(rule, true), rule, after, classes,
               Entered(e.p, trace, t + 1), FlagAfter(e.p, trace, t), LinesBefore(e.p, trace, t));
  }

  lemma {:induction false} ExecuteStep(e: Env, o: Origin, trace: seq<Cpu>, rule: FaultRule, lines: seq<Line>,
                                        classes: seq<Class<FaultRule>>, t: nat)
    requires IsGolden(e.p, trace) && t < |trace| - 1 && !SkippedAt(e.p, trace, t) && (e.mode.StatsMode? ==> !rule.isSet)
    requires (o.Restored? || !RestoresCheckpoint(e, rule, lines)) && !Fires(e, trace, rule, lines, t)
    ensures Step(e, Before(e, o, trace, rule, lines, classes, t))
         == Before(e, o, trace, rule, LinesAfter(e, trace, lines, t), classes, t + 1)
  {
    hide Dispatch, SetupHooks, RestoresCheckpoint, Fires, LinesAfter;
    ReachWithin(e, o, trace, rule, lines, classes, t);
    RestOfDispatch(e, o, trace, rule, lines, classes, t);
    LineIsEntered(e.p, trace, t);
    assert Advances(e.p, trace[t], trace[t + 1]);
  }

  lemma {:induction false} SkipStep(e: Env, o: Origin, trace: seq<Cpu>, rule: FaultRule, lines: seq<Line>,
                                        classes: seq<Class<FaultRule>>, t: nat)
    requires IsGolden(e.p, trace) && t < |trace| - 1 && SkippedAt(e.p, trace, t)
    requires o.Restored? || !RestoresCheckpoint(e, rule, lines)
    ensures Step(e, Before(e, o, trace, rule, lines, classes, t)) == Before(e, o, trace, rule, lines, classes, t + 1)
  {
    hide Dispatch, Visit, SetupHooks, RestoresCheckpoint;
    var at := SiteOf(e.p, trace[t]);
    PastStart(e, o, trace, rule, lines, classes, t);
    var r1 := Started(e, o, trace, rule, lines, classes, t);
    OneVisit(e, r1, at, 5);
    SkipVisit(e, r1, at);
    assert Dispatch(e, r1, at, 5) == r1.(cpu := trace[t + 1], control := Skipped) by {
      assert Advances(e.p, trace[t], trace[t + 1]);
    }
    assert !IsLine(e.p, trace, t) && FlagAfter(e.p, trace, t) == FlagBefore(e.p, trace, t);
  }

  lemma {:induction false} SkipVisit(e: Env, r: Run, at: Site)
    requires |r.hooks| >= 10 && r.hooks[..10] == SetupHooks(e) && at == SiteOf(e.p, r.cpu) && at.address in e.p.skips
    requires r.control.Going?
    ensures Visit(e, r, at, 5) == r.(cpu := WritePc(e.p, r.cpu, SkipTarget(e.p, r.cpu)), control := Skipped)
    ensures Dispatch(e, Visit(e, r, at, 5), at, 6) == Visit(e, r, at, 5)
  {
    assert r.hooks[5] == r.hooks[..10][5] == SetupHooks(e)[5];
  }

  /** The line table after t dispatches. */
  function LinesUpTo(e: Env, trace: seq<Cpu>, lines: seq<Line>, t: nat): (after: seq<Line>)
    requires t <= |trace|
    ensures |after| == |lines|
    ensures !e.mode.StatsMode? ==> after == lines
  {
    if t == 0 then lines else LinesAfter(e, trace, LinesUpTo(e, trace, lines, t - 1), t - 1)
  }

  /** Until its fault, a run follows the golden trace dispatch by dispatch, with the machine in
      exactly this state. */
  lemma {:induction false} FollowsGolden(e: Env, o: Origin, trace: seq<Cpu>, rule: FaultRule, lines: seq<Line>,
                                         classes: seq<Class<FaultRule>>, t: nat, u: nat)
    requires IsGolden(e.p, trace) && t <= u < |trace| && (e.mode.StatsMode? ==> !rule.isSet)
    requires o.Restored? || !RestoresCheckpoint(e, rule, lines)
    requires forall v :: t <= v < u ==> !Fires(e, trace, rule, lines, v)
    ensures Steps(e, Before(e, o, trace, rule, LinesUpTo(e, trace, lines, t), classes, t), u - t)
         == Before(e, o, trace, rule, LinesUpTo(e, trace, lines, u), classes, u)
  {
    hide Step, Before, SkippedAt, IsGolden;
    if t < u {
      FollowsGolden(e, o, trace, rule, lines, classes, t, u - 1);
      var was := LinesUpTo(e, trace, lines, u - 1);
      if SkippedAt(e.p, trace, u - 1) {
        SkipStep(e, o, trace, rule, was, classes, u - 1);
        assert LinesAfter(e, trace, was, u - 1) == was;
      } else {
        ExecuteStep(e, o, trace, rule, was, classes, u - 1);
      }
    }
  }
}

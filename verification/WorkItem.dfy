/** A whole work item, with the equivalence test: nothing is lost by stopping runs. */
module WorkItem {
  import opened Utils
  import opened Machine
  import opened Equivalence
  import opened Hooks
  import opened GoldenRun
  import opened StatsRun
  import opened Aftermath
  import opened Injection
  import opened ExactlyOnce
  import opened Replay
  import Snapshots
  import opened Segments
  import opened History
  import opened Campaign
  import opened Pruning
  import opened MixedLifespans
  import opened LaterTests
  import opened LastingFaults

  // ----- from the start of a run to its fault -----

  /** How the runs of a line start. */
  ghost predicate StartsAs(e: Env, trace: seq<Cpu>, rule: FaultRule, lines: seq<Line>, o: Origin, t: nat) {
    && HasItsLine(e, trace, rule, lines) && Accepts(rule)
    && if RestoresCheckpoint(e, rule, lines) then RestoresAt(e, trace, rule, lines, t) && t < |trace|
    && o == OriginAt(e, trace, t)
       else o.FromStart?
  }

  /** The steps up to and with the fault. */
  ghost function Delay(e: Env, trace: seq<Cpu>, rule: FaultRule, lines: seq<Line>, o: Origin, t: nat): int
    requires HasItsLine(e, trace, rule, lines)
  {
    FaultDispatch(e, trace, rule, lines) + 1 + if o.Restored? then 2 - t else 0
  }

  lemma {:induction false} AfterDelay(e: Env, trace: seq<Cpu>, rule: FaultRule, lines: seq<Line>,
                                      classes: seq<Class<FaultRule>>, o: Origin, t: nat, n: nat)
    requires StartsAs(e, trace, rule, lines, o, t)
    ensures Delay(e, trace, rule, lines, o, t) > 0
    ensures Steps(e, Launched(e, rule, lines, classes), Delay(e, trace, rule, lines, o, t) + n)
         == Steps(e, AfterFault(e, o, trace, rule, lines, classes), n)
  {
    hide Before, Launched, Step, RestoresAt, RestoresCheckpoint, IsGolden, IsRecorded, Accepts, FaultDispatch,
         HasInjected;
    var u := FaultDispatch(e, trace, rule, lines);
    if o.Restored? {
      CheckpointIsBehind(e, trace, rule, lines, t);
      FastRun(e, trace, rule, lines, classes, t, u - t + 1 + n);
      InjectsOnce(e, o, trace, rule, lines, classes, t, u - t);
      FromHere(e, Before(e, o, trace, rule, lines, classes, t), u - t, n);
    } else {
      LaunchedIsBefore(e, trace, rule, lines, classes);
      InjectsOnce(e, o, trace, rule, lines, classes, 0, u);
      FromHere(e, Launched(e, rule, lines, classes), u, n);
    }
  }

  lemma {:induction false} FromHere(e: Env, r: Run, m: nat, n: nat)
    ensures Steps(e, r, m + 1 + n) == Steps(e, Step(e, Steps(e, r, m)), n)
  {
    hide Step;
    StepsAdd(e, r, m + 1, n);
  }

  lemma {:induction false} EndsLater(e: Env, trace: seq<Cpu>, rule: FaultRule, lines: seq<Line>,
                                     classes: seq<Class<FaultRule>>, o: Origin, t: nat, n: nat)
    requires StartsAs(e, trace, rule, lines, o, t) && Steps(e, Launched(e, rule, lines, classes), n).phase.Ended?
    ensures n >= Delay(e, trace, rule, lines, o, t)
  {
    hide Launched, Steps, RestoresAt, RestoresCheckpoint, HasItsLine, Accepts, FaultDispatch;
    if RestoresCheckpoint(e, rule, lines) {
      RestoredEndsFaulted(e, trace, rule, lines, classes, t, n);
    } else {
      PlainEndsFaulted(e, trace, rule, lines, classes, n);
    }
  }

  // ----- the class table -----

  /** The key a run's test looks up, if the run gets that far. */
  ghost function KeyOf(e: Env, o: Origin, trace: seq<Cpu>, rule: FaultRule, lines: seq<Line>): Option<seq<nat>>
    requires HasItsLine(e, trace, rule, lines)
  {
    match TestedCpu(e, o, trace, rule, lines)
    case None => None
    case Some(c) => Some(StateHashes(e.p, c))
  }

  lemma {:induction false} WasFaulted(e: Env, r: Run)
    requires HasFaulted(e, r)
    ensures r.state.Faulted?
  {
  }

  // ----- the step of the fault -----

  /** A register fault is recorded under its state's key, and stopped exactly when the key is known. */
  lemma {:induction false} FaultRecords(e: Env, o: Origin, w: Run, at: Site) returns (recorded: FaultRule)
    requires e.stopOnEquivalence && AtTheHook(e, o, w, at) && w.rule.target.Register?
    requires |w.hooks| == 12 && IsCalled(w, at, 10) && w.hooks[10].kind.FaultItAddress?
    ensures var key := StateHashes(e.p, FaultedCpu(e.p, w.cpu, w.rule, at.size));
            var d := Dispatch(e, w, at, 10);
            && SameRule(recorded, w.rule) && d.classes == Record(w.classes, key, recorded)
            && (Known(w.classes, key) ==> d.state.EquivalentRs? && !d.control.Going?)
            && (!Known(w.classes, key) ==> d.state.Faulted?) && d.hk.equivalent == 0
  {
    assert IsTheLine(w) && Accepts(w.rule);
    assert Comparable(e.p, w.rule, w.rule);
    ReachSecondHook(e, o, w, at);
    FreshHooks(e, o, w, at);
    hide AtTheHook, Dispatch, FaultAddressHook, FaultRegisterHook, Count, SetupHooks, LaterHooks, FaultedCpu, Accepts,
         HasFaulted, StateHashes, Known, Comparable, GoAlike, Record;
    AlikeToTheFault(w, w, at);
    SameClasses(w, at);
    FaultIgnoresAddress(e.p, w, at);
    var w1 := Count(FaultAddressHook(w, at));
    ComparableToo(e.p, w, w1, at);
    StopsIffKnown(e, w1, at);
    RegisterFires(e, o, w, w1, at);
    var key, d := StateHashes(e.p, FaultedCpu(e.p, w.cpu, w.rule, at.size)), FaultRegisterHook(e, w1, at);
    recorded :| SameRule(recorded, w1.rule) && d.classes == Record(w.classes, key, recorded);
    AddressKeepsRule(w, at);
    if !Known(w.classes, key) {
      FirstOfItsClass(e, w1, at);
      GoAlikeBoth(e, FaultRegisterHook(Unpruned(e), w1, at), d);
      assert d.state.Faulted? by { WasFaulted(e, d); }
    }
    RegisterHasNoTest(e, w1, at);
    if d.control.Going? {
      LifespanDispatch(e, d, at, 13);
    } else {
      EndsThere(e, d, at, 13);
    }
  }

  lemma {:induction false} RegisterRunRecords(e: Env, o: Origin, trace: seq<Cpu>, rule: FaultRule, lines: seq<Line>,
                                              classes: seq<Class<FaultRule>>) returns (recorded: FaultRule)
    requires e.stopOnEquivalence && HasItsLine(e, trace, rule, lines) && Accepts(rule) && rule.target.Register?
    requires o.Restored? || !RestoresCheckpoint(e, rule, lines)
    ensures var r, key := AfterFault(e, o, trace, rule, lines, classes), KeyOf(e, o, trace, rule, lines);
            && key.Some? && SameRule(recorded, rule) && r.classes == Record(classes, key.value, recorded)
            && (r.state.EquivalentRs? <==> Known(classes, key.value)) && IsTested(e, r, RestartBudget(o, rule))
  {
    FiresThereOnly(e, trace, rule, lines);
    var u := FaultDispatch(e, trace, rule, lines);
    var at, w := SiteOf(e.p, trace[u]), Within(e, o, trace, rule, lines, classes, u);
    assert w.classes == classes && w.rule == rule && w.cpu == trace[u];
    hide Dispatch, Visit, SetupHooks, AtTheHook, RestoresCheckpoint, Finish, FaultedCpu, Accepts, Fires, Within,
         StateHashes, Known, Before, IsGolden, IsRecorded, GoesOn, IsOver, Record;
    NotSkipped(e, trace, rule, lines, u);
    ReachWithin(e, o, trace, rule, lines, classes, u);
    AtItsLine(e, o, trace, rule, lines, classes, u);
    TwelveHooks(e, o, w, at);
    OneVisit(e, w, at, 9);
    recorded := FaultRecords(e, o, w, at);
    StepOfBefore(e, o, trace, rule, lines, classes, u);
    FinishKeeps(e, Dispatch(e, w, at, 10));
    LineInjects(e, o, trace, rule, lines, classes, u);
  }

  lemma {:induction false} AddressKeepsRule(w: Run, at: Site)
    ensures SameRule(Count(FaultAddressHook(w, at)).rule, w.rule)
  {
    hide RemoveIfSet, SetHandle;
    RemoveKeepsRule(Install(w.(rule := w.rule.(faultedAddress := at.address)), FaultItRegister, Everywhere));
  }

  lemma {:induction false} RemoveKeepsRule(r: Run)
    ensures RemoveIfSet(r, FaultItAddress).rule == r.rule
  {
  }

  /** What a run with this key makes of the class table: the run's rule is recorded under the key. */
  ghost predicate Leaves(classes: seq<Class<FaultRule>>, key: Option<seq<nat>>, recorded: FaultRule, rule: FaultRule,
                         r: Run)
  {
    if key.Some? then SameRule(recorded, rule) && r.classes == Record(classes, key.value, recorded)
      && (r.state.EquivalentRs? <==> Known(classes, key.value))
    else r.classes == classes && !r.state.EquivalentRs?
  }

  /** A run from its fault to its end. */
  lemma {:induction false} FaultRecordsOnce(e: Env, o: Origin, trace: seq<Cpu>, rule: FaultRule, lines: seq<Line>,
                                            classes: seq<Class<FaultRule>>, n: nat) returns (recorded: FaultRule)
    requires e.stopOnEquivalence && HasItsLine(e, trace, rule, lines) && Accepts(rule)
    requires o.Restored? || !RestoresCheckpoint(e, rule, lines)
    requires Steps(e, AfterFault(e, o, trace, rule, lines, classes), n).phase.Ended?
    ensures Leaves(classes, KeyOf(e, o, trace, rule, lines), recorded, rule,
                   Steps(e, AfterFault(e, o, trace, rule, lines, classes), n))
  {
    hide HasItsLine, Accepts, RestoresCheckpoint, Steps, AfterFault, Record, Known, StateHashes, TestedCpu, IsTested;
    if rule.target.Register? {
      recorded := RegisterRunRecords(e, o, trace, rule, lines, classes);
      TestedSteps(e, AfterFault(e, o, trace, rule, lines, classes), RestartBudget(o, rule), n);
    } else {
      recorded := LaterRunRecords(e, o, trace, rule, lines, classes, n);
    }
  }

  /** A whole run of the work item. */
  lemma {:induction false} RunRecords(e: Env, o: Origin, trace: seq<Cpu>, rule: FaultRule, lines: seq<Line>,
                                      classes: seq<Class<FaultRule>>, t: nat, n: nat) returns (recorded: FaultRule)
    requires e.stopOnEquivalence && StartsAs(e, trace, rule, lines, o, t)
    requires Steps(e, Launched(e, rule, lines, classes), n).phase.Ended?
    ensures var r := Steps(e, Launched(e, rule, lines, classes), n);
            && Leaves(classes, KeyOf(e, o, trace, rule, lines), recorded, rule, r)
            && n >= Delay(e, trace, rule, lines, o, t)
            && r == Steps(e, AfterFault(e, o, trace, rule, lines, classes), n - Delay(e, trace, rule, lines, o, t))
  {
    hide HasItsLine, Accepts, RestoresAt, RestoresCheckpoint, Launched, Steps, AfterFault, KeyOf, Delay, Leaves;
    EndsLater(e, trace, rule, lines, classes, o, t, n);
    AfterDelay(e, trace, rule, lines, classes, o, t, n - Delay(e, trace, rule, lines, o, t));
    recorded := FaultRecordsOnce(e, o, trace, rule, lines, classes, n - Delay(e, trace, rule, lines, o, t));
  }

  // ----- all runs -----

  /** A work item of faults of one line, of any targets, run in order with the equivalence test. */
  ghost predicate IsItem(e: Env, left: Run, trace: seq<Cpu>, rules: seq<FaultRule>, o: Origin, t: nat) {
    && IsClean(left) && left.classes == [] && e.stopOnEquivalence && HashesAreInjective(e.p) && AllEnd(e, left, rules)
    && (forall k :: 0 <= k < |rules| ==> StartsAs(e, trace, rules[k], left.lines, o, t))
    && (forall k :: 0 <= k < |rules| ==> rules[k].instruction == rules[0].instruction)
  }

  lemma {:induction false} ItemCanRun(e: Env, left: Run, trace: seq<Cpu>, rules: seq<FaultRule>, o: Origin, t: nat)
    requires IsItem(e, left, trace, rules, o, t)
    ensures forall rule :: rule in rules ==> CanRun(e, trace, rule, left.lines)
  {
    hide HasItsLine, Accepts, RestoresAt, RestoresCheckpoint, IsClean, AllEnd, HashesAreInjective;
    forall rule | rule in rules ensures CanRun(e, trace, rule, left.lines) {
      var k :| 0 <= k < |rules| && rules[k] == rule;
      assert StartsAs(e, trace, rules[k], left.lines, o, t);
    }
  }

  lemma {:induction false} HasItsLines(e: Env, left: Run, trace: seq<Cpu>, rules: seq<FaultRule>, o: Origin, t: nat,
                                       k: nat)
    requires IsItem(e, left, trace, rules, o, t) && k < |rules|
    ensures StartsAs(e, trace, rules[k], left.lines, o, t)
    ensures e.stopOnEquivalence && HashesAreInjective(e.p) && rules[k].instruction == rules[0].instruction
  {
    hide HasItsLine, Accepts, RestoresAt, RestoresCheckpoint, IsClean, HashesAreInjective, RunOf;
  }

  /** The state run k finds, and the run itself. */
  ghost function Found(e: Env, left: Run, rules: seq<FaultRule>, k: nat): Run
    requires k <= |rules|
  {
    RunAll(e, left, rules[..k])
  }

  lemma {:induction false} FoundByRun(e: Env, left: Run, trace: seq<Cpu>, rules: seq<FaultRule>, o: Origin, t: nat,
                                      k: nat)
    requires IsItem(e, left, trace, rules, o, t) && k < |rules|
    ensures var before, r := Found(e, left, rules, k), RunOf(e, left, rules, k);
            && SameButAddress(r, Outcome(e, Launched(e, rules[k], left.lines, before.classes)))
            && Found(e, left, rules, k + 1).classes == r.classes && r.phase.Ended?
  {
    ItemCanRun(e, left, trace, rules, o, t);
    hide HasItsLine, Accepts, RestoresAt, RestoresCheckpoint, HashesAreInjective, Steps, RunAll, RunOf, Launched;
    AllRunsAreIndependent(e, left, trace, rules, k);
  }

  lemma {:induction false} SameThere(r: Run, s: Run)
    requires SameButAddress(r, s)
    ensures r.classes == s.classes && r.state == s.state && r.phase == s.phase && r.cpu == s.cpu
  {
  }

  /** What run k does with the class table it finds. */
  lemma {:induction false} ItemRun(e: Env, left: Run, trace: seq<Cpu>, rules: seq<FaultRule>, o: Origin, t: nat, k: nat)
    returns (recorded: FaultRule)
    requires IsItem(e, left, trace, rules, o, t) && k < |rules|
    ensures HasItsLine(e, trace, rules[k], left.lines)
    ensures var before, r := Found(e, left, rules, k), RunOf(e, left, rules, k);
            && Leaves(before.classes, KeyOf(e, o, trace, rules[k], left.lines), recorded, rules[k], r)
            && Found(e, left, rules, k + 1).classes == r.classes
            && r.phase.Ended? && SameButAddress(r, Outcome(e,
                                                           AfterFault(e, o, trace, rules[k], left.lines,
                                                                      before.classes)))
  {
    hide IsItem, Launched, Steps, AfterFault, Record, Known, KeyOf, Delay, RunOf, HasItsLine, StartsAs, Found,
         SameButAddress, HashesAreInjective;
    HasItsLines(e, left, trace, rules, o, t, k);
    NoRestore(e, trace, rules[k], left.lines, o, t);
    FoundByRun(e, left, trace, rules, o, t, k);
    var before := Found(e, left, rules, k);
    SameThere(RunOf(e, left, rules, k), Outcome(e, Launched(e, rules[k], left.lines, before.classes)));
    var n := OutcomeEnds(e, Launched(e, rules[k], left.lines, before.classes));
    recorded := RunRecords(e, o, trace, rules[k], left.lines, before.classes, t, n);
    OutcomeIs(e, AfterFault(e, o, trace, rules[k], left.lines, before.classes),
              n - Delay(e, trace, rules[k], left.lines, o, t));
  }

  /** A key is known to run k exactly when an earlier run was tested under it. */
  lemma {:induction false} KnownIffEarlier(e: Env, left: Run, trace: seq<Cpu>, rules: seq<FaultRule>, o: Origin,
                                           t: nat, k: nat, key: seq<nat>)
    requires IsItem(e, left, trace, rules, o, t) && k <= |rules|
    ensures Known(Found(e, left, rules, k).classes, key)
       <==> exists i :: 0 <= i < k && HasKey(e, o, trace, rules, left.lines, i, key)
  {
    hide IsItem, RunOf, AfterFault, Steps, Delay, Record, KeyOf, Found, Known, HasItsLine, Accepts, RestoresAt,
         RestoresCheckpoint, SameButAddress;
    if k == 0 {
      StartsEmpty(e, left, trace, rules, o, t, key);
    } else {
      KnownIffEarlier(e, left, trace, rules, o, t, k - 1, key);
      var recorded := ItemRun(e, left, trace, rules, o, t, k - 1);
      var own := KeyOf(e, o, trace, rules[k - 1], left.lines);
      if own.Some? {
        RecordKnows(Found(e, left, rules, k - 1).classes, own.value, recorded, key);
      }
      OneMoreKey(e, o, trace, rules, left.lines, k, key);
    }
  }

  lemma {:induction false} OneMoreKey(e: Env, o: Origin, trace: seq<Cpu>, rules: seq<FaultRule>, lines: seq<Line>,
                                      k: nat, key: seq<nat>)
    requires 0 < k <= |rules| && HasItsLine(e, trace, rules[k - 1], lines)
    ensures (exists i :: 0 <= i < k && HasKey(e, o, trace, rules, lines, i, key)) <==>
            (exists i :: 0 <= i < k - 1 && HasKey(e, o, trace, rules, lines, i, key))
            || KeyOf(e, o, trace, rules[k - 1], lines) == Some(key)
  {
    hide HasItsLine, KeyOf;
    assert KeyOf(e, o, trace, rules[k - 1], lines) == Some(key) <==> HasKey(e, o, trace, rules, lines, k - 1, key);
  }

  ghost predicate HasKey(e: Env, o: Origin, trace: seq<Cpu>, rules: seq<FaultRule>, lines: seq<Line>, i: nat,
                         key: seq<nat>) {
    i < |rules| && HasItsLine(e, trace, rules[i], lines) && KeyOf(e, o, trace, rules[i], lines) == Some(key)
  }

  lemma {:induction false} StartsEmpty(e: Env, left: Run, trace: seq<Cpu>, rules: seq<FaultRule>, o: Origin, t: nat,
                                       key: seq<nat>)
    requires IsItem(e, left, trace, rules, o, t)
    ensures !Known(Found(e, left, rules, 0).classes, key)
  {
    hide StartsAs, IsClean, AllEnd, HashesAreInjective;
    assert rules[..0] == [];
    assert Found(e, left, rules, 0) == left;
  }

  // ----- what a stopped run would have come to -----

  /** Pairs the key can tell nothing about: lasting faults of any targets, and register faults reverted
      alike or repeating the same fault.  c is the CPU at their line. */
  ghost predicate AreJudged(p: Program, c: Cpu, a: FaultRule, b: FaultRule) {
    Comparable(p, a, b) ||
    (LastsForEver(a) && LastsForEver(b) && ((a.target.Register? && b.target.Register?) || SiteIsHashed(p, c)))
  }

  lemma {:induction false} AlikeEndsTheSame(r: Run, s: Run)
    requires Alike(r, s) && r.phase.Ended?
    ensures EndTheSame(r, s)
  {
  }

  /** a is the first of its class, and b is tested under its key.  Where a's run ends, b's would have ended
      too, with the same CPU and the same result. */
  lemma {:induction false} StoppedForNothing(e: Env, o: Origin, trace: seq<Cpu>, a: FaultRule, b: FaultRule,
                                             lines: seq<Line>, ca: seq<Class<FaultRule>>, cb: seq<Class<FaultRule>>,
                                             n: nat, key: seq<nat>)
    requires e.stopOnEquivalence && HashesAreInjective(e.p) && a.instruction == b.instruction
    requires HasItsLine(e, trace, a, lines) && HasItsLine(e, trace, b, lines) && Accepts(a) && Accepts(b)
    requires AreJudged(e.p, trace[FaultDispatch(e, trace, a, lines)], a, b)
    requires o.Restored? || (!RestoresCheckpoint(e, a, lines) && !RestoresCheckpoint(e, b, lines))
    requires KeyOf(e, o, trace, a, lines) == KeyOf(e, o, trace, b, lines) == Some(key) && !Known(ca, key)
    requires Steps(e, AfterFault(e, o, trace, a, lines, ca), n).phase.Ended?
    ensures HasItsLine(Unpruned(e), trace, b, lines)
    ensures EndTheSame(Steps(e, AfterFault(e, o, trace, a, lines, ca), n),
                       Outcome(Unpruned(e), AfterFault(Unpruned(e), o, trace, b, lines, cb)))
  {
    StillHasItsLine(e, trace, b, lines);
    if Comparable(e.p, a, b) {
      SameLineOf(e, trace, a, b, lines);
      UnprunedToo(e, o, trace, b, lines, cb, FaultDispatch(e, trace, b, lines));
      hide StateHashes, HashesAreInjective, FaultedCpu, Accepts, HasItsLine, RestoresCheckpoint, Known, Steps, Step,
           Before, Comparable, Alike, FaultDispatch, Outcome;
      PruningLosesNothing(e, o, trace, a, b, lines, ca, cb, n);
      AlikeEndsTheSame(Steps(e, AfterFault(e, o, trace, a, lines, ca), n),
                       Steps(Unpruned(e), AfterFault(Unpruned(e), o, trace, b, lines, cb), n));
      OutcomeIs(Unpruned(e), AfterFault(Unpruned(e), o, trace, b, lines, cb), n);
    } else {
      hide StateHashes, HashesAreInjective, Accepts, HasItsLine, RestoresCheckpoint, Known, Steps, AfterFault,
           FaultDispatch, Outcome, TestedCpu, LastsForEver, SiteIsHashed;
      OneKeyOneEnd(e, o, trace, a, b, lines, ca, cb, n);
    }
  }

  // ----- the work item -----

  lemma {:induction false} FirstWithKey(e: Env, o: Origin, trace: seq<Cpu>, rules: seq<FaultRule>, lines: seq<Line>,
                                        k: nat, key: seq<nat>) returns (i: nat)
    requires exists i :: 0 <= i < k && HasKey(e, o, trace, rules, lines, i, key)
    ensures i < k && HasKey(e, o, trace, rules, lines, i, key)
    ensures forall m :: 0 <= m < i ==> !HasKey(e, o, trace, rules, lines, m, key)
  {
    hide HasKey;
    if exists i :: 0 <= i < k - 1 && HasKey(e, o, trace, rules, lines, i, key) {
      i := FirstWithKey(e, o, trace, rules, lines, k - 1, key);
    } else {
      i := k - 1;
    }
  }

  lemma {:induction false} StartsUnpruned(e: Env, trace: seq<Cpu>, rule: FaultRule, lines: seq<Line>, o: Origin, t: nat)
    requires StartsAs(e, trace, rule, lines, o, t)
    ensures StartsAs(Unpruned(e), trace, rule, lines, o, t)
  {
    StillHasItsLine(e, trace, rule, lines);
    hide IsGolden, HasItsLine, Accepts, FaultDispatch, Snapshots.KeepsMapping, IsRecorded, Snapshots.Resumable;
  }

  /** From its launch a run comes to what it comes to from its fault. */
  lemma {:induction false} SameOutcome(e: Env, trace: seq<Cpu>, rule: FaultRule, lines: seq<Line>,
                                       classes: seq<Class<FaultRule>>, o: Origin, t: nat)
    requires StartsAs(e, trace, rule, lines, o, t)
    requires Outcome(e, AfterFault(e, o, trace, rule, lines, classes)).phase.Ended?
    ensures Outcome(e, Launched(e, rule, lines, classes)) == Outcome(e, AfterFault(e, o, trace, rule, lines, classes))
  {
    hide Launched, Steps, RestoresAt, RestoresCheckpoint, HasItsLine, Accepts, AfterFault, Delay, Outcome;
    var m := OutcomeEnds(e, AfterFault(e, o, trace, rule, lines, classes));
    AfterDelay(e, trace, rule, lines, classes, o, t, m);
    OutcomeIs(e, Launched(e, rule, lines, classes), Delay(e, trace, rule, lines, o, t) + m);
  }

  /** The CPU at the line of the item's rules. */
  ghost function LineCpu(e: Env, trace: seq<Cpu>, rule: FaultRule, lines: seq<Line>): Cpu
    requires HasItsLine(e, trace, rule, lines)
  {
    trace[FaultDispatch(e, trace, rule, lines)]
  }

  /** Both runs come to the test, under one key. */
  ghost predicate ShareKey(e: Env, o: Origin, trace: seq<Cpu>, rules: seq<FaultRule>, lines: seq<Line>, i: nat,
                           j: nat) {
    && i < |rules| && j < |rules| && HasItsLine(e, trace, rules[i], lines) && HasItsLine(e, trace, rules[j], lines)
    && KeyOf(e, o, trace, rules[i], lines) == KeyOf(e, o, trace, rules[j], lines) != None
  }

  /** Run i was not stopped, and run j was tested under its key.  Then where run i ended, run j would have
      ended without the test: with the same CPU and the same result. */
  lemma {:induction false} StoppedRun(e: Env, left: Run, trace: seq<Cpu>, rules: seq<FaultRule>, o: Origin, t: nat,
                                      i: nat, j: nat)
    requires IsItem(e, left, trace, rules, o, t) && ShareKey(e, o, trace, rules, left.lines, i, j)
    requires AreJudged(e.p, LineCpu(e, trace, rules[i], left.lines), rules[i], rules[j])
    requires !RunOf(e, left, rules, i).state.EquivalentRs?
    ensures EndTheSame(RunOf(e, left, rules, i), Outcome(Unpruned(e), Launched(Unpruned(e), rules[j], left.lines, [])))
  {
    hide IsItem, Launched, Steps, AfterFault, Record, Known, KeyOf, Delay, RunOf, Found, SameButAddress, AreJudged,
         StartsAs, HashesAreInjective, HasItsLine, Outcome, FaultDispatch;
    HasItsLines(e, left, trace, rules, o, t, i);
    HasItsLines(e, left, trace, rules, o, t, j);
    NoRestore(e, trace, rules[i], left.lines, o, t);
    NoRestore(e, trace, rules[j], left.lines, o, t);
    var recorded := ItemRun(e, left, trace, rules, o, t, i);
    var f, a, b, lines := Unpruned(e), rules[i], rules[j], left.lines;
    var found := Found(e, left, rules, i).classes;
    SameThere(RunOf(e, left, rules, i), Outcome(e, AfterFault(e, o, trace, a, lines, found)));
    var n := OutcomeEnds(e, AfterFault(e, o, trace, a, lines, found));
    StoppedForNothing(e, o, trace, a, b, lines, found, [], n, KeyOf(e, o, trace, a, lines).value);
    StartsUnpruned(e, trace, b, lines, o, t);
    SameOutcome(f, trace, b, lines, [], o, t);
  }

  lemma {:induction false} NoRestore(e: Env, trace: seq<Cpu>, a: FaultRule, lines: seq<Line>, o: Origin, t: nat)
    requires StartsAs(e, trace, a, lines, o, t)
    ensures o.Restored? || !RestoresCheckpoint(e, a, lines)
    ensures HasItsLine(e, trace, a, lines) && Accepts(a)
  {
    hide HasItsLine, Accepts, RestoresAt;
  }

  /** The whole work item: for every run the test stopped there is an earlier one that it did not stop, and
      that was tested under the same key; and what the stopped run would have come to without the test, its
      last CPU and its result, is what that earlier run came to. */
  lemma {:induction false} WorkItemLosesNothing(e: Env, left: Run, trace: seq<Cpu>, rules: seq<FaultRule>, o: Origin,
                                                t: nat, j: nat)
    returns (i: nat)
    requires IsItem(e, left, trace, rules, o, t) && j < |rules|
    requires forall i :: 0 <= i < j && ShareKey(e, o, trace, rules, left.lines, i, j) ==>
               AreJudged(e.p, LineCpu(e, trace, rules[i], left.lines), rules[i], rules[j])
    requires RunOf(e, left, rules, j).state.EquivalentRs?
    ensures i < j && !RunOf(e, left, rules, i).state.EquivalentRs? && ShareKey(e, o, trace, rules, left.lines, i, j)
    ensures EndTheSame(RunOf(e, left, rules, i), Outcome(Unpruned(e), Launched(Unpruned(e), rules[j], left.lines, [])))
  {
    hide IsItem, Launched, Steps, AfterFault, Record, Known, KeyOf, Delay, RunOf, Found, SameButAddress, HasItsLine,
         AreJudged, EndTheSame, LineCpu;
    var recorded := ItemRun(e, left, trace, rules, o, t, j);
    var key := KeyOf(e, o, trace, rules[j], left.lines).value;
    KnownIffEarlier(e, left, trace, rules, o, t, j, key);
    i := FirstWithKey(e, o, trace, rules, left.lines, j, key);
    assert ShareKey(e, o, trace, rules, left.lines, i, j);
    recorded := ItemRun(e, left, trace, rules, o, t, i);
    KnownIffEarlier(e, left, trace, rules, o, t, i, key);
    StoppedRun(e, left, trace, rules, o, t, i, j);
  }
}

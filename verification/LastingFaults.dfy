/** Lasting faults of one line, of any target: with one key, they come to one end. */
module LastingFaults {
  import opened Utils
  import opened Machine
  import opened Hooks
  import opened Equivalence
  import opened GoldenRun
  import opened StatsRun
  import opened Aftermath
  import opened Injection
  import opened ExactlyOnce
  import opened Segments
  import opened Pruning
  import opened MixedLifespans
  import opened LaterTests

  /** Both have ended, with one CPU and one result. */
  predicate EndTheSame(r: Run, s: Run) {
    r.phase.Ended? && s.phase.Ended? && r.cpu == s.cpu && r.state == s.state
  }

  // ----- runs that come to one CPU -----

  /** The run comes to this CPU with no hook left behind the counting hook, and is about to dispatch it, or
      has just executed its instruction. */
  ghost predicate ComesTo(e: Env, r: Run, c: Cpu, budget: nat, m: nat) {
    var s := Steps(e, r, m);
    IsPlain(e, s, budget) &&
    ((IsOrdinary(e, Pc(e.p, c)) && HasDone(s, e.p.exec(c))) ||
     (s.cpu == c && s.phase.Running? && s.state.Faulted? && !s.restart))
  }

  lemma {:induction false} GoesPast(e: Env, r: Run, c: Cpu, budget: nat, m: nat) returns (k: nat)
    requires ComesTo(e, r, c, budget, m) && IsOrdinary(e, Pc(e.p, c))
    ensures IsPlain(e, Steps(e, r, k), budget) && HasDone(Steps(e, r, k), e.p.exec(c))
  {
    hide IsFaulted, Step, HasDone, IsOrdinary;
    k := m;
    if !HasDone(Steps(e, r, m), e.p.exec(c)) {
      k := m + 1;
      PlainStays(e, Steps(e, r, m), budget);
      PlainStep(e, Steps(e, r, m), budget);
    }
  }

  lemma {:induction false} Meet(e: Env, f: Env, r: Run, s: Run, c: Cpu, br: nat, bs: nat, m: nat, k: nat)
    returns (i: nat, j: nat)
    requires f == e || f == Unpruned(e)
    requires ComesTo(e, r, c, br, m) && ComesTo(f, s, c, bs, k)
    ensures IsPlain(e, Steps(e, r, i), br) && IsPlain(f, Steps(f, s, j), bs) && SameRun(Steps(e, r, i), Steps(f, s, j))
  {
    hide IsPlain, Steps, HasDone;
    if IsOrdinary(e, Pc(e.p, c)) {
      i := GoesPast(e, r, c, br, m);
      j := GoesPast(f, s, c, bs, k);
      DoneAlike(Steps(e, r, i), Steps(f, s, j), e.p.exec(c));
    } else {
      i, j := m, k;
    }
  }

  /** Where one ends, so does the other. */
  lemma {:induction false} EndAlike(e: Env, f: Env, r: Run, s: Run, c: Cpu, br: nat, bs: nat, m: nat, k: nat, n: nat)
    requires f == e || f == Unpruned(e)
    requires ComesTo(e, r, c, br, m) && ComesTo(f, s, c, bs, k) && Steps(e, r, n).phase.Ended?
    ensures EndTheSame(Steps(e, r, n), Outcome(f, s))
  {
    hide ComesTo, IsPlain, Steps, SameRun, Outcome;
    var i, j := Meet(e, f, r, s, c, br, bs, m, k);
    PlainSteps(e, f, Steps(e, r, i), Steps(f, s, j), br, bs, n);
    StepsAdd(e, r, i, n);
    StepsAdd(f, s, j, n);
    EndedStays(e, r, n, i + n);
    SameCpu(Steps(e, r, i + n), Steps(f, s, j + n));
    OutcomeIs(f, s, j + n);
  }

  // ----- from the fault -----

  lemma {:induction false} PlainAtTheStart(e: Env, r: Run, budget: nat)
    requires IsFaulted(e, r, budget) && r.hk.lifespan == 0 && r.hk.equivalent == 0
    ensures IsPlain(e, r, budget)
  {
    hide IsFaulted;
  }

  /** Without the test. */
  lemma {:induction false} UntestedComes(e: Env, o: Origin, trace: seq<Cpu>, rule: FaultRule, lines: seq<Line>,
                                         classes: seq<Class<FaultRule>>) returns (m: nat)
    requires HasItsLine(e, trace, rule, lines) && HasItsLine(Unpruned(e), trace, rule, lines) && Accepts(rule)
    requires !rule.target.Register? && LastsForEver(rule) && TestedCpu(e, o, trace, rule, lines).Some?
    requires o.Restored? || (!RestoresCheckpoint(e, rule, lines) && !RestoresCheckpoint(Unpruned(e), rule, lines))
    ensures ComesTo(Unpruned(e), AfterFault(Unpruned(e), o, trace, rule, lines, classes),
                    TestedCpu(e, o, trace, rule, lines).value, RestartBudget(o, rule), m)
  {
    hide IsFaulted, Steps, AfterFault, HasItsLine, Accepts, RestoresCheckpoint, Begins, TestWaits, LastsForEver,
         TestedCpu, IsOrdinary, IsPlain, NeverThere;
    var f, budget := Unpruned(e), RestartBudget(o, rule);
    var s := AfterFault(f, o, trace, rule, lines, classes);
    FaultBegins(f, o, trace, rule, lines, classes);
    PlainAtTheStart(f, s, budget);
    m := ComesThere(e, f, o, trace, rule, lines, classes);
    PlainAll(f, s, budget, m);
    IsRunning(f, Steps(f, s, m), budget);
  }

  lemma {:induction false} PlainAll(e: Env, r: Run, budget: nat, m: nat)
    requires IsPlain(e, r, budget)
    ensures IsPlain(e, Steps(e, r, m), budget)
  {
    hide IsPlain, Step;
    if m > 0 {
      PlainAll(e, r, budget, m - 1);
      PlainStays(e, Steps(e, r, m - 1), budget);
    }
  }

  lemma {:induction false} IsRunning(e: Env, r: Run, budget: nat)
    requires IsPlain(e, r, budget) && GetsThere(e, r)
    ensures r.phase.Running? && r.state.Faulted? && !r.restart
  {
    RunningHasFaulted(e, r, budget);
  }

  /** With the test, when the key is new. */
  lemma {:induction false} TestedComes(e: Env, o: Origin, trace: seq<Cpu>, rule: FaultRule, lines: seq<Line>,
                                       classes: seq<Class<FaultRule>>) returns (m: nat)
    requires HasItsLine(e, trace, rule, lines) && Accepts(rule) && e.stopOnEquivalence
    requires !rule.target.Register? && LastsForEver(rule) && (o.Restored? || !RestoresCheckpoint(e, rule, lines))
    requires var c := TestedCpu(e, o, trace, rule, lines);
             c.Some? && !Known(classes, StateHashes(e.p, c.value))
    ensures ComesTo(e, AfterFault(e, o, trace, rule, lines, classes), TestedCpu(e, o, trace, rule, lines).value,
                    RestartBudget(o, rule), m)
  {
    hide IsFaulted, Step, AfterFault, HasItsLine, Accepts, RestoresCheckpoint, Begins, TestWaits, LastsForEver,
         TestedCpu, IsOrdinary, NeverThere, HasDone, StateHashes, Record, Known;
    var budget, r := RestartBudget(o, rule), AfterFault(e, o, trace, rule, lines, classes);
    FaultBegins(e, o, trace, rule, lines, classes);
    BeginsGoing(e.p, trace[FaultDispatch(e, trace, rule, lines)], rule, r);
    var l := ComesThere(e, e, o, trace, rule, lines, classes);
    UntilThere(e, r, budget, l);
    WaitsStill(r, Steps(e, r, l));
    TestStep(e, Steps(e, r, l), budget);
    StaysFaulted(e, Steps(e, r, l), budget);
    m := l + 1;
  }

  /** A register fault without the test. */
  lemma {:induction false} RegisterComes(e: Env, o: Origin, trace: seq<Cpu>, rule: FaultRule, lines: seq<Line>,
                                         classes: seq<Class<FaultRule>>)
    requires !e.stopOnEquivalence && HasItsLine(e, trace, rule, lines) && Accepts(rule)
    requires rule.target.Register? && LastsForEver(rule) && (o.Restored? || !RestoresCheckpoint(e, rule, lines))
    ensures var c := trace[FaultDispatch(e, trace, rule, lines)];
            ComesTo(e, AfterFault(e, o, trace, rule, lines, classes), FaultedCpu(e.p, c, rule, e.p.size(c)),
                    RestartBudget(o, rule), 0)
  {
    assert FaultsOnce(rule) && !IsReverted(rule);
    hide Before, Within, FaultedCpu, Accepts, IsGolden, IsRecorded, RestoresCheckpoint, Fires, Step, Finish, IsMade,
         LastsForEver, GoesOn, IsOver, MayRevert, IsOrdinary, HasDone;
    FiresThereOnly(e, trace, rule, lines);
    var u := FaultDispatch(e, trace, rule, lines);
    var at, w := SiteOf(e.p, trace[u]), Within(e, o, trace, rule, lines, classes, u);
    var d := FaultStepIs(e, o, trace, rule, lines, classes, u);
    MadeFinishes(e, w, at, d);
    LineInjects(e, o, trace, rule, lines, classes, u);
    WithinThere(e, o, trace, rule, lines, classes, u);
    MadeDoes(e, w, at, d);
    NotReverted(e, w, at, d);
    assert Steps(e, Finish(e, d), 0) == Finish(e, d);
    PlainAtTheStart(e, Finish(e, d), RestartBudget(o, rule));
    FaultedAtLine(e, trace, rule, lines, u);
  }

  lemma {:induction false} WithinThere(e: Env, o: Origin, trace: seq<Cpu>, rule: FaultRule, lines: seq<Line>,
                                       classes: seq<Class<FaultRule>>, u: nat)
    requires u < |trace|
    ensures var w := Within(e, o, trace, rule, lines, classes, u);
            w.phase.Running? && !w.restart && w.cpu == trace[u] && w.rule == rule
  {
    hide SetupHooks;
  }

  lemma {:induction false} MadeDoes(e: Env, w: Run, at: Site, d: Run)
    requires IsMade(e, w, at, d) && w.phase.Running? && !w.restart
    ensures var s, c := Finish(e, d), FaultedCpu(e.p, w.cpu, w.rule, at.size);
            if w.rule.number == e.p.pcReg then s.cpu == c && s.phase.Running? && s.state.Faulted? && !s.restart
            else HasDone(s, e.p.exec(c))
  {
    hide FaultedCpu, Fire, MayRevert;
    FireOnlyLogs(w, at);
  }

  lemma {:induction false} NotReverted(e: Env, w: Run, at: Site, d: Run)
    requires IsMade(e, w, at, d) && !IsReverted(w.rule)
    ensures Finish(e, d).hk.lifespan == 0 && Finish(e, d).hk.equivalent == 0
  {
    hide FaultedCpu, Fire;
    FinishKeeps(e, d);
  }

  /** A fault of another register leaves the program counter at its line. */
  lemma {:induction false} FaultedAtLine(e: Env, trace: seq<Cpu>, rule: FaultRule, lines: seq<Line>, u: nat)
    requires HasItsLine(e, trace, rule, lines) && u < Last(trace) && Fires(e, trace, rule, lines, u) && Accepts(rule)
    requires rule.target.Register?
    ensures rule.number != e.p.pcReg ==> IsOrdinary(e, Pc(e.p, FaultedCpu(e.p, trace[u], rule, e.p.size(trace[u]))))
  {
    hide FaultReg, Accepts, IsRecorded;
    SamePc(e.p, trace[u], rule, e.p.size(trace[u]));
  }

  lemma {:induction false} SamePc(p: Program, c: Cpu, rule: FaultRule, size: nat)
    ensures rule.number != p.pcReg ==> Pc(p, FaultedCpu(p, c, rule, size)) == Pc(p, c)
  {
    hide FaultReg;
  }

  // ----- what the key tells -----

  /** No byte of the instruction is in the part of the stack the key leaves out. */
  ghost predicate SiteIsHashed(p: Program, c: Cpu) {
    forall x: nat :: Pc(p, c) <= x < Pc(p, c) + p.size(c) && x in c.mem ==> IsHashed(p, x)
  }

  /** The memory is that of c, but for the instruction's bytes. */
  ghost predicate SameButSite(p: Program, c: Cpu, d: Cpu) {
    && d.mem.Keys == c.mem.Keys
    && forall x: nat :: x in c.mem && !(Pc(p, c) <= x < Pc(p, c) + p.size(c)) ==> d.mem[x] == c.mem[x]
  }

  lemma {:induction false} BeginsThere(p: Program, c: Cpu, rule: FaultRule, r: Run)
    requires Begins(p, c, rule, r)
    ensures SameButSite(p, c, r.cpu)
  {
    hide ReadMem, FaultBytes;
  }

  lemma {:induction false} TestedMemory(e: Env, o: Origin, trace: seq<Cpu>, rule: FaultRule, lines: seq<Line>)
    requires HasItsLine(e, trace, rule, lines) && Accepts(rule) && (o.Restored? || !RestoresCheckpoint(e, rule, lines))
    requires TestedCpu(e, o, trace, rule, lines).Some?
    ensures SameButSite(e.p, trace[FaultDispatch(e, trace, rule, lines)], TestedCpu(e, o, trace, rule, lines).value)
  {
    hide IsFaulted, Step, AfterFault, HasItsLine, Accepts, RestoresCheckpoint, Begins, TestWaits, LastsForEver,
         FaultedCpu, Pc;
    if !rule.target.Register? {
      var r, c := AfterFault(e, o, trace, rule, lines, []), trace[FaultDispatch(e, trace, rule, lines)];
      FaultBegins(e, o, trace, rule, lines, []);
      BeginsThere(e.p, c, rule, r);
      var m := TestedThere(e, o, trace, rule, lines);
      UntilThere(e, r, RestartBudget(o, rule), m);
    }
  }

  /** One key, one state. */
  lemma {:induction false} OneTested(p: Program, c: Cpu, d1: Cpu, d2: Cpu)
    requires HashesAreInjective(p) && SiteIsHashed(p, c) && SameButSite(p, c, d1) && SameButSite(p, c, d2)
    requires StateHashes(p, d1) == StateHashes(p, d2)
    ensures d1 == d2
  {
    hide StateHashes, HashesAreInjective, IsHashed, Pc;
    SameKeyIff(p, d1, d2);
    forall x | x in d1.mem ensures d1.mem[x] == d2.mem[x] {
      assert x in c.mem;
    }
    assert d1.mem == d2.mem;
  }

  // ----- two rules -----

  lemma {:induction false} StillHasItsLine(e: Env, trace: seq<Cpu>, rule: FaultRule, lines: seq<Line>)
    requires HasItsLine(e, trace, rule, lines)
    ensures HasItsLine(Unpruned(e), trace, rule, lines)
    ensures FaultDispatch(Unpruned(e), trace, rule, lines) == FaultDispatch(e, trace, rule, lines)
    ensures RestoresCheckpoint(Unpruned(e), rule, lines) == RestoresCheckpoint(e, rule, lines)
  {
    hide IsGolden;
  }

  lemma {:induction false} SameLineOf(e: Env, trace: seq<Cpu>, a: FaultRule, b: FaultRule, lines: seq<Line>)
    requires HasItsLine(e, trace, a, lines) && HasItsLine(e, trace, b, lines) && a.instruction == b.instruction
    ensures FaultDispatch(e, trace, a, lines) == FaultDispatch(e, trace, b, lines)
  {
  }

  lemma {:induction false} FirstIsWhole(e: Env, o: Origin, trace: seq<Cpu>, a: FaultRule, lines: seq<Line>,
                                        ca: seq<Class<FaultRule>>, n: nat)
    requires e.stopOnEquivalence && HasItsLine(e, trace, a, lines) && HasItsLine(Unpruned(e), trace, a, lines)
    requires Accepts(a)
    requires a.target.Register? && (o.Restored? || !RestoresCheckpoint(e, a, lines))
    requires !Known(ca, StateHashes(e.p, TestedCpu(e, o, trace, a, lines).value))
    requires Steps(e, AfterFault(e, o, trace, a, lines, ca), n).phase.Ended?
    ensures EndTheSame(Steps(Unpruned(e), AfterFault(Unpruned(e), o, trace, a, lines, ca), n),
                       Steps(e, AfterFault(e, o, trace, a, lines, ca), n))
  {
    StillHasItsLine(e, trace, a, lines);
    UnprunedToo(e, o, trace, a, lines, ca, FaultDispatch(e, trace, a, lines));
    hide StateHashes, FaultedCpu, Accepts, HasItsLine, RestoresCheckpoint, Known, Steps, Step, Before, FaultDispatch;
    FirstRunIsWhole(e, o, trace, a, lines, ca, n);
  }

  /** Without the test a lasting fault comes to the CPU it would be tested on. */
  lemma {:induction false} ComesUntested(e: Env, o: Origin, trace: seq<Cpu>, rule: FaultRule, lines: seq<Line>,
                                         classes: seq<Class<FaultRule>>) returns (m: nat)
    requires HasItsLine(e, trace, rule, lines) && HasItsLine(Unpruned(e), trace, rule, lines) && Accepts(rule)
    requires LastsForEver(rule) && TestedCpu(e, o, trace, rule, lines).Some?
    requires o.Restored? || !RestoresCheckpoint(e, rule, lines)
    ensures ComesTo(Unpruned(e), AfterFault(Unpruned(e), o, trace, rule, lines, classes),
                    TestedCpu(e, o, trace, rule, lines).value, RestartBudget(o, rule), m)
  {
    StillHasItsLine(e, trace, rule, lines);
    hide AfterFault, HasItsLine, Accepts, RestoresCheckpoint, LastsForEver, ComesTo, FaultedCpu, FaultDispatch;
    if rule.target.Register? {
      RegisterComes(Unpruned(e), o, trace, rule, lines, classes);
      m := 0;
    } else {
      m := UntestedComes(e, o, trace, rule, lines, classes);
    }
  }

  lemma {:induction false} SameTested(e: Env, o: Origin, trace: seq<Cpu>, a: FaultRule, b: FaultRule, lines: seq<Line>)
    requires HashesAreInjective(e.p) && a.instruction == b.instruction
    requires HasItsLine(e, trace, a, lines) && HasItsLine(e, trace, b, lines) && Accepts(a) && Accepts(b)
    requires (a.target.Register? && b.target.Register?) || SiteIsHashed(e.p, trace[FaultDispatch(e, trace, a, lines)])
    requires o.Restored? || (!RestoresCheckpoint(e, a, lines) && !RestoresCheckpoint(e, b, lines))
    requires var c, d := TestedCpu(e, o, trace, a, lines), TestedCpu(e, o, trace, b, lines);
             c.Some? && d.Some? && StateHashes(e.p, c.value) == StateHashes(e.p, d.value)
    ensures TestedCpu(e, o, trace, a, lines) == TestedCpu(e, o, trace, b, lines)
  {
    SameLineOf(e, trace, a, b, lines);
    hide AfterFault, HasItsLine, Accepts, RestoresCheckpoint, FaultDispatch, StateHashes, HashesAreInjective,
         SiteIsHashed, SameButSite, FaultedCpu;
    var c := trace[FaultDispatch(e, trace, a, lines)];
    if a.target.Register? && b.target.Register? {
      SameKeySameFault(e.p, c, a, b, e.p.size(c));
    } else {
      TestedMemory(e, o, trace, a, lines);
      TestedMemory(e, o, trace, b, lines);
      OneTested(e.p, c, TestedCpu(e, o, trace, a, lines).value, TestedCpu(e, o, trace, b, lines).value);
    }
  }

  /** Two lasting faults of one line, of whatever targets, whose tested states have one key, new to the
      first run.  Where that one ends, the second, without the test, ends with the same CPU and the same
      result. */
  lemma {:induction false} OneKeyOneEnd(e: Env, o: Origin, trace: seq<Cpu>, a: FaultRule, b: FaultRule,
                                        lines: seq<Line>, ca: seq<Class<FaultRule>>, cb: seq<Class<FaultRule>>,
                                        n: nat)
    requires e.stopOnEquivalence && HashesAreInjective(e.p) && a.instruction == b.instruction
    requires HasItsLine(e, trace, a, lines) && HasItsLine(e, trace, b, lines) && Accepts(a) && Accepts(b)
    requires LastsForEver(a) && LastsForEver(b)
    requires (a.target.Register? && b.target.Register?) || SiteIsHashed(e.p, trace[FaultDispatch(e, trace, a, lines)])
    requires o.Restored? || (!RestoresCheckpoint(e, a, lines) && !RestoresCheckpoint(e, b, lines))
    requires var c, d := TestedCpu(e, o, trace, a, lines), TestedCpu(e, o, trace, b, lines);
             c.Some? && d.Some? && StateHashes(e.p, c.value) == StateHashes(e.p, d.value)
             && !Known(ca, StateHashes(e.p, c.value))
    requires Steps(e, AfterFault(e, o, trace, a, lines, ca), n).phase.Ended?
    ensures HasItsLine(Unpruned(e), trace, b, lines)
    ensures EndTheSame(Steps(e, AfterFault(e, o, trace, a, lines, ca), n),
                       Outcome(Unpruned(e), AfterFault(Unpruned(e), o, trace, b, lines, cb)))
  {
    StillHasItsLine(e, trace, a, lines);
    StillHasItsLine(e, trace, b, lines);
    SameLineOf(e, trace, a, b, lines);
    hide AfterFault, HasItsLine, Accepts, RestoresCheckpoint, LastsForEver, ComesTo, FaultDispatch, TestedCpu,
         StateHashes, Known, HashesAreInjective, SiteIsHashed, SameButSite, Steps, Outcome;
    SameTested(e, o, trace, a, b, lines);
    var c := TestedCpu(e, o, trace, a, lines).value;
    var f, br, bs := Unpruned(e), RestartBudget(o, a), RestartBudget(o, b);
    var r, s := AfterFault(e, o, trace, a, lines, ca), AfterFault(f, o, trace, b, lines, cb);
    var k := ComesUntested(e, o, trace, b, lines, cb);
    if a.target.Register? {
      FirstIsWhole(e, o, trace, a, lines, ca, n);
      var m := ComesUntested(e, o, trace, a, lines, ca);
      EndAlike(f, f, AfterFault(f, o, trace, a, lines, ca), s, c, br, bs, m, k, n);
    } else {
      var m := TestedComes(e, o, trace, a, lines, ca);
      EndAlike(e, f, r, s, c, br, bs, m, k, n);
    }
  }
}

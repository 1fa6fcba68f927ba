/** What a campaign reports, run by any number of threads. */
module Results {
  import opened Machine
  import opened Equivalence
  import opened Hooks
  import opened StatsRun
  import opened Segments
  import opened History
  import opened Campaign
  import opened Enumeration
  import opened Work
  import opened Threads

  // ----- runs on different leftovers -----

  lemma {:induction false} SamePhases(e: Env, r: Run, s: Run)
    requires forall n: nat :: Steps(e, r, n).phase == Steps(e, s, n).phase
    ensures SegmentsEnd(e, r) ==> SegmentsEnd(e, s)
  {
    hide Steps;
    if SegmentsEnd(e, r) {
      forall m: nat | Steps(e, s, m).phase.Running?
        ensures exists k: nat :: k > m && !Steps(e, s, k).phase.Running?
      {
        assert Steps(e, r, m).phase.Running?;
        var k: nat :| k > m && !Steps(e, r, k).phase.Running?;
        assert !Steps(e, s, k).phase.Running?;
      }
    }
  }

  /** A run on a clean state ends, and how, exactly as on a fresh one. */
  lemma {:induction false} EndsAsFresh(e: Env, left: Run, rule: FaultRule, classes: seq<Class<FaultRule>>)
    requires IsClean(left) && e.mode.FaultMode?
    ensures var r, s := SetUp(e, left, rule, classes), Launched(e, rule, left.lines, classes);
            && (SegmentsEnd(e, r) <==> SegmentsEnd(e, s))
            && (SegmentsEnd(e, r) ==> SameButAddress(Outcome(e, r), Outcome(e, s)))
  {
    hide Steps, SetUp, Launched, SegmentsEnd, Outcome, IsClean;
    var r, s := SetUp(e, left, rule, classes), Launched(e, rule, left.lines, classes);
    forall n: nat ensures Steps(e, r, n).phase == Steps(e, s, n).phase {
      StartsClean(e, left, rule, classes, n);
    }
    SamePhases(e, r, s);
    SamePhases(e, s, r);
    if SegmentsEnd(e, r) {
      var n := RunEnds(e, left, rule, classes);
      OutcomeIs(e, s, n);
      ButForAddress(e, left, rule, classes, n);
    }
  }

  lemma {:induction false} ButForAddress(e: Env, left: Run, rule: FaultRule, classes: seq<Class<FaultRule>>, n: nat)
    requires IsClean(left) && e.mode.FaultMode?
    ensures SameButAddress(Steps(e, SetUp(e, left, rule, classes), n),
                           Steps(e, Launched(e, rule, left.lines, classes), n))
  {
    hide Steps, SetUp, Launched, NO_HANDLES;
    NextRunIsFresh(e, left, rule, classes, n);
  }

  /** Two clean states with one line table and one class table. */
  ghost predicate AreAlike(a: Run, b: Run) {
    IsClean(a) && IsClean(b) && a.lines == b.lines && a.classes == b.classes
  }

  lemma {:induction false} NextIsAlike(e: Env, a: Run, b: Run, trace: seq<Cpu>, rule: FaultRule)
    requires AreAlike(a, b) && CanRun(e, trace, rule, a.lines)
    requires SegmentsEnd(e, Started(e, a, rule)) && !Outcome(e, Started(e, a, rule)).control.Aborted?
    ensures SegmentsEnd(e, Started(e, b, rule)) && !Outcome(e, Started(e, b, rule)).control.Aborted?
    ensures var r, s := Outcome(e, Started(e, a, rule)), Outcome(e, Started(e, b, rule));
            SameButAddress(r, s) && AreAlike(Close(r), Close(s)) && Close(r).lines == a.lines
  {
    hide CanRun, Outcome, SetUp, Close, Launched, SegmentsEnd, IsClean;
    RunsInFaultMode(e, trace, rule, a.lines);
    EndsAsFresh(e, a, rule, a.classes);
    EndsAsFresh(e, b, rule, b.classes);
    OneMoreRun(e, a, trace, rule, a.classes);
    OneMoreRun(e, b, trace, rule, b.classes);
  }

  /** One after the other, too. */
  lemma {:induction false} RunsAlike(e: Env, a: Run, b: Run, trace: seq<Cpu>, rules: seq<FaultRule>)
    requires AreAlike(a, b) && AllEnd(e, a, rules)
    requires forall rule :: rule in rules ==> CanRun(e, trace, rule, a.lines)
    ensures AllEnd(e, b, rules) && AreAlike(RunAll(e, a, rules), RunAll(e, b, rules))
    ensures RunAll(e, a, rules).lines == a.lines
    ensures forall k :: 0 <= k < |rules| ==>
              SameButAddress(RunOf(e, a, rules, k), RunOf(e, b, rules, k))
  {
    hide CanRun, Outcome, Close, SegmentsEnd, IsClean, Started, SameButAddress;
    if rules != [] {
      var last := |rules| - 1;
      var rest := rules[..last];
      PrefixEnds(e, a, rules, last);
      assert forall rule :: rule in rest ==> rule in rules;
      RunsAlike(e, a, b, trace, rest);
      assert rules[last] in rules && !RunOf(e, a, rules, last).control.Aborted?;
      NextIsAlike(e, RunAll(e, a, rest), RunAll(e, b, rest), trace, rules[last]);
      forall k | 0 <= k < |rules|
        ensures SegmentsEnd(e, Started(e, RunAll(e, b, rules[..k]), rules[k]))
        ensures !RunOf(e, b, rules, k).control.Aborted?
        ensures SameButAddress(RunOf(e, a, rules, k), RunOf(e, b, rules, k))
      {
        if k < last {
          assert rest[..k] == rules[..k];
          assert !RunOf(e, b, rest, k).control.Aborted?;
          assert SameButAddress(RunOf(e, a, rest, k), RunOf(e, b, rest, k));
        }
      }
    }
  }

  // ----- results -----

  /** What is written about a run. */
  datatype Result = Result(rule: FaultRule, cpu: Cpu, state: RunState, count: nat)

  ghost function ResultOf(rule: FaultRule, r: Run): Result {
    Result(rule, r.cpu, r.state, r.count)
  }

  /** The results of the rules, run in order on this state. */
  ghost function ResultsFrom(e: Env, left: Run, rules: seq<FaultRule>): seq<Result> {
    seq(|rules|, k requires 0 <= k < |rules| => ResultOf(rules[k], RunOf(e, left, rules, k)))
  }

  lemma {:induction false} ReportAlike(e: Env, a: Run, b: Run, trace: seq<Cpu>, rules: seq<FaultRule>)
    requires AreAlike(a, b) && AllEnd(e, a, rules)
    requires forall rule :: rule in rules ==> CanRun(e, trace, rule, a.lines)
    ensures ResultsFrom(e, a, rules) == ResultsFrom(e, b, rules)
  {
    hide CanRun, AllEnd, IsClean, RunOf, SameButAddress;
    RunsAlike(e, a, b, trace, rules);
    forall k | 0 <= k < |rules| ensures ResultsFrom(e, a, rules)[k] == ResultsFrom(e, b, rules)[k] {
      SameResult(rules[k], RunOf(e, a, rules, k), RunOf(e, b, rules, k));
    }
  }

  lemma {:induction false} SameResult(rule: FaultRule, r: Run, s: Run)
    requires SameButAddress(r, s)
    ensures ResultOf(rule, r) == ResultOf(rule, s)
  {
  }

  // ----- work items -----

  /** fault_rule, as run_the_actual_fault leaves it to get_on_with_it. */
  function RuleOf(l: Launch): FaultRule {
    FaultRule(l.instruction, l.target, false, l.number, l.filter, l.operation, l.mask, true, 0, l.lifespan)
  }

  function ItemRules(i: Item, opcodes: nat -> Opcode): seq<FaultRule> {
    var launches := ItemLaunches(i, opcodes);
    seq(|launches|, k requires 0 <= k < |launches| => RuleOf(launches[k]))
  }

  /** A work item starts with an empty class table. */
  function Emptied(r: Run): Run {
    r.(classes := [])
  }

  /** A state nothing has run on. */
  function Unused(e: Env, lines: seq<Line>): Run {
    Run(e.p.image, [], NO_HANDLES, 0, false, NoneRs, false, 0, RuleOf(Blank(0)), lines, [], Going, Ended,
        Trail(0, 0, 0, [], []))
  }

  ghost function ResultsAt(e: Env, lines: seq<Line>, opcodes: nat -> Opcode): Item -> seq<Result> {
    i => ResultsFrom(e, Unused(e, lines), ItemRules(i, opcodes))
  }

  /** The item's rules are for recorded lines, and each segment of their runs ends. */
  ghost predicate CanBeRun(e: Env, trace: seq<Cpu>, lines: seq<Line>, opcodes: nat -> Opcode, i: Item) {
    && (forall rule :: rule in ItemRules(i, opcodes) ==> CanRun(e, trace, rule, lines))
    && AllEnd(e, Unused(e, lines), ItemRules(i, opcodes))
  }

  // ----- threads -----

  /** The state thread t has after the first n items, of which it ran those it owns. */
  ghost function LeftBy(e: Env, start: Run, items: seq<Item>, owners: seq<nat>,
                        opcodes: nat -> Opcode, t: nat, n: nat): Run
    requires n <= |items| == |owners|
  {
    if n == 0 then start
    else
      var before := LeftBy(e, start, items, owners, opcodes, t, n - 1);
      if owners[n - 1] == t then RunAll(e, Emptied(before), ItemRules(items[n - 1], opcodes)) else before
  }

  /** What the threads report for the first n items, each on the state its owner has then. */
  ghost function Reported(e: Env,
                          starts: nat -> Run, items: seq<Item>, owners: seq<nat>, opcodes: nat -> Opcode, n: nat)
    : seq<Result>
    requires n <= |items| == |owners|
  {
    if n == 0 then []
    else
      var t := owners[n - 1];
      Reported(e, starts, items, owners, opcodes, n - 1)
      + ResultsFrom(e, Emptied(LeftBy(e, starts(t), items, owners, opcodes, t, n - 1)),
                    ItemRules(items[n - 1], opcodes))
  }

  lemma {:induction false} UnusedIsAlike(e: Env, r: Run, lines: seq<Line>)
    requires IsClean(r) && r.lines == lines
    ensures AreAlike(Unused(e, lines), Emptied(r))
  {
  }

  lemma {:induction false} StaysClean(e: Env, trace: seq<Cpu>, lines: seq<Line>, start: Run, items: seq<Item>,
                                      owners: seq<nat>, opcodes: nat -> Opcode, t: nat, n: nat)
    requires n <= |items| == |owners| && IsClean(start) && start.lines == lines
    requires forall i :: i in items ==> CanBeRun(e, trace, lines, opcodes, i)
    ensures var r := LeftBy(e, start, items, owners, opcodes, t, n);
            IsClean(r) && r.lines == lines
  {
    hide IsClean, AllEnd, RunAll, CanRun, ItemRules, Unused;
    if n > 0 {
      StaysClean(e, trace, lines, start, items, owners, opcodes, t, n - 1);
      if owners[n - 1] == t {
        var before := LeftBy(e, start, items, owners, opcodes, t, n - 1);
        UnusedIsAlike(e, before, lines);
        assert CanBeRun(e, trace, lines, opcodes, items[n - 1]);
        assert Unused(e, lines).lines == lines by { UnusedLines(e, lines); }
        RunsAlike(e, Unused(e, lines), Emptied(before), trace, ItemRules(items[n - 1], opcodes));
      }
    }
  }

  lemma {:induction false} UnusedLines(e: Env, lines: seq<Line>)
    ensures Unused(e, lines).lines == lines
  {
  }

  /** Whichever thread runs which item: what is reported is what each item gives on an unused state. */
  lemma {:induction false} ReportedIsGathered(e: Env, trace: seq<Cpu>, lines: seq<Line>, starts: nat -> Run,
                                              items: seq<Item>, owners: seq<nat>, opcodes: nat -> Opcode, n: nat)
    requires n <= |items| == |owners|
    requires forall t :: IsClean(starts(t)) && starts(t).lines == lines
    requires forall i :: i in items ==> CanBeRun(e, trace, lines, opcodes, i)
    ensures Reported(e, starts, items, owners, opcodes, n) == Gathered(items[..n], ResultsAt(e, lines, opcodes))
  {
    hide IsClean, AllEnd, CanRun, ItemRules, ResultsFrom, LeftBy, Unused;
    if n > 0 {
      ReportedIsGathered(e, trace, lines, starts, items, owners, opcodes, n - 1);
      var t, rules := owners[n - 1], ItemRules(items[n - 1], opcodes);
      StaysClean(e, trace, lines, starts(t), items, owners, opcodes, t, n - 1);
      var before := LeftBy(e, starts(t), items, owners, opcodes, t, n - 1);
      UnusedIsAlike(e, before, lines);
      assert CanBeRun(e, trace, lines, opcodes, items[n - 1]);
      UnusedLines(e, lines);
      ReportAlike(e, Unused(e, lines), Emptied(before), trace, rules);
      assert items[..n][..n - 1] == items[..n - 1] && items[..n][n - 1] == items[n - 1];
    }
  }

  /** Under every interleaving of any number of threads, whichever thread ran which item and whatever clean
      state it had: the results reported, with the last CPU, are those of the single-threaded enumeration,
      each item run on an unused state. */
  lemma {:induction false} ResultsAreScheduleIndependent(
      e: Env, trace: seq<Cpu>, lines: seq<Line>, starts: nat -> Run, owners: seq<nat>, opcodes: nat -> Opcode,
      ranges: seq<RangeFault>, threads: nat, actions: seq<Action>, total: nat)
    requires (forall r :: r in ranges ==> IsRange(r)) && threads > 0
    requires Execute(Start(ranges, threads), actions, total).Some?
    requires AllDone(Execute(Start(ranges, threads), actions, total).value)
    requires |owners| == |Execute(Start(ranges, threads), actions, total).value.done|
    requires forall t :: IsClean(starts(t)) && starts(t).lines == lines
    requires forall i :: i in AllItems(ranges) ==> CanBeRun(e, trace, lines, opcodes, i)
    ensures var done := Execute(Start(ranges, threads), actions, total).value.done;
            multiset(Reported(e, starts, done, owners, opcodes, |done|))
              == multiset(Gathered(AllItems(ranges), ResultsAt(e, lines, opcodes)))
  {
    hide Execute, AllItems, AllDone, IsClean, CanBeRun, Reported, Gathered, ResultsAt;
    var done := Execute(Start(ranges, threads), actions, total).value.done;
    SameItems(ranges, threads, actions, total);
    forall i | i in done ensures CanBeRun(e, trace, lines, opcodes, i) {
      assert i in multiset(done);
    }
    ReportedIsGathered(e, trace, lines, starts, done, owners, opcodes, |done|);
    assert done[..|done|] == done;
    SameGathered(done, AllItems(ranges), ResultsAt(e, lines, opcodes));
  }
}

/** fault_it as a whole: the counting run, the checkpoint table, the stats run, and every fault run. */
module Campaign {
  import opened Machine
  import opened Equivalence
  import opened Hooks
  import opened GoldenRun
  import opened StatsRun
  import opened Snapshots
  import opened Injection
  import opened Drift
  import opened ExactlyOnce
  import opened Replay
  import opened Segments
  import opened History
  import opened CheckpointTable

  /** The stats run of the same program, which the fault runs of e share a line table with. */
  function StatsEnv(e: Env): Env {
    e.(mode := StatsMode)
  }

  /** The line table after the stats run. */
  function RecordedTable(e: Env, trace: seq<Cpu>, noRule: FaultRule, table: seq<Line>): seq<Line>
    requires |trace| > 0
  {
    Steps(StatsEnv(e), Launched(StatsEnv(e), noRule, table, []), Last(trace) + 2).lines
  }

  lemma {:induction false} NearestIsFlagged(lines: seq<Line>, i: nat)
    requires i < |lines| && NearestFlagged(lines, i) != NO_CHECKPOINT
    ensures 0 < NearestFlagged(lines, i) <= i && Flagged(lines, NearestFlagged(lines, i))
  {
    if i > 0 && !lines[i].checkpoint {
      NearestIsFlagged(lines, i - 1);
    }
  }

  lemma {:induction false} TableStays(a: seq<Line>, b: seq<Line>, total: nat)
    requires IsTable(a, total) && SameCheckpoints(a, b)
    ensures IsTable(b, total)
  {
    forall i | 0 < i <= total ensures b[i].nearest == NearestFlagged(b, i) {
      SameFlags(a, b, i);
    }
  }

  /** After the stats run every line is recorded, and the table still is one. */
  lemma {:induction false} StatsRunFeedsRuns(e: Env, trace: seq<Cpu>, noRule: FaultRule, table: seq<Line>)
    requires IsGolden(e.p, trace) && !noRule.isSet && IsTable(table, TotalLines(e.p, trace))
    ensures IsRecorded(e, trace, RecordedTable(e, trace, noRule, table))
    ensures IsTable(RecordedTable(e, trace, noRule, table), TotalLines(e.p, trace))
  {
    hide IsGolden, Steps, Launched, IsTable, TotalLines, Save;
    Starts(StatsEnv(e), trace);
    assert |table| == TotalLines(e.p, trace) + 2 by { TableSize(table, TotalLines(e.p, trace)); }
    StatsRunRecords(StatsEnv(e), trace, noRule, table, []);
    TableStays(table, RecordedTable(e, trace, noRule, table), TotalLines(e.p, trace));
  }

  lemma {:induction false} TableSize(table: seq<Line>, total: nat)
    requires IsTable(table, total)
    ensures |table| == total + 2
  {
  }

  /** Whenever a run would restore a checkpoint, the checkpoint is a flagged line not after the rule's
      own, whose snapshot was saved: the restore passes both of its checks. */
  lemma {:induction false} RestoreIsReady(e: Env, trace: seq<Cpu>, noRule: FaultRule, table: seq<Line>, rule: FaultRule)
    returns (t: nat)
    requires IsGolden(e.p, trace) && KeepsMapping(e.p) && !noRule.isSet && IsTable(table, TotalLines(e.p, trace))
    requires 1 <= rule.instruction <= TotalLines(e.p, trace)
    requires RestoresCheckpoint(e, rule, RecordedTable(e, trace, noRule, table))
    ensures FlaggedAt(e, trace, rule, RecordedTable(e, trace, noRule, table), t)
  {
    StatsRunFeedsRuns(e, trace, noRule, table);
    hide RecordedTable, IsGolden, KeepsMapping, NearestFlagged, IsRecorded;
    var lines := RecordedTable(e, trace, noRule, table);
    Starts(e, trace);
    assert lines[rule.instruction].nearest == NearestFlagged(lines, rule.instruction);
    NearestIsFlagged(lines, rule.instruction);
    t := DispatchOf(e.p, trace, NearestFlagged(lines, rule.instruction), Last(trace));
  }

  /** The environment in which every checkpoint can be resumed exactly. */
  ghost predicate AllResumable(p: Program, trace: seq<Cpu>) {
    forall t :: 0 <= t < |trace| && IsLine(p, trace, t) ==> Resumable(p, trace[t])
  }

  /** Every fault run of the campaign, with or without checkpoints, for every line and every kind of
      target: one injection, at the line it is for and at that line's address; nothing before it; the
      numbering kept; and at most 2 + lifespan.count restarts. */
  lemma {:induction false} EveryFaultRun(e: Env, trace: seq<Cpu>, noRule: FaultRule, table: seq<Line>, rule: FaultRule,
                                         classes: seq<Class<FaultRule>>, n: nat)
    requires IsGolden(e.p, trace) && KeepsMapping(e.p) && !noRule.isSet && IsTable(table, TotalLines(e.p, trace))
    requires e.mode.FaultMode? && rule.isSet && 1 <= rule.instruction <= TotalLines(e.p, trace) && Accepts(rule)
    requires e.fromCheckpoint ==> AllResumable(e.p, trace)
    ensures var r := Steps(e, Launched(e, rule, RecordedTable(e, trace, noRule, table), classes), n);
            var u := DispatchOf(e.p, trace, rule.instruction, Last(trace));
            && (r.trail.fired == [] || r.trail.fired == [Firing(rule.instruction, Pc(e.p, trace[u]))])
            && (r.phase.Ended? ==> r.trail.fired != [])
            && IsNumbered(r)
            && r.trail.restarts <= 2 + rule.lifespan.count
  {
    hide RecordedTable, IsGolden, KeepsMapping, Steps, Launched, IsNumbered, Accepts, IsTable;
    Starts(e, trace);
    StatsRunFeedsRuns(e, trace, noRule, table);
    var lines := RecordedTable(e, trace, noRule, table);
    assert HasItsLine(e, trace, rule, lines);
    if RestoresCheckpoint(e, rule, lines) {
      var t := RestoreIsReady(e, trace, noRule, table, rule);
      assert RestoresAt(e, trace, rule, lines, t);
      RestoredFaultsExactlyOnce(e, trace, rule, lines, classes, t, n);
      if Steps(e, Launched(e, rule, lines, classes), n).phase.Ended? {
        RestoredEndsFaulted(e, trace, rule, lines, classes, t, n);
      }
    } else {
      FaultsExactlyOnce(e, trace, rule, lines, classes, n);
      if Steps(e, Launched(e, rule, lines, classes), n).phase.Ended? {
        PlainEndsFaulted(e, trace, rule, lines, classes, n);
      }
    }
  }

  /** The numbering law.  As long as every restart is asked for in the fault range, and no skips are
      repeated, the count is one more than the number of in-range instructions the run has gone past,
      through fault restarts, reverts, repeats, a skip and a restore; and a run that ended reports that
      number. */
  lemma {:induction false} NumberingIsConserved(e: Env, trace: seq<Cpu>, noRule: FaultRule, table: seq<Line>,
                                                rule: FaultRule, classes: seq<Class<FaultRule>>, n: nat)
    requires IsGolden(e.p, trace) && KeepsMapping(e.p) && !noRule.isSet && IsTable(table, TotalLines(e.p, trace))
    requires e.mode.FaultMode? && rule.isSet && 1 <= rule.instruction <= TotalLines(e.p, trace) && Accepts(rule)
    requires e.fromCheckpoint ==> AllResumable(e.p, trace)
    requires !RepeatsSkip(rule)
    requires forall m: nat :: m <= n ==>
               !RestartsOutside(Steps(e, Launched(e, rule, RecordedTable(e, trace, noRule, table), classes), m))
    ensures var r := Steps(e, Launched(e, rule, RecordedTable(e, trace, noRule, table), classes), n);
            r.control.Aborted? || r.state.EquivalentRs? ||
            if r.phase.Ended? then r.count == r.trail.passed
            else r.count == r.trail.passed + 1 || r.count == r.trail.passed == 0
  {
    hide RecordedTable, IsGolden, KeepsMapping, Steps, Launched, Accepts, IsTable, AllResumable, RestartsOutside;
    Starts(e, trace);
    EveryFaultRun(e, trace, noRule, table, rule, classes, n);
    NoneOutsideIff(e, rule, RecordedTable(e, trace, noRule, table), classes, n);
  }

  lemma {:induction false} PlainEndsFaulted(e: Env, trace: seq<Cpu>, rule: FaultRule, lines: seq<Line>,
                                            classes: seq<Class<FaultRule>>, n: nat)
    requires HasItsLine(e, trace, rule, lines) && Accepts(rule) && !RestoresCheckpoint(e, rule, lines)
    requires Steps(e, Launched(e, rule, lines, classes), n).phase.Ended?
    ensures n > FaultDispatch(e, trace, rule, lines)
  {
    hide Launched, HasInjected, Steps, IsGolden, Before;
    LaunchedIsBefore(e, trace, rule, lines, classes);
    if n <= FaultDispatch(e, trace, rule, lines) {
      InjectsOnce(e, FromStart, trace, rule, lines, classes, 0, n);
      NotEnded(e, FromStart, trace, rule, lines, classes, n);
    }
  }

  lemma {:induction false} NotEnded(e: Env, o: Origin, trace: seq<Cpu>, rule: FaultRule, lines: seq<Line>,
                                    classes: seq<Class<FaultRule>>, t: nat)
    requires t < |trace|
    ensures !Before(e, o, trace, rule, lines, classes, t).phase.Ended?
  {
    hide SetupHooks;
  }

  lemma {:induction false} RestoredEndsFaulted(e: Env, trace: seq<Cpu>, rule: FaultRule, lines: seq<Line>,
                                               classes: seq<Class<FaultRule>>, t: nat, n: nat)
    requires HasItsLine(e, trace, rule, lines) && RestoresAt(e, trace, rule, lines, t) && Accepts(rule)
    requires Steps(e, Launched(e, rule, lines, classes), n).phase.Ended?
    ensures n > 2 + (FaultDispatch(e, trace, rule, lines) - t)
  {
    hide Launched, HasInjected, Steps, IsGolden, Before, HasItsLine, RestoresAt;
    NotEndedSoon(e, trace, rule, lines, classes, t, n);
    CheckpointIsBehind(e, trace, rule, lines, t);
    FastRun(e, trace, rule, lines, classes, t, n - 2);
    InjectsOnce(e, OriginAt(e, trace, t), trace, rule, lines, classes, t, n - 2);
    var u := FaultDispatch(e, trace, rule, lines);
    if n <= 2 + (u - t) {
      FiresThereOnly(e, trace, rule, lines);
      NotEnded(e, OriginAt(e, trace, t), trace, rule, lines, classes, t + n - 2);
    }
  }

  /** What a completed and closed fault run leaves: its fault was made once, at its line; it made at most
      2 + lifespan.count restarts; every hook was deleted once, no handle is in use, no restart is
      pending, and the line table is as it was. */
  ghost predicate IsCompleted(e: Env, trace: seq<Cpu>, rule: FaultRule, lines: seq<Line>, c: Run) {
    && HasItsLine(e, trace, rule, lines)
    && c.trail.fired == [Firing(rule.instruction, Pc(e.p, trace[FaultDispatch(e, trace, rule, lines)]))]
    && c.trail.restarts <= 2 + rule.lifespan.count
    && IsClean(c) && (forall i :: 0 <= i < |c.hooks| ==> c.hooks[i].deletions == 1) && c.lines == lines
  }

  /** So it is with every run of a recorded line's rule, on whatever clean state it was started, if each
      segment of the emulator ends. */
  lemma {:induction false} CompletedRun(e: Env, left: Run, trace: seq<Cpu>, rule: FaultRule,
                                        classes: seq<Class<FaultRule>>)
    requires IsClean(left) && CanRun(e, trace, rule, left.lines)
    requires SegmentsEnd(e, SetUp(e, left, rule, classes))
    requires !Outcome(e, SetUp(e, left, rule, classes)).control.Aborted?
    ensures Outcome(e, SetUp(e, left, rule, classes)).phase.Ended?
    ensures IsCompleted(e, trace, rule, left.lines, Close(Outcome(e, SetUp(e, left, rule, classes))))
  {
    hide Steps, SetUp, HasItsLine, Accepts, RestoresAt, RestoresCheckpoint, Launched, Close, IsNumbered,
         FaultDispatch, IsClean, SegmentsEnd, Outcome;
    OneMoreRun(e, left, trace, rule, classes);
    var n := RunEnds(e, left, rule, classes);
    assert e.mode.FaultMode? by { RunsInFaultMode(e, trace, rule, left.lines); }
    StartsClean(e, left, rule, classes, n);
    var r, s := Steps(e, SetUp(e, left, rule, classes), n), Steps(e, Launched(e, rule, left.lines, classes), n);
    CloseKeepsHistory(r);
    if RestoresCheckpoint(e, rule, left.lines) {
      var t: nat :| RestoresAt(e, trace, rule, left.lines, t);
      RestoredFaultsExactlyOnce(e, trace, rule, left.lines, classes, t, n);
      RestoredEndsFaulted(e, trace, rule, left.lines, classes, t, n);
    } else {
      FaultsExactlyOnce(e, trace, rule, left.lines, classes, n);
      PlainEndsFaulted(e, trace, rule, left.lines, classes, n);
    }
  }

  lemma {:induction false} RunsInFaultMode(e: Env, trace: seq<Cpu>, rule: FaultRule, lines: seq<Line>)
    requires CanRun(e, trace, rule, lines)
    ensures e.mode.FaultMode?
  {
    hide IsGolden, IsRecorded, TotalLines;
  }

  lemma {:induction false} StartsClean(e: Env, left: Run, rule: FaultRule, classes: seq<Class<FaultRule>>, n: nat)
    requires IsClean(left) && e.mode.FaultMode?
    ensures var r, s := Steps(e, SetUp(e, left, rule, classes), n), Steps(e, Launched(e, rule, left.lines, classes), n);
            r.trail == s.trail && r.phase == s.phase
  {
    hide Steps, SetUp, Launched, NO_HANDLES;
    NextRunIsFresh(e, left, rule, classes, n);
  }

  lemma {:induction false} CloseKeepsHistory(r: Run)
    ensures Close(r).trail == r.trail
  {
    hide DELETION_ORDER, SetHandle, HandleOf;
    DeletesKeepHistory(Remove(r, Placebo), DELETION_ORDER);
  }

  lemma {:induction false} DeletesKeepHistory(r: Run, kinds: seq<HookKind>)
    ensures DeleteHooks(r, kinds).trail == r.trail
    decreases |kinds|
  {
    hide SetHandle, HandleOf;
    if kinds != [] {
      DeletesKeepHistory(RemoveIfSet(r, kinds[0]), kinds[1..]);
    }
  }
}

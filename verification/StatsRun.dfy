/** The two fault-free runs ahead of the faults: counting the lines, and recording them. */
module StatsRun {
  import opened Utils
  import opened Machine
  import opened Equivalence
  import opened Hooks
  import opened GoldenRun

  /** A run as my_uc_engine_start begins it: the hooks are set up and nothing has been dispatched. */
  function Launched(e: Env, rule: FaultRule, lines: seq<Line>, classes: seq<Class<FaultRule>>): Run {
    Run(WritePc(e.p, e.p.image, e.p.codeStart), SetupHooks(e), SETUP_HANDLES, 0, false, NoneRs, false, 0,
        rule, lines, classes, Going, Running, Trail(0, 0, 0, [], []))
  }

  lemma {:induction false} LaunchedIsBefore(e: Env, trace: seq<Cpu>, rule: FaultRule, lines: seq<Line>,
                                            classes: seq<Class<FaultRule>>)
    requires IsGolden(e.p, trace)
    ensures Launched(e, rule, lines, classes) == Before(e, FromStart, trace, rule, lines, classes, 0)
  {
    hide SetupHooks;
  }

  /** The golden run's last dispatch. */
  function Last(trace: seq<Cpu>): nat
    requires |trace| > 0
  {
    |trace| - 1
  }

  lemma {:induction false} EndVisit(e: Env, r: Run, at: Site)
    requires |r.hooks| >= 10 && r.hooks[..10] == SetupHooks(e) && at.address == e.p.codeEnd && r.control.Going?
    ensures Dispatch(e, r, at, 0) == AtEndAddress(r)
  {
    hide Visit, Dispatch, SetupHooks;
    forall k | 0 <= k < 3 ensures Visit(e, r, at, k) == r { QuietVisit(e, r, at, k); }
    Idle(e, r, at, 0, 3);
    OneVisit(e, r, at, 3);
    EndVisitIsStop(e, r, at);
  }

  lemma {:induction false} EndVisitIsStop(e: Env, r: Run, at: Site)
    requires |r.hooks| >= 10 && r.hooks[..10] == SetupHooks(e) && at.address == e.p.codeEnd && r.control.Going?
    ensures Visit(e, r, at, 3) == AtEndAddress(r) && |AtEndAddress(r).hooks| >= 4
    ensures Dispatch(e, AtEndAddress(r), at, 4) == AtEndAddress(r)
  {
    assert r.hooks[3] == r.hooks[..10][3] == SetupHooks(e)[3];
  }

  /** The last dispatch of a run that did not fault. */
  lemma {:induction false} GoldenStops(e: Env, trace: seq<Cpu>, rule: FaultRule, lines: seq<Line>,
                                       classes: seq<Class<FaultRule>>)
    requires IsGolden(e.p, trace)
    ensures var r := Before(e, FromStart, trace, rule, lines, classes, Last(trace));
            && Step(e, r) == AtEndAddress(r).(phase := Stopped)
            && r.state.NoneRs? && !r.restart && r.cpu == trace[Last(trace)] && r.lines == lines
            && r.trail.fired == [] && r.trail.restarts == 0
            && r.count == if TotalLines(e.p, trace) == 0 && !Entered(e.p, trace, Last(trace)) then 0
               else TotalLines(e.p, trace) + 1
  {
    hide Dispatch, SetupHooks, Visit, AtEndAddress, Entered, FlagBefore, LinesBefore;
    var t := Last(trace);
    var r := Before(e, FromStart, trace, rule, lines, classes, t);
    EndVisit(e, r, SiteOf(e.p, trace[t]));
    LineIsEntered(e.p, trace, t);
    StopsThere(e, r);
  }

  lemma {:induction false} StopsThere(e: Env, r: Run)
    ensures AtEndAddress(r).control.StopRequested?
    ensures var s := AtEndAddress(r);
            s == r.(hooks := s.hooks, hk := s.hk, control := StopRequested,
                    state := if r.state.Faulted? then EndAddressAndFaulted
                      else if r.state.EquivalentRs? then EquivalentRs else EndAddress)
  {
    hide SetHandle, HandleOf;
  }

  /** The end of a run that did not fault. */
  lemma {:induction false} GoldenEnds(e: Env, trace: seq<Cpu>, rule: FaultRule, lines: seq<Line>,
                                      classes: seq<Class<FaultRule>>)
    requires IsGolden(e.p, trace)
    ensures var r := Steps(e, Before(e, FromStart, trace, rule, lines, classes, Last(trace)), 2);
            && r.phase.Ended? && r.state.EndAddress? && r.count == TotalLines(e.p, trace) && r.cpu == trace[Last(trace)]
            && r.lines == lines && r.trail.fired == [] && r.trail.restarts == 0
  {
    GoldenStops(e, trace, rule, lines, classes);
    hide Before, AtEndAddress, Step, TotalLines, Entered, IsGolden;
    var r := Before(e, FromStart, trace, rule, lines, classes, Last(trace));
    StopsThere(e, r);
    assert Steps(e, r, 2) == Step(e, Step(e, r)) by {
      assert Steps(e, r, 1) == Step(e, Steps(e, r, 0));
    }
  }

  lemma {:induction false} StepsAdd(e: Env, r: Run, m: nat, n: nat)
    ensures Steps(e, Steps(e, r, m), n) == Steps(e, r, m + n)
  {
    hide Step;
    if n > 0 {
      StepsAdd(e, r, m, n - 1);
    }
  }

  /** A run without a fault rule ends at the end address, with the number of in-range instructions
      as its count and every line it passed recorded. */
  lemma {:induction false} GoldenRunEnds(e: Env, trace: seq<Cpu>, rule: FaultRule, lines: seq<Line>,
                                         classes: seq<Class<FaultRule>>)
    requires IsGolden(e.p, trace) && !rule.isSet
    ensures var r := Steps(e, Launched(e, rule, lines, classes), Last(trace) + 2);
            && r.phase.Ended? && r.state.EndAddress? && r.count == TotalLines(e.p, trace)
            && r.cpu == trace[Last(trace)] && r.lines == LinesUpTo(e, trace, lines, Last(trace))
            && r.trail.fired == [] && r.trail.restarts == 0
  {
    hide Step, Before, IsGolden, TotalLines, Launched;
    LaunchedIsBefore(e, trace, rule, lines, classes);
    Starts(e, trace);
    FollowsGolden(e, FromStart, trace, rule, lines, classes, 0, Last(trace));
    GoldenEnds(e, trace, rule, LinesUpTo(e, trace, lines, Last(trace)), classes);
    StepsAdd(e, Launched(e, rule, lines, classes), Last(trace), 2);
  }

  lemma {:induction false} Starts(e: Env, trace: seq<Cpu>)
    requires IsGolden(e.p, trace)
    ensures |trace| > 0
  {
  }

  // ----- what the stats run records -----

  /** The table entry of the line dispatched at t. */
  function LineNumber(p: Program, trace: seq<Cpu>, t: nat): nat
    requires t < |trace|
  {
    LinesBefore(p, trace, t) + 1
  }

  /** The entry holds the line's address, with its low bit set on an ARM core, its size, and its state if it is
      flagged; its checkpoint fields stay. */
  ghost predicate Holds(e: Env, before: Line, after: Line, c: Cpu) {
    && after.address == ThumbAddress(e.p, Pc(e.p, c)) && after.size == e.p.size(c)
    && after.nearest == before.nearest && after.checkpoint == before.checkpoint
    && after.snapshot == if e.fromCheckpoint && before.checkpoint then Some(Save(e.p, c)) else before.snapshot
  }

  lemma {:induction false} RecordedHolds(e: Env, line: Line, c: Cpu)
    ensures Holds(e, line, RecordedLine(e, line, c, SiteOf(e.p, c)), c)
  {
    hide Save;
  }

  /** After u dispatches, each line passed is recorded in its own entry, and no other entry changed. */
  lemma {:induction false} RecordsLines(e: Env, trace: seq<Cpu>, lines: seq<Line>, u: nat)
    requires e.mode.StatsMode? && u <= |trace|
    requires LinesBefore(e.p, trace, u) + 1 < |lines|
    ensures forall t :: 0 <= t < u && IsLine(e.p, trace, t) ==>
              0 < LineNumber(e.p, trace, t) < |lines| &&
              LinesUpTo(e, trace, lines, u)[LineNumber(e.p, trace, t)]
                == RecordedLine(e, lines[LineNumber(e.p, trace, t)], trace[t], SiteOf(e.p, trace[t]))
    ensures forall k :: 0 <= k < |lines| && !(0 < k <= LinesBefore(e.p, trace, u)) ==>
              LinesUpTo(e, trace, lines, u)[k] == lines[k]
  {
    hide RecordedLine, IsLine;
    if u > 0 {
      RecordsLines(e, trace, lines, u - 1);
      forall t | 0 <= t < u && IsLine(e.p, trace, t)
        ensures 0 < LineNumber(e.p, trace, t) < |lines| &&
                LinesUpTo(e, trace, lines, u)[LineNumber(e.p, trace, t)]
                  == RecordedLine(e, lines[LineNumber(e.p, trace, t)], trace[t], SiteOf(e.p, trace[t]))
      {
        LinesGrow(e.p, trace, t, u);
        if t < u - 1 {
          LinesGrow(e.p, trace, t, u - 1);
        }
      }
    }
  }

  /** The line table a fault run can rely on: the address of every line, and a snapshot of the CPU
      at every flagged line when checkpoints are used. */
  ghost predicate IsRecorded(e: Env, trace: seq<Cpu>, lines: seq<Line>)
    requires |trace| > 0
  {
    forall t :: 0 <= t < Last(trace) && IsLine(e.p, trace, t) ==>
      && LineNumber(e.p, trace, t) < |lines|
      && lines[LineNumber(e.p, trace, t)].address == ThumbAddress(e.p, Pc(e.p, trace[t]))
      && (e.fromCheckpoint && lines[LineNumber(e.p, trace, t)].checkpoint ==>
            lines[LineNumber(e.p, trace, t)].snapshot == Some(Save(e.p, trace[t])))
  }

  /** Two tables that differ only in what the stats run records. */
  predicate SameCheckpoints(a: seq<Line>, b: seq<Line>) {
    |a| == |b| && forall k :: 0 <= k < |a| ==> a[k].nearest == b[k].nearest && a[k].checkpoint == b[k].checkpoint
  }

  lemma {:induction false} KeepsCheckpoints(e: Env, trace: seq<Cpu>, lines: seq<Line>, u: nat)
    requires u <= |trace|
    ensures SameCheckpoints(lines, LinesUpTo(e, trace, lines, u))
  {
    if u > 0 {
      KeepsCheckpoints(e, trace, lines, u - 1);
    }
  }

  /** The stats run, with the array that run_to_write_stats allocates, records every line, and
      leaves the checkpoint table as it was. */
  lemma {:induction false} StatsRunRecords(e: Env, trace: seq<Cpu>, rule: FaultRule, lines: seq<Line>,
                                           classes: seq<Class<FaultRule>>)
    requires IsGolden(e.p, trace) && !rule.isSet && e.mode.StatsMode?
    requires |lines| == TotalLines(e.p, trace) + 2
    ensures var r := Steps(e, Launched(e, rule, lines, classes), Last(trace) + 2);
            && r.phase.Ended? && r.count == TotalLines(e.p, trace)
            && IsRecorded(e, trace, r.lines) && SameCheckpoints(lines, r.lines)
            && (forall t :: 0 <= t < Last(trace) && IsLine(e.p, trace, t) ==>
                  var k := LineNumber(e.p, trace, t);
                  0 < k <= TotalLines(e.p, trace) && Holds(e, lines[k], r.lines[k], trace[t]))
            && r.lines[0] == lines[0] && r.lines[|lines| - 1] == lines[|lines| - 1]
  {
    hide Steps, Launched, LinesUpTo, Save, SameCheckpoints, IsLine;
    Starts(e, trace);
    GoldenRunEnds(e, trace, rule, lines, classes);
    RecordsLines(e, trace, lines, Last(trace));
    KeepsCheckpoints(e, trace, lines, Last(trace));
    var after := LinesUpTo(e, trace, lines, Last(trace));
    forall t | 0 <= t < Last(trace) && IsLine(e.p, trace, t)
      ensures var k := LineNumber(e.p, trace, t);
              0 < k <= TotalLines(e.p, trace) && Holds(e, lines[k], after[k], trace[t])
    {
      LinesGrow(e.p, trace, t, Last(trace));
      RecordedHolds(e, lines[LineNumber(e.p, trace, t)], trace[t]);
    }
  }
}

/** The bytes of a reverted instruction fault, in the program's memory. */
module FaultedBytes {
  import opened Utils
  import opened Machine
  import opened Equivalence
  import opened Hooks
  import opened GoldenRun
  import opened StatsRun
  import opened Snapshots
  import opened Aftermath
  import opened Injection
  import opened ExactlyOnce
  import opened Lifespans

  // ----- reading what was written -----

  lemma {:induction false} ReadsWritten(c: Cpu, a: nat, bytes: Bytes)
    requires Mapped(c, a, |bytes|)
    ensures ReadMem(WriteMem(c, a, bytes), a, |bytes|) == bytes
  {
    var w := WriteMem(c, a, bytes);
    forall i | 0 <= i < |bytes| ensures ReadMem(w, a, |bytes|)[i] == bytes[i] {
      assert a + i in c.mem && a + i in w.mem;
    }
  }

  lemma {:induction false} WriteKeepsMapping(c: Cpu, a: nat, bytes: Bytes)
    ensures WriteMem(c, a, bytes).mem.Keys == c.mem.Keys
  {
  }

  lemma {:induction false} SameMapping(c: Cpu, d: Cpu, a: nat, n: nat)
    requires c.mem.Keys == d.mem.Keys
    ensures Mapped(c, a, n) <==> Mapped(d, a, n)
  {
    assert forall x :: x in c.mem <==> x in c.mem.Keys;
    assert forall x :: x in d.mem <==> x in d.mem.Keys;
  }

  lemma {:induction false} SameBytesThere(c: Cpu, d: Cpu, a: nat, n: nat)
    requires c.mem == d.mem
    ensures ReadMem(c, a, n) == ReadMem(d, a, n)
  {
  }

  // ----- one step -----

  /** What the hooks of a dispatch do to the memory: nothing, or the revert. */
  ghost predicate OnlyReverts(r: Run, d: Run, v: Reversion) {
    |d.trail.writes| >= |r.trail.writes| &&
    if |d.trail.writes| == |r.trail.writes| then d.cpu == r.cpu
    else d.cpu == WriteMem(r.cpu, v.fault.address, v.original) && !d.control.Going?
  }

  lemma {:induction false} RevertWrites(e: Env, r: Run, at: Site, v: Reversion, was: nat, exact: bool)
    requires AboutToLive(e, r, v, was, exact)
    ensures OnlyReverts(r, RevertInstructionHook(e, r, at), v)
  {
    hide WriteMem;
  }

  lemma {:induction false} CheckWritesNothing(e: Env, r: Run)
    ensures CheckEquivalent(e, r).cpu == r.cpu && CheckEquivalent(e, r).trail == r.trail
  {
    hide StateHashes, Record, Known, SetHandle, HandleOf;
  }

  lemma {:induction false} EquivalentWrites(e: Env, r: Run, at: Site, v: Reversion)
    requires Follows(e, r, v) && v.hook == 13
    ensures Visit(e, r, at, 12).cpu == r.cpu && Visit(e, r, at, 12).trail == r.trail
  {
    CheckWritesNothing(e, r);
    hide CheckEquivalent, LineAt;
  }

  lemma {:induction false} LivingWrites(e: Env, r: Run, at: Site, v: Reversion, was: nat, exact: bool)
    requires AboutToLive(e, r, v, was, exact) && FaultedHooks(e, r.hooks, r.hk)
    ensures OnlyReverts(r, Dispatch(e, r, at, 12), v)
  {
    hide Visit, RevertInstructionHook, FaultedHooks, Dispatch, LineAt;
    OneVisit(e, r, at, 12);
    var r1 := if v.hook == 12 then r else Visit(e, r, at, 12);
    if v.hook == 13 {
      EquivalentVisit(e, r, at, v, was, exact);
      EquivalentWrites(e, r, at, v);
      if r1.control.Going? {
        OneVisit(e, r1, at, 13);
      } else {
        EndsThere(e, r1, at, 13);
      }
    }
    if r1.control.Going? {
      RevertVisit(e, r1, at, v, was, exact);
      RevertWrites(e, r1, at, v, was, exact);
      RevertCall(e, r1, at, v, was, exact);
      NothingBehind(e, RevertInstructionHook(e, r1, at), at);
    }
  }

  /** After the revert. */
  lemma {:induction false} RevertedWrites(e: Env, r: Run, at: Site, v: Reversion, exact: bool, i: nat)
    requires Reverted(e, r, v, exact) && 12 <= i <= |r.hooks|
    ensures Dispatch(e, r, at, i).cpu == r.cpu && Dispatch(e, r, at, i).trail == r.trail
    decreases |r.hooks| - i
  {
    hide Visit, LineAt;
    if i < |r.hooks| && r.control.Going? {
      RevertedVisit(e, r, at, v, exact, i);
      VisitWritesNothing(e, r, at, v, exact, i);
      OneVisit(e, r, at, i);
      RevertedWrites(e, Visit(e, r, at, i), at, v, exact, i + 1);
    }
  }

  lemma {:induction false} VisitWritesNothing(e: Env, r: Run, at: Site, v: Reversion, exact: bool, i: nat)
    requires Reverted(e, r, v, exact) && 12 <= i < |r.hooks|
    ensures Visit(e, r, at, i).cpu == r.cpu && Visit(e, r, at, i).trail == r.trail
  {
    CheckWritesNothing(e, r);
    hide CheckEquivalent, LineAt;
    assert i == v.hook || r.hooks[i].kind.Equivalent?;
  }

  /** The memory after a step: what the revert wrote, or what the instruction left. */
  ghost predicate MemoryAfter(e: Env, r: Run, s: Run, v: Reversion) {
    |s.trail.writes| >= |r.trail.writes| &&
    if |s.trail.writes| == |r.trail.writes| then s.cpu.mem == r.cpu.mem || s.cpu.mem == e.p.exec(r.cpu).cpu.mem
    else s.cpu.mem == WriteMem(r.cpu, v.fault.address, v.original).mem
  }

  lemma {:induction false} EndsWriteNothing(e: Env, r: Run, at: Site)
    ensures AtEndAddress(r).cpu == AtHardStop(e, r).cpu == r.cpu && AtSkip(e, r, at).cpu.mem == r.cpu.mem
    ensures AtEndAddress(r).trail == AtHardStop(e, r).trail == AtSkip(e, r, at).trail == r.trail
    ensures AtEndAddress(r).control.StopRequested? && AtSkip(e, r, at).control.Skipped?
    ensures e.mode.FaultMode? ==> AtHardStop(e, r).control.StopRequested?
  {
    hide SetHandle, HandleOf;
  }

  lemma {:induction false} FinishMemory(e: Env, r: Run, d: Run, v: Reversion)
    requires OnlyReverts(r, d, v) || (d.cpu.mem == r.cpu.mem && d.trail.writes == r.trail.writes && !d.control.Going?)
    ensures MemoryAfter(e, r, Finish(e, d), v)
  {
    hide WriteMem;
  }

  lemma {:induction false} StepMemory(e: Env, r: Run, v: Reversion, exact: bool, budget: nat)
    requires Lives(e, r, v, exact, budget)
    ensures MemoryAfter(e, r, Step(e, r), v)
  {
    hide Living, Reverted, EndedAlive, HasFaulted, Dispatch, Finish, AfterSegment, MemoryAfter;
    if r.phase.Running? {
      NotEnded(e, r, v);
      RunningMemory(e, r, v, exact, budget);
    } else {
      StoppedMemory(e, r, v);
    }
  }

  lemma {:induction false} StoppedMemory(e: Env, r: Run, v: Reversion)
    requires !r.phase.Running?
    ensures MemoryAfter(e, r, Step(e, r), v)
  {
  }

  lemma {:induction false} RunningMemory(e: Env, r: Run, v: Reversion, exact: bool, budget: nat)
    requires GoesOn(e, r, budget) && r.phase.Running? && (Living(e, r, v, exact) || Reverted(e, r, v, exact))
    ensures MemoryAfter(e, r, Step(e, r), v)
  {
    assert HasFaulted(e, r) && r.control.Going? && e.mode.FaultMode?;
    assert FaultedHooks(e, r.hooks, r.hk);
    hide Living, Reverted, Dispatch, HasFaulted, AtEndAddress, AtHardStop, AtSkip, Count, Finish, FaultedHooks,
         FlagAt, MemoryAfter;
    var at := SiteOf(e.p, r.cpu);
    var r1 := r.(inRange := FlagAt(e, r.inRange, at.address));
    FaultedPrefix(e, r, at);
    EndsWriteNothing(e, r, at);
    EndsWriteNothing(e, r1, at);
    var d := Dispatch(e, r, at, 0);
    if at.address != e.p.codeEnd && at.address !in e.p.skips && at.address !in e.p.hardStops {
      if Living(e, r, v, exact) {
        CountsForLiving(e, r, v, exact, budget, r1.inRange);
        LivingWrites(e, Count(r1), at, v, r.count, exact);
      } else {
        RevertedEnds(e, r, at, v, exact, r1.inRange);
        Twelve(e, Count(r1), v, exact);
        RevertedWrites(e, Count(r1), at, v, exact, 12);
      }
      CountWritesNothing(r1);
    }
    FinishMemory(e, r, d, v);
  }

  lemma {:induction false} CountWritesNothing(r: Run)
    ensures Count(r).cpu == r.cpu && Count(r).trail == r.trail
  {
  }

  // ----- whole runs -----

  /** The instruction at this CPU leaves these bytes alone. */
  predicate Spares(p: Program, c: Cpu, a: nat, size: nat) {
    ReadMem(p.exec(c).cpu, a, size) == ReadMem(c, a, size)
  }

  /** The instructions of the run's first n steps leave these bytes alone. */
  ghost predicate LeavesAlone(e: Env, r: Run, n: nat, a: nat, size: nat) {
    forall m: nat :: m < n ==> Spares(e.p, Steps(e, r, m).cpu, a, size)
  }

  lemma {:induction false} StepKeepsMapping(e: Env, r: Run, s: Run, v: Reversion)
    requires KeepsMapping(e.p) && MemoryAfter(e, r, s, v)
    ensures s.cpu.mem.Keys == r.cpu.mem.Keys
  {
    WriteKeepsMapping(r.cpu, v.fault.address, v.original);
    hide WriteMem;
  }

  /** What stands at the site. */
  ghost function SiteBytes(r: Run, v: Reversion): Bytes {
    ReadMem(r.cpu, v.fault.address, |v.original|)
  }

  lemma {:induction false} StepBytes(e: Env, r: Run, s: Run, v: Reversion)
    requires MemoryAfter(e, r, s, v) && Mapped(r.cpu, v.fault.address, |v.original|)
    ensures |s.trail.writes| != |r.trail.writes| ==> SiteBytes(s, v) == v.original
    ensures |s.trail.writes| == |r.trail.writes| && Spares(e.p, r.cpu, v.fault.address, |v.original|) ==>
              SiteBytes(s, v) == SiteBytes(r, v)
  {
    hide ReadMem, WriteMem;
    var w := WriteMem(r.cpu, v.fault.address, v.original);
    ReadsWritten(r.cpu, v.fault.address, v.original);
    if s.cpu.mem == w.mem {
      SameBytesThere(s.cpu, w, v.fault.address, |v.original|);
    }
    if s.cpu.mem == r.cpu.mem {
      SameBytesThere(s.cpu, r.cpu, v.fault.address, |v.original|);
    }
    if s.cpu.mem == e.p.exec(r.cpu).cpu.mem {
      SameBytesThere(s.cpu, e.p.exec(r.cpu).cpu, v.fault.address, |v.original|);
    }
  }

  lemma {:induction false} StepsMemory(e: Env, r: Run, v: Reversion, budget: nat, n: nat)
    requires Lives(e, r, v, true, budget) && KeepsMapping(e.p) && Mapped(r.cpu, v.fault.address, |v.original|)
    ensures Mapped(Steps(e, r, n).cpu, v.fault.address, |v.original|)
    ensures MemoryAfter(e, Steps(e, r, n), Steps(e, r, n + 1), v)
  {
    hide Lives, Step, KeepsMapping, MemoryAfter, Mapped;
    LivesSteps(e, r, v, budget, n);
    StepMemory(e, Steps(e, r, n), v, StaysInRange(e, r, n), budget);
    if n > 0 {
      StepsMemory(e, r, v, budget, n - 1);
      StepKeepsMapping(e, Steps(e, r, n - 1), Steps(e, r, n), v);
      SameMapping(Steps(e, r, n - 1).cpu, Steps(e, r, n).cpu, v.fault.address, |v.original|);
    }
  }

  lemma {:induction false} OneMoreOrNone(e: Env, r: Run, s: Run, v: Reversion)
    requires MemoryAfter(e, r, s, v)
    ensures |s.trail.writes| >= |r.trail.writes|
  {
  }

  lemma {:induction false} BytesFollow(e: Env, r: Run, v: Reversion, budget: nat, n: nat)
    requires Lives(e, r, v, true, budget) && KeepsMapping(e.p) && Mapped(r.cpu, v.fault.address, |v.original|)
    requires LeavesAlone(e, r, n, v.fault.address, |v.original|) && |r.trail.writes| == 1
    requires SiteBytes(r, v) == v.fault.bytes
    ensures SiteBytes(Steps(e, r, n), v) == if |Steps(e, r, n).trail.writes| == 1 then v.fault.bytes else v.original
  {
    hide Lives, Step, KeepsMapping, MemoryAfter, Mapped, SiteBytes, Spares;
    if n > 0 {
      BytesFollow(e, r, v, budget, n - 1);
      StepsMemory(e, r, v, budget, n - 1);
      StepBytes(e, Steps(e, r, n - 1), Steps(e, r, n), v);
      LivesSteps(e, r, v, budget, n - 1);
      LivesSteps(e, r, v, budget, n);
      LivesMeans(e, Steps(e, r, n - 1), v, StaysInRange(e, r, n - 1), budget);
      LivesMeans(e, Steps(e, r, n), v, StaysInRange(e, r, n), budget);
      OneMoreOrNone(e, Steps(e, r, n - 1), Steps(e, r, n), v);
    }
  }

  // ----- from the fault -----

  /** The dispatch of the rule's line writes the faulted bytes. */
  lemma {:induction false} FaultWrites(e: Env, w: Run, at: Site)
    requires IsTheLine(w) && FaultsBytes(w.rule.operation) && ThumbCheck(e.p, at.address) == at.address
    ensures FaultInstructionHook(e, w, at).cpu
         == WriteMem(w.cpu, at.address, FaultBytes(w.rule.mask, w.rule.operation, ReadMem(w.cpu, at.address, at.size)))
  {
    hide WriteMem, ReadMem, FaultBytes, SetHandle, HandleOf;
  }

  lemma {:induction false} FaultIsThere(e: Env, o: Origin, trace: seq<Cpu>, rule: FaultRule, lines: seq<Line>,
                                        classes: seq<Class<FaultRule>>)
    requires HasItsLine(e, trace, rule, lines) && Accepts(rule) && RevertsInstruction(rule)
    requires o.Restored? || !RestoresCheckpoint(e, rule, lines)
    requires var c := trace[FaultDispatch(e, trace, rule, lines)];
             Mapped(c, Pc(e.p, c), e.p.size(c))
    ensures var u := FaultDispatch(e, trace, rule, lines);
            var faulted := Step(e, Before(e, o, trace, rule, lines, classes, u));
            var v := RevertOf(e, trace[u], rule, SiteOf(e.p, trace[u]));
            && SiteBytes(faulted, v) == v.fault.bytes && Mapped(faulted.cpu, v.fault.address, |v.original|)
            && |v.original| == |v.fault.bytes| == e.p.size(trace[u]) && v.fault.address == Pc(e.p, trace[u])
  {
    FiresThereOnly(e, trace, rule, lines);
    var u := FaultDispatch(e, trace, rule, lines);
    var at, w := SiteOf(e.p, trace[u]), Within(e, o, trace, rule, lines, classes, u);
    hide AtTheHook, FaultInstructionHook, Fires, RestoresCheckpoint, IsGolden, IsRecorded, Before, Within, Step,
         Finish, WriteMem, ReadMem, FaultBytes, Mapped;
    InstructionStep(e, o, trace, rule, lines, classes, u);
    SiteIsLine(e, o, trace, rule, lines, classes, u);
    FaultIsMade(e, o, w, at);
    FaultWrites(e, w, at);
    var bytes := FaultBytes(rule.mask, rule.operation, ReadMem(trace[u], at.address, at.size));
    ReadsWritten(trace[u], at.address, bytes);
    StopWritesNothing(e, FaultInstructionHook(e, w, at));
    WriteKeepsMapping(trace[u], at.address, bytes);
    SameMapping(trace[u], WriteMem(trace[u], at.address, bytes), at.address, at.size);
  }

  lemma {:induction false} StopWritesNothing(e: Env, r: Run)
    requires r.control.StopRequested?
    ensures Finish(e, r).cpu == r.cpu
  {
  }

  /** A revert-n instruction fault in the program's memory.  The line's bytes are the faulted ones when
      its fault was made; when the tool writes again, the site has its original bytes; and while the program
      does not write there itself, the faulted bytes stand there up to the revert, and the original bytes
      from then on. */
  lemma {:induction false} RevertedBytes(e: Env, o: Origin, trace: seq<Cpu>, rule: FaultRule, lines: seq<Line>,
                                         classes: seq<Class<FaultRule>>, n: nat)
    requires HasItsLine(e, trace, rule, lines) && Accepts(rule) && RevertsInstruction(rule)
    requires o.Restored? || !RestoresCheckpoint(e, rule, lines)
    requires KeepsMapping(e.p)
    requires var c := trace[FaultDispatch(e, trace, rule, lines)];
             Mapped(c, Pc(e.p, c), e.p.size(c))
    ensures var c := trace[FaultDispatch(e, trace, rule, lines)];
            var a, size := Pc(e.p, c), e.p.size(c);
            var original := ReadMem(c, a, size);
            var faultedBytes := FaultBytes(rule.mask, rule.operation, original);
            var faulted := Step(e, Before(e, o, trace, rule, lines, classes, FaultDispatch(e, trace, rule, lines)));
            var r, s := Steps(e, faulted, n), Steps(e, faulted, n + 1);
            && ReadMem(faulted.cpu, a, size) == faultedBytes
            && (|r.trail.writes| == 1 && |s.trail.writes| == 2 ==> ReadMem(s.cpu, a, size) == original)
            && (LeavesAlone(e, faulted, n, a, size) ==>
                  ReadMem(r.cpu, a, size) == if |r.trail.writes| == 1 then faultedBytes else original)
  {
    hide IsGolden, IsRecorded, RestoresCheckpoint, Before, Step, ReadMem, FaultBytes, KeepsMapping, Mapped,
         LeavesAlone, Lives, MemoryAfter;
    var u := FaultDispatch(e, trace, rule, lines);
    var faulted := Step(e, Before(e, o, trace, rule, lines, classes, u));
    var v, budget := RevertOf(e, trace[u], rule, SiteOf(e.p, trace[u])), RestartBudget(o, rule);
    FaultIsThere(e, o, trace, rule, lines, classes);
    LineFaultLives(e, o, trace, rule, lines, classes);
    StepsMemory(e, faulted, v, budget, n);
    StepBytes(e, Steps(e, faulted, n), Steps(e, faulted, n + 1), v);
    if LeavesAlone(e, faulted, n, Pc(e.p, trace[u]), e.p.size(trace[u])) {
      StartsWithOne(e, o, trace, rule, lines, classes);
      BytesFollow(e, faulted, v, budget, n);
    }
  }

  lemma {:induction false} StartsWithOne(e: Env, o: Origin, trace: seq<Cpu>, rule: FaultRule, lines: seq<Line>,
                                         classes: seq<Class<FaultRule>>)
    requires HasItsLine(e, trace, rule, lines) && Accepts(rule) && RevertsInstruction(rule)
    requires o.Restored? || !RestoresCheckpoint(e, rule, lines)
    ensures |Step(e, Before(e, o, trace, rule, lines, classes, FaultDispatch(e, trace, rule, lines))).trail.writes| == 1
  {
    FiresThereOnly(e, trace, rule, lines);
    var u := FaultDispatch(e, trace, rule, lines);
    var at, w := SiteOf(e.p, trace[u]), Within(e, o, trace, rule, lines, classes, u);
    hide AtTheHook, FaultInstructionHook, Fires, RestoresCheckpoint, IsGolden, IsRecorded, Before, Within, Step, Finish;
    InstructionStep(e, o, trace, rule, lines, classes, u);
    SiteIsLine(e, o, trace, rule, lines, classes, u);
    FaultLives(e, o, w, at);
    OneWrite(e, FaultInstructionHook(e, w, at), RevertOf(e, w.cpu, rule, at));
  }

  lemma {:induction false} OneWrite(e: Env, r: Run, v: Reversion)
    requires Living(e, r, v, true) && r.control.StopRequested?
    ensures |Finish(e, r).trail.writes| == 1
  {
    hide LineAt;
  }
}

/** Stopping a run whose state was seen before loses nothing: what the class key says of the state,
    and when two faults of one line with the same key end the same way. */
module Pruning {
  import opened Utils
  import opened Machine
  import opened Equivalence
  import opened Hooks
  import opened GoldenRun
  import opened StatsRun
  import opened Snapshots
  import opened Aftermath
  import opened Injection
  import opened ExactlyOnce

  // ----- what the key determines -----

  /** super_fast_hash has no collisions. */
  ghost predicate HashesAreInjective(p: Program) {
    && (forall r1, t1, r2, t2 :: p.hashContext(r1, t1) == p.hashContext(r2, t2) ==> r1 == r2 && t1 == t2)
    && (forall b1, b2 :: p.hashBytes(b1) == p.hashBytes(b2) ==> b1 == b2)
  }

  /** The stack region without its last 256 bytes. */
  function HashedStack(p: Program): Region {
    Region(p.stack.address, if p.stack.size < 256 then 0 else p.stack.size - 256)
  }

  /** The byte is part of the class key. */
  predicate IsHashed(p: Program, x: nat) {
    InRegion(p.main, x) || InRegion(HashedStack(p), x) || InOthers(p, 0, x)
  }

  lemma {:induction false} SameBytes(c: Cpu, d: Cpu, r: Region)
    requires c.mem.Keys == d.mem.Keys
    ensures ReadMem(c, r.address, r.size) == ReadMem(d, r.address, r.size)
       <==> forall x: nat :: InRegion(r, x) && x in c.mem ==> c.mem[x] == d.mem[x]
  {
    var a, b := ReadMem(c, r.address, r.size), ReadMem(d, r.address, r.size);
    assert forall x :: x in c.mem <==> x in c.mem.Keys;
    assert forall x :: x in d.mem <==> x in d.mem.Keys;
    if a == b {
      forall x: nat | InRegion(r, x) && x in c.mem ensures c.mem[x] == d.mem[x] {
        assert a[x - r.address] == b[x - r.address];
      }
    }
    if forall x: nat :: InRegion(r, x) && x in c.mem ==> c.mem[x] == d.mem[x] {
      forall i | 0 <= i < r.size ensures a[i] == b[i] {
        assert InRegion(r, r.address + i);
      }
    }
  }

  lemma {:induction false} SameOthers(p: Program, c: Cpu, d: Cpu, i: nat)
    requires HashesAreInjective(p) && c.mem.Keys == d.mem.Keys && i <= |p.others|
    ensures RegionHashes(p, c, i) == RegionHashes(p, d, i)
       <==> forall x: nat :: InOthers(p, i, x) && x in c.mem ==> c.mem[x] == d.mem[x]
    decreases |p.others| - i
  {
    hide ReadMem;
    if i < |p.others| {
      var hc, hd := RegionHashes(p, c, i), RegionHashes(p, d, i);
      SameOthers(p, c, d, i + 1);
      SameBytes(c, d, p.others[i]);
      assert hc[1..] == RegionHashes(p, c, i + 1) && hd[1..] == RegionHashes(p, d, i + 1);
      assert forall x: nat :: InOthers(p, i, x) <==> InRegion(p.others[i], x) || InOthers(p, i + 1, x);
      assert hc == hd <==> hc[0] == hd[0] && hc[1..] == hd[1..];
    }
  }

  /** Two states have the same class key exactly when they agree on the registers, the Thumb state and
      every hashed byte. */
  lemma {:induction false} SameKeyIff(p: Program, c: Cpu, d: Cpu)
    requires HashesAreInjective(p) && c.mem.Keys == d.mem.Keys
    ensures StateHashes(p, c) == StateHashes(p, d)
       <==> c.regs == d.regs && c.thumb == d.thumb
            && forall x: nat :: IsHashed(p, x) && x in c.mem ==> c.mem[x] == d.mem[x]
  {
    hide ReadMem, RegionHashes, InRegion, InOthers;
    var hc, hd := StateHashes(p, c), StateHashes(p, d);
    SameBytes(c, d, p.main);
    SameBytes(c, d, HashedStack(p));
    SameOthers(p, c, d, 0);
    assert hc[3..] == RegionHashes(p, c, 0) && hd[3..] == RegionHashes(p, d, 0);
    assert hc == hd <==> hc[0] == hd[0] && hc[1] == hd[1] && hc[2] == hd[2] && hc[3..] == hd[3..] by {
      if hc[0] == hd[0] && hc[1] == hd[1] && hc[2] == hd[2] && hc[3..] == hd[3..] {
        assert hc == [hc[0], hc[1], hc[2]] + hc[3..] && hd == [hd[0], hd[1], hd[2]] + hd[3..];
      }
    }
  }

  /** So two states with the same key are the same state exactly when the last 256 bytes of their
      stacks agree, where no other region holds them. */
  lemma {:induction false} SameKeySameStateIff(p: Program, c: Cpu, d: Cpu)
    requires HashesAreInjective(p) && MapsRegions(p, c) && MapsRegions(p, d)
    requires StateHashes(p, c) == StateHashes(p, d)
    ensures c == d <==> forall x: nat :: InRegion(p.stack, x) && !IsHashed(p, x) ==> c.mem[x] == d.mem[x]
  {
    hide StateHashes, HashesAreInjective, InRegion, InOthers;
    assert c.mem.Keys == d.mem.Keys;
    SameKeyIff(p, c, d);
    if forall x: nat :: InRegion(p.stack, x) && !IsHashed(p, x) ==> c.mem[x] == d.mem[x] {
      forall x | x in c.mem ensures c.mem[x] == d.mem[x] {
        assert IsMapped(p, x);
      }
      assert c.mem == d.mem;
    }
  }

  /** A byte at the end of the stack escapes the key: changing it is not seen. */
  lemma {:induction false} StackTailIsNotSeen(p: Program, c: Cpu, x: nat, b: Byte)
    requires HashesAreInjective(p) && x in c.mem && !IsHashed(p, x)
    ensures StateHashes(p, c) == StateHashes(p, c.(mem := c.mem[x := b]))
  {
    hide StateHashes, HashesAreInjective, IsHashed;
    var d := c.(mem := c.mem[x := b]);
    assert d.mem.Keys == c.mem.Keys;
    SameKeyIff(p, c, d);
  }

  // ----- runs that go the same way -----

  /** s is r, with a rule and a class table of its own. */
  ghost predicate Alike(r: Run, s: Run) {
    s == r.(rule := s.rule, classes := s.classes) && s.rule.instruction == r.rule.instruction
  }

  /** Two faulted runs that go the same way: at most the same register is still to be reverted, to the
      same value, or faulted again in the same way, after the same countdown. */
  ghost predicate GoAlike(e: Env, r: Run, s: Run) {
    Alike(r, s) && r.hk.equivalent == 0 && (r.hk.lifespan != 0 ==> SameLifespan(r, s))
  }

  ghost predicate SameLifespan(r: Run, s: Run) {
    && 0 < r.hk.lifespan <= |r.hooks| && r.rule.lifespan == s.rule.lifespan && r.rule.number == s.rule.number
    && (r.hooks[r.hk.lifespan - 1].kind.RevertRegister?
        || (r.hooks[r.hk.lifespan - 1].kind.RepeatRegister? && r.rule.mask == s.rule.mask
            && r.rule.operation == s.rule.operation))
  }

  lemma {:induction false} AlikeRemoves(r: Run, s: Run, kind: HookKind)
    requires Alike(r, s)
    ensures Alike(RemoveIfSet(r, kind), RemoveIfSet(s, kind)) && Alike(Stop(r), Stop(s))
  {
    hide SetHandle, HandleOf;
  }

  lemma {:induction false} AlikeStops(r: Run, s: Run, state: RunState)
    requires Alike(r, s)
    ensures Alike(Stop(RemoveIfSet(r.(state := state), CountInstructions)),
                  Stop(RemoveIfSet(s.(state := state), CountInstructions)))
  {
    hide RemoveIfSet, Stop;
    AlikeRemoves(r.(state := state), s.(state := state), CountInstructions);
    AlikeRemoves(RemoveIfSet(r.(state := state), CountInstructions), RemoveIfSet(s.(state := state), CountInstructions),
                 CountInstructions);
  }

  lemma {:induction false} AlikeEnds(e: Env, r: Run, s: Run, at: Site, b: bool)
    requires Alike(r, s)
    ensures Alike(AtEndAddress(r), AtEndAddress(s)) && Alike(AtHardStop(e, r), AtHardStop(e, s))
    ensures Alike(AtSkip(e, r, at), AtSkip(e, s, at)) && Alike(r.(inRange := b), s.(inRange := b))
    ensures Alike(Count(r), Count(s))
  {
    hide WritePc, RemoveIfSet, Stop;
    AlikeStops(r, s, HardStopped);
    AlikeStops(r, s, if r.state.Faulted? then EndAddressAndFaulted
                     else if r.state.EquivalentRs? then EquivalentRs else EndAddress);
  }

  lemma {:induction false} GoAlikeEarly(e: Env, r: Run, s: Run, at: Site, b: bool)
    requires GoAlike(e, r, s)
    ensures GoAlike(e, r.(inRange := b), s.(inRange := b))
    ensures GoAlike(e, Count(r.(inRange := b)), Count(s.(inRange := b)))
    ensures GoAlike(e, AtSkip(e, r, at), AtSkip(e, s, at))
  {
    hide WritePc;
  }

  lemma {:induction false} GoAlikeFinish(e: Env, r: Run, s: Run)
    requires Alike(r, s)
    ensures Alike(Finish(e, r), Finish(e, s)) && Alike(AfterSegment(e, r), AfterSegment(e, s))
    ensures GoAlike(e, r, s) ==> GoAlike(e, Finish(e, r), Finish(e, s))
    ensures GoAlike(e, r, s) ==> GoAlike(e, AfterSegment(e, r), AfterSegment(e, s))
  {
    hide WritePc, Finish, AfterSegment;
    FinishKeepsRule(e, r);
    FinishKeepsRule(e, s);
    FinishAlike(e, r, s);
  }

  lemma {:induction false} FinishKeepsRule(e: Env, r: Run)
    ensures Finish(e, r).rule == AfterSegment(e, r).rule == r.rule
    ensures Finish(e, r).hooks == AfterSegment(e, r).hooks == r.hooks
    ensures Finish(e, r).hk == AfterSegment(e, r).hk == r.hk
  {
    hide WritePc;
  }

  lemma {:induction false} FinishAlike(e: Env, r: Run, s: Run)
    requires Alike(r, s)
    ensures Alike(Finish(e, r), Finish(e, s)) && Alike(AfterSegment(e, r), AfterSegment(e, s))
  {
    AfterAlike(e, r, s);
    hide WritePc, Pass, AfterSegment, Alike;
    SameMarks(r, s);
    var c := e.p.exec(r.cpu).cpu;
    var r1, s1 := Pass(r).(cpu := c), Pass(s).(cpu := c);
  }

  lemma {:induction false} SameMarks(r: Run, s: Run)
    requires Alike(r, s)
    ensures r.control == s.control && r.cpu == s.cpu && r.phase == s.phase
  {
  }

  lemma {:induction false} AfterAlike(e: Env, r: Run, s: Run)
    requires Alike(r, s)
    ensures Alike(AfterSegment(e, r), AfterSegment(e, s))
  {
    hide WritePc;
  }

  lemma {:induction false} GoAlikeRemove(e: Env, r: Run, s: Run, kind: HookKind)
    requires GoAlike(e, r, s) && (kind.RevertRegister? || kind.RepeatRegister?)
    ensures GoAlike(e, Remove(r, kind), Remove(s, kind))
  {
  }

  lemma {:induction false} GoAlikeCountDown(e: Env, r: Run, s: Run)
    requires GoAlike(e, r, s) && r.hk.lifespan != 0
    ensures var r1, s1 := CountDown(r), CountDown(s);
            GoAlike(e, r1, s1) && r1.hk == r.hk && r1.hooks == r.hooks && r1.rule.lifespan == s1.rule.lifespan
            && r1.rule.number == s1.rule.number == r.rule.number && r1.rule.operation == r.rule.operation
    ensures r.rule.lifespan == s.rule.lifespan
  {
  }

  lemma {:induction false} RevertsAlike(e: Env, r: Run, s: Run, at: Site)
    requires GoAlike(e, r, s) && r.hk.lifespan != 0
    ensures GoAlike(e, RevertRegisterHook(e, r, at), RevertRegisterHook(e, s, at))
  {
    assert LifespanNotStarted(e, r, at) == LifespanNotStarted(e, s, at);
    hide Remove, WriteRegister, CountDown, LifespanNotStarted, GoAlike;
    GoAlikeCountDown(e, r, s);
    var r1, s1 := CountDown(r), CountDown(s);
    var number, v := r.rule.number, r1.rule.lifespan.originalValue;
    GoAlikeWrite(e, r1, s1, number, v);
    GoAlikeRemove(e, WriteRegister(e, r1, number, v), WriteRegister(e, s1, number, v), RevertRegister);
  }

  lemma {:induction false} GoAlikeWrite(e: Env, r: Run, s: Run, number: nat, v: nat)
    requires GoAlike(e, r, s)
    ensures GoAlike(e, WriteRegister(e, r, number, v), WriteRegister(e, s, number, v))
  {
    hide WritePc;
  }

  lemma {:induction false} RepeatsAlike(e: Env, r: Run, s: Run, at: Site)
    requires GoAlike(e, r, s) && r.hk.lifespan != 0 && r.hooks[r.hk.lifespan - 1].kind.RepeatRegister?
    ensures GoAlike(e, RepeatRegisterHook(e, r, at), RepeatRegisterHook(e, s, at))
  {
    assert LifespanNotStarted(e, r, at) == LifespanNotStarted(e, s, at);
    hide Remove, DoTheRegisterFault, CountDown, LifespanNotStarted, GoAlike;
    GoAlikeCountDown(e, r, s);
    var r1, s1 := CountDown(r), CountDown(s);
    GoAlikeFault(e, r1, s1, at);
    GoAlikeRemove(e, DoTheRegisterFault(e, r1, at), DoTheRegisterFault(e, s1, at), RepeatRegister);
  }

  lemma {:induction false} GoAlikeFault(e: Env, r: Run, s: Run, at: Site)
    requires GoAlike(e, r, s) && r.hk.lifespan != 0 && r.hooks[r.hk.lifespan - 1].kind.RepeatRegister?
    ensures var r1, s1 := DoTheRegisterFault(e, r, at), DoTheRegisterFault(e, s, at);
            GoAlike(e, r1, s1) && r1.control == s1.control && r1.rule.lifespan.live == s1.rule.lifespan.live
  {
    hide WritePc, FaultReg;
  }

  /** The hooks that are called behind the counting hook. */
  function RegisterLifespan(e: Env, r: Run, at: Site, kind: HookKind): Run {
    if kind.RevertRegister? then RevertRegisterHook(e, r, at) else RepeatRegisterHook(e, r, at)
  }

  lemma {:induction false} OnlyLifespans(e: Env, r: Run, s: Run, at: Site, i: nat)
    requires GoAlike(e, r, s) && FaultedHooks(e, r.hooks, r.hk) && 12 <= i < |r.hooks| && IsCalled(r, at, i)
    ensures r.hk.lifespan == i + 1 && (r.hooks[i].kind.RevertRegister? || r.hooks[i].kind.RepeatRegister?)
    ensures Visit(e, r, at, i) == RegisterLifespan(e, r, at, r.hooks[i].kind)
    ensures Visit(e, s, at, i) == RegisterLifespan(e, s, at, r.hooks[i].kind)
  {
    hide RevertRegisterHook, RepeatRegisterHook, SetupHooks;
    assert IsLater(r.hooks[i].kind);
  }

  lemma {:induction false} LifespansGoAlike(e: Env, r: Run, s: Run, at: Site)
    requires GoAlike(e, r, s) && r.hk.lifespan != 0
    ensures var kind := r.hooks[r.hk.lifespan - 1].kind;
            GoAlike(e, RegisterLifespan(e, r, at, kind), RegisterLifespan(e, s, at, kind))
  {
    hide RevertRegisterHook, RepeatRegisterHook;
    RevertsAlike(e, r, s, at);
    if r.hooks[r.hk.lifespan - 1].kind.RepeatRegister? {
      RepeatsAlike(e, r, s, at);
    }
  }

  lemma {:induction false} LaterAlike(e: Env, r: Run, s: Run, at: Site, i: nat)
    requires GoAlike(e, r, s) && HasFaulted(e, r) && r.control.Going? && !r.restart && 12 <= i <= |r.hooks|
    ensures GoAlike(e, Dispatch(e, r, at, i), Dispatch(e, s, at, i))
    decreases |r.hooks| - i
  {
    hide Visit, HasFaulted, RegisterLifespan;
    if i < |r.hooks| {
      OneVisit(e, r, at, i);
      OneVisit(e, s, at, i);
      LaterVisit(e, r, at, i);
      var r1, s1 := Visit(e, r, at, i), Visit(e, s, at, i);
      if IsCalled(r, at, i) {
        assert FaultedHooks(e, r.hooks, r.hk) by { Unfold(e, r); }
        OnlyLifespans(e, r, s, at, i);
        LifespansGoAlike(e, r, s, at);
      } else {
        NotCalled(e, r, s, at, i);
      }
      if r1.control.Going? {
        LaterAlike(e, r1, s1, at, i + 1);
      } else {
        EndsThere(e, r1, at, i + 1);
        EndsThere(e, s1, at, i + 1);
      }
    }
  }

  lemma {:induction false} Unfold(e: Env, r: Run)
    requires HasFaulted(e, r)
    ensures FaultedHooks(e, r.hooks, r.hk) && e.mode.FaultMode?
  {
  }

  lemma {:induction false} NotCalled(e: Env, r: Run, s: Run, at: Site, i: nat)
    requires Alike(r, s) && i < |r.hooks| && !IsCalled(r, at, i)
    ensures Visit(e, r, at, i) == r && Visit(e, s, at, i) == s
  {
  }

  lemma {:induction false} BothFaulted(e: Env, r: Run, s: Run)
    requires GoAlike(e, r, s) && HasFaulted(e, r)
    ensures HasFaulted(e, s)
  {
    hide FaultedHooks;
  }

  /** The two runs go the same way, or are over in the same way. */
  ghost predicate SameWay(e: Env, r: Run, s: Run, budget: nat) {
    (GoesOn(e, r, budget) && GoAlike(e, r, s)) || (IsOver(r, budget) && Alike(r, s))
  }

  lemma {:induction false} SameWayStep(e: Env, r: Run, s: Run, budget: nat)
    requires SameWay(e, r, s, budget)
    ensures SameWay(e, Step(e, r), Step(e, s), budget)
  {
    hide GoesOn, IsOver, Step, GoAlike, Alike;
    if GoesOn(e, r, budget) && GoAlike(e, r, s) {
      FaultedStep(e, r, budget);
      GoAlikeStep(e, r, s, budget);
    } else {
      OverStaysOver(e, r, budget);
      OverAlike(e, r, s, budget);
    }
    GoingIsAlike(e, Step(e, r), Step(e, s));
  }

  lemma {:induction false} GoingIsAlike(e: Env, r: Run, s: Run)
    ensures GoAlike(e, r, s) ==> Alike(r, s)
  {
  }

  lemma {:induction false} OverAlike(e: Env, r: Run, s: Run, budget: nat)
    requires IsOver(r, budget) && Alike(r, s)
    ensures Alike(Step(e, r), Step(e, s))
  {
    hide AfterSegment;
    GoAlikeFinish(e, r, s);
  }

  lemma {:induction false} GoAlikeStep(e: Env, r: Run, s: Run, budget: nat)
    requires GoesOn(e, r, budget) && GoAlike(e, r, s)
    ensures Alike(Step(e, r), Step(e, s)) && (GoesOn(e, Step(e, r), budget) ==> GoAlike(e, Step(e, r), Step(e, s)))
  {
    hide Dispatch, HasFaulted, AtEndAddress, AtHardStop, AtSkip, Count, Finish, AfterSegment, FlagAt;
    BothFaulted(e, r, s);
    Unfold(e, r);
    if r.phase.Running? {
      var at := SiteOf(e.p, r.cpu);
      var b := FlagAt(e, r.inRange, at.address);
      var r1, s1 := r.(inRange := b), s.(inRange := b);
      FaultedPrefix(e, r, at);
      FaultedPrefix(e, s, at);
      AlikeEnds(e, r, s, at, b);
      AlikeEnds(e, r1, s1, at, b);
      GoAlikeEarly(e, r, s, at, b);
      EndsGoNoFurther(e, r, budget);
      EndsGoNoFurther(e, r1, budget);
      if at.address != e.p.codeEnd && at.address !in e.p.skips && at.address !in e.p.hardStops {
        CountingKeeps(e, r, b);
        CountGoes(r1);
        Behind12(e, Count(r1));
        LaterAlike(e, Count(r1), Count(s1), at, 12);
      }
      GoAlikeFinish(e, Dispatch(e, r, at, 0), Dispatch(e, s, at, 0));
    } else {
      GoAlikeFinish(e, r, s);
    }
  }

  lemma {:induction false} CountGoes(r: Run)
    ensures Count(r).control == r.control && Count(r).restart == r.restart && Count(r).hooks == r.hooks
  {
  }

  lemma {:induction false} EndsGoNoFurther(e: Env, r: Run, budget: nat)
    requires !r.restart && e.mode.FaultMode?
    ensures !GoesOn(e, Finish(e, AtEndAddress(r)), budget) && !GoesOn(e, Finish(e, AtHardStop(e, r)), budget)
  {
    hide HasFaulted, SetHandle, HandleOf;
  }

  lemma {:induction false} SameWaySteps(e: Env, r: Run, s: Run, budget: nat, n: nat)
    requires SameWay(e, r, s, budget)
    ensures SameWay(e, Steps(e, r, n), Steps(e, s, n), budget)
  {
    hide SameWay, Step;
    if n > 0 {
      SameWaySteps(e, r, s, budget, n - 1);
      SameWayStep(e, Steps(e, r, n - 1), Steps(e, s, n - 1), budget);
    }
  }

  // ----- pruning -----

  /** The CPU a register fault leaves. */
  function FaultedCpu(p: Program, c: Cpu, rule: FaultRule, size: nat): (d: Cpu)
    ensures d.mem == c.mem
  {
    match FaultReg(rule.mask, rule.operation, ReadReg(c, rule.number), size)
    case None => c
    case Some(v) => if rule.number == p.pcReg then WritePc(p, c, v) else c.(regs := c.regs[rule.number := v])
  }

  /** The tool without the equivalence test. */
  function Unpruned(e: Env): Env {
    e.(stopOnEquivalence := false)
  }

  /** Register faults of one line that are not told apart by what the class key leaves out: both last
      for ever, or both are reverted after the same countdown on the same register, or both repeat the
      same fault.  Every register fault is comparable with itself.  Of two lasting faults, one on the
      program counter and one on another register, PcFaults.PcFaultLags speaks. */
  predicate Comparable(p: Program, a: FaultRule, b: FaultRule) {
    && a.target.Register? && b.target.Register? && a.instruction == b.instruction
    && (a.number == p.pcReg <==> b.number == p.pcReg)
    && ((a.lifespan.count == 0 && b.lifespan.count == 0)
        || (a.lifespan == b.lifespan && a.number == b.number
            && (a.lifespan.mode.Repeat? ==> a.mask == b.mask && a.operation == b.operation)))
  }

  lemma {:induction false} FaultsCpu(e: Env, r: Run, at: Site)
    requires Accepts(r.rule) && r.rule.target.Register?
    ensures var d := DoTheRegisterFault(e, r, at);
            && d.cpu == FaultedCpu(e.p, r.cpu, r.rule, at.size)
            && d == r.(cpu := d.cpu, control := if r.rule.number == e.p.pcReg then PcWritten else r.control,
                       rule := r.rule.(lifespan := r.rule.lifespan.(originalValue := ReadReg(r.cpu, r.rule.number))))
  {
    hide WritePc, Bitwise;
  }

  lemma {:induction false} SameKeySameFault(p: Program, c: Cpu, a: FaultRule, b: FaultRule, size: nat)
    requires HashesAreInjective(p)
    requires StateHashes(p, FaultedCpu(p, c, a, size)) == StateHashes(p, FaultedCpu(p, c, b, size))
    ensures FaultedCpu(p, c, a, size) == FaultedCpu(p, c, b, size)
  {
    hide StateHashes, HashesAreInjective, FaultReg, IsHashed;
    SameKeyIff(p, FaultedCpu(p, c, a, size), FaultedCpu(p, c, b, size));
  }

  /** The second hook of a register fault, without the equivalence test. */
  lemma {:induction false} FaultsAlike(e: Env, r: Run, s: Run, at: Site)
    requires Alike(r, s) && !e.stopOnEquivalence && Comparable(e.p, r.rule, s.rule) && Accepts(r.rule)
    requires Accepts(s.rule)
    requires FaultedCpu(e.p, r.cpu, r.rule, at.size) == FaultedCpu(e.p, r.cpu, s.rule, at.size)
    requires r.hk.equivalent == 0 && r.hk.lifespan == 0 && r.hk.faultIt == 13 <= |r.hooks|
    ensures GoAlike(e, FaultRegisterHook(e, r, at), FaultRegisterHook(e, s, at))
    ensures !FaultRegisterHook(e, r, at).control.StopRequested? || r.control.StopRequested?
  {
    FaultsCpu(e, r, at);
    FaultsCpu(e, s, at);
    hide DoTheRegisterFault, FaultedCpu, Accepts;
    var r1, s1 := Fire(DoTheRegisterFault(e, r, at), at), Fire(DoTheRegisterFault(e, s, at), at);
    assert Alike(r1, s1);
    LifespansAlike(e, r1, s1);
    var r2 := AddLifespan(r1, RevertRegister, RepeatRegister, Everywhere).(state := Faulted);
    var s2 := AddLifespan(s1, RevertRegister, RepeatRegister, Everywhere).(state := Faulted);
    DeleteAlike(e, r2, s2);
  }

  lemma {:induction false} LifespansAlike(e: Env, r: Run, s: Run)
    requires Alike(r, s) && Comparable(e.p, r.rule, s.rule) && r.hk.equivalent == 0 && r.hk.lifespan == 0
    ensures var r2 := AddLifespan(r, RevertRegister, RepeatRegister, Everywhere).(state := Faulted);
            var s2 := AddLifespan(s, RevertRegister, RepeatRegister, Everywhere).(state := Faulted);
            && GoAlike(e, r2, s2) && r2.hk.faultIt == r.hk.faultIt && |r2.hooks| >= |r.hooks| && r2.control == r.control
            && (r2.hk.lifespan == 0 || r2.hk.lifespan == |r.hooks| + 1)
  {
    assert r.rule.lifespan.count == 0 <==> s.rule.lifespan.count == 0;
    hide Install;
    if r.rule.lifespan.count > 0 {
      InstallsAlike(e, StartLifespan(r), StartLifespan(s), RevertRegister);
      InstallsAlike(e, StartLifespan(r), StartLifespan(s), RepeatRegister);
    }
  }

  lemma {:induction false} InstallsAlike(e: Env, r: Run, s: Run, kind: HookKind)
    requires Alike(r, s) && r.hk.equivalent == 0 && r.rule.lifespan == s.rule.lifespan && r.rule.number == s.rule.number
    requires kind.RevertRegister? || kind.RepeatRegister?
    requires kind.RepeatRegister? && r.rule.lifespan.mode.Repeat? ==>
               r.rule.mask == s.rule.mask && r.rule.operation == s.rule.operation
    ensures var r1, s1 := Install(r, kind, Everywhere), Install(s, kind, Everywhere);
            (kind.RevertRegister? || r.rule.lifespan.mode.Repeat? ==>
               GoAlike(e, r1.(state := Faulted), s1.(state := Faulted)))
            && r1.hk.faultIt == r.hk.faultIt && |r1.hooks| == |r.hooks| + 1 == r1.hk.lifespan && r1.control == r.control
  {
  }

  lemma {:induction false} DeleteAlike(e: Env, r: Run, s: Run)
    requires GoAlike(e, r, s)
    ensures GoAlike(e, RemoveIfSet(r, FaultItRegister), RemoveIfSet(s, FaultItRegister))
    ensures RemoveIfSet(r, FaultItRegister).control == r.control
  {
  }

  lemma {:induction false} AlikeToTheFault(w: Run, v: Run, at: Site)
    requires Alike(w, v) && w.rule.target.Register? && IsTheLine(w)
    ensures var w1, v1 := Count(FaultAddressHook(w, at)), Count(FaultAddressHook(v, at));
            && Alike(w1, v1) && w1.cpu == w.cpu
            && w1.rule == w.rule.(faultedAddress := at.address) && v1.rule == v.rule.(faultedAddress := at.address)
            && w1.hk.equivalent == w.hk.equivalent && w1.hk.lifespan == w.hk.lifespan
  {
  }

  /** From the first hook of the fault to the end of the dispatch. */
  lemma {:induction false} FaultDispatchAlike(e: Env, o: Origin, w: Run, v: Run, at: Site)
    requires !e.stopOnEquivalence && AtTheHook(e, o, w, at) && AtTheHook(e, o, v, at) && Alike(w, v)
    requires |w.hooks| == 12 && IsCalled(w, at, 10) && w.hooks[10].kind.FaultItAddress?
    requires Comparable(e.p, w.rule, v.rule) && Accepts(w.rule) && Accepts(v.rule)
    requires FaultedCpu(e.p, w.cpu, w.rule, at.size) == FaultedCpu(e.p, w.cpu, v.rule, at.size)
    ensures GoAlike(e, Dispatch(e, w, at, 10), Dispatch(e, v, at, 10))
  {
    FreshHooks(e, o, w, at);
    assert IsTheLine(w);
    hide AtTheHook, Dispatch, FaultAddressHook, FaultRegisterHook, Count, SetupHooks, LaterHooks, FaultedCpu, Accepts,
         HasFaulted;
    ReachSecondHook(e, o, w, at);
    ReachSecondHook(e, o, v, at);
    AlikeToTheFault(w, v, at);
    var w1, v1 := Count(FaultAddressHook(w, at)), Count(FaultAddressHook(v, at));
    assert Accepts(w1.rule) && Accepts(v1.rule) && FaultedCpu(e.p, w1.cpu, w1.rule, at.size)
           == FaultedCpu(e.p, w1.cpu, v1.rule, at.size)
      by { FaultIgnoresAddress(e.p, w, at); FaultIgnoresAddress(e.p, w.(rule := v.rule), at); }
    FaultsAlike(e, w1, v1, at);
    RegisterFires(e, o, w, w1, at);
    var w2, v2 := FaultRegisterHook(e, w1, at), FaultRegisterHook(e, v1, at);
    if w2.control.Going? {
      LaterAlike(e, w2, v2, at, 13);
    } else {
      EndsThere(e, w2, at, 13);
      EndsThere(e, v2, at, 13);
    }
  }

  lemma {:induction false} FaultIgnoresAddress(p: Program, w: Run, at: Site)
    ensures var rule := w.rule.(faultedAddress := at.address);
            (Accepts(w.rule) ==> Accepts(rule)) &&
            FaultedCpu(p, w.cpu, rule, at.size) == FaultedCpu(p, w.cpu, w.rule, at.size)
  {
    hide FaultReg;
  }

  lemma {:induction false} WithinAlike(e: Env, o: Origin, trace: seq<Cpu>, a: FaultRule, b: FaultRule, lines: seq<Line>,
                                       ca: seq<Class<FaultRule>>, cb: seq<Class<FaultRule>>, u: nat)
    requires u < |trace| && a.isSet && b.isSet && a.target.Register? && b.target.Register?
    requires a.instruction == b.instruction
    requires IsLine(e.p, trace, u)
    ensures var w := Within(e, o, trace, a, lines, ca, u);
            Alike(w, Within(e, o, trace, b, lines, cb, u)) && |w.hooks| == 12 && w.cpu == trace[u]
  {
    hide SetupHooks;
    LineIsEntered(e.p, trace, u);
  }

  /** The step that makes the fault. */
  lemma {:induction false} FaultStepAlike(e: Env, o: Origin, trace: seq<Cpu>, a: FaultRule, b: FaultRule,
                                          lines: seq<Line>, ca: seq<Class<FaultRule>>, cb: seq<Class<FaultRule>>,
                                          u: nat)
    requires !e.stopOnEquivalence && IsGolden(e.p, trace) && u < Last(trace) && e.mode.FaultMode?
    requires (o.Restored? || (!RestoresCheckpoint(e, a, lines) && !RestoresCheckpoint(e, b, lines)))
    requires Fires(e, trace, a, lines, u) && Fires(e, trace, b, lines, u)
    requires Comparable(e.p, a, b) && Accepts(a) && Accepts(b)
    requires FaultedCpu(e.p, trace[u], a, e.p.size(trace[u])) == FaultedCpu(e.p, trace[u], b, e.p.size(trace[u]))
    ensures GoAlike(e, Step(e, Before(e, o, trace, a, lines, ca, u)), Step(e, Before(e, o, trace, b, lines, cb, u)))
  {
    hide Dispatch, Visit, SetupHooks, AtTheHook, RestoresCheckpoint, Finish, FaultedCpu, Accepts, GoAlike, Alike;
    var at := SiteOf(e.p, trace[u]);
    var w, v := Within(e, o, trace, a, lines, ca, u), Within(e, o, trace, b, lines, cb, u);
    ReachWithin(e, o, trace, a, lines, ca, u);
    ReachWithin(e, o, trace, b, lines, cb, u);
    AtItsLine(e, o, trace, a, lines, ca, u);
    AtItsLine(e, o, trace, b, lines, cb, u);
    WithinAlike(e, o, trace, a, b, lines, ca, cb, u);
    OneVisit(e, w, at, 9);
    OneVisit(e, v, at, 9);
    FaultDispatchAlike(e, o, w, v, at);
    var w1, v1 := Dispatch(e, w, at, 10), Dispatch(e, v, at, 10);
    GoingIsAlike(e, w1, v1);
    GoAlikeFinish(e, w1, v1);
  }

  /** Pruning is sound.  Let a and b be register faults of one line that Comparable does not tell
      apart, and let the states they leave fall into one class.  Without the equivalence test their
      runs agree after the fault, step by step, in everything but the rule itself: so b's run, which
      the test stops, would have ended with the outcome that a's run has. */
  lemma {:induction false} SameClassSameOutcome(e: Env, o: Origin, trace: seq<Cpu>, a: FaultRule, b: FaultRule,
                                                lines: seq<Line>, ca: seq<Class<FaultRule>>,
                                                cb: seq<Class<FaultRule>>, n: nat)
    requires HasItsLine(e, trace, a, lines) && HasItsLine(e, trace, b, lines) && Accepts(a) && Accepts(b)
    requires o.Restored? || (!RestoresCheckpoint(e, a, lines) && !RestoresCheckpoint(e, b, lines))
    requires HashesAreInjective(e.p) && Comparable(e.p, a, b)
    requires var u := FaultDispatch(e, trace, a, lines);
             StateHashes(e.p, FaultedCpu(e.p, trace[u], a, e.p.size(trace[u])))
               == StateHashes(e.p, FaultedCpu(e.p, trace[u], b, e.p.size(trace[u])))
    ensures var u := FaultDispatch(e, trace, a, lines);
            Alike(Steps(Unpruned(e), Step(Unpruned(e), Before(e, o, trace, a, lines, ca, u)), n),
                  Steps(Unpruned(e), Step(Unpruned(e), Before(e, o, trace, b, lines, cb, u)), n))
  {
    hide Before, Step, StateHashes, HashesAreInjective, FaultedCpu, Accepts, IsGolden, IsRecorded, RestoresCheckpoint,
         Fires, Alike, GoAlike, SameWay, Comparable, HasInjected;
    var u, f := FaultDispatch(e, trace, a, lines), Unpruned(e);
    FiresThereOnly(e, trace, a, lines);
    SameLine(e, trace, a, b, lines);
    FiresThereOnly(e, trace, b, lines);
    SameKeySameFault(e.p, trace[u], a, b, e.p.size(trace[u]));
    UnprunedToo(e, o, trace, a, lines, ca, u);
    UnprunedToo(e, o, trace, b, lines, cb, u);
    FaultStepAlike(f, o, trace, a, b, lines, ca, cb, u);
    LineInjects(f, o, trace, a, lines, ca, u);
    var r, s := Step(f, Before(e, o, trace, a, lines, ca, u)), Step(f, Before(e, o, trace, b, lines, cb, u));
    GoingIsAlike(f, r, s);
    InjectedSameWay(f, o, a, Pc(e.p, trace[u]), r, s);
    SameWaySteps(f, r, s, RestartBudget(o, a), n);
    GoingIsAlike(f, Steps(f, r, n), Steps(f, s, n));
    SameWayIsAlike(f, Steps(f, r, n), Steps(f, s, n), RestartBudget(o, a));
  }

  lemma {:induction false} SameLine(e: Env, trace: seq<Cpu>, a: FaultRule, b: FaultRule, lines: seq<Line>)
    requires HasItsLine(e, trace, a, lines) && HasItsLine(e, trace, b, lines) && Comparable(e.p, a, b)
    ensures FaultDispatch(e, trace, a, lines) == FaultDispatch(e, trace, b, lines)
  {
  }

  lemma {:induction false} UnprunedToo(e: Env, o: Origin, trace: seq<Cpu>, rule: FaultRule, lines: seq<Line>,
                                       classes: seq<Class<FaultRule>>, u: nat)
    requires u < |trace|
    ensures Before(Unpruned(e), o, trace, rule, lines, classes, u) == Before(e, o, trace, rule, lines, classes, u)
    ensures Fires(Unpruned(e), trace, rule, lines, u) == Fires(e, trace, rule, lines, u)
    ensures RestoresCheckpoint(Unpruned(e), rule, lines) == RestoresCheckpoint(e, rule, lines)
  {
    SameHooks(e);
    hide SetupHooks;
  }

  lemma {:induction false} SameHooks(e: Env)
    ensures SetupHooks(Unpruned(e)) == SetupHooks(e)
  {
  }

  lemma {:induction false} InjectedSameWay(e: Env, o: Origin, rule: FaultRule, address: nat, r: Run, s: Run)
    requires HasInjected(e, o, rule, address, r) && GoAlike(e, r, s)
    ensures SameWay(e, r, s, RestartBudget(o, rule))
  {
    hide GoesOn, IsOver;
  }

  lemma {:induction false} SameWayIsAlike(e: Env, r: Run, s: Run, budget: nat)
    requires SameWay(e, r, s, budget)
    ensures Alike(r, s)
  {
    hide GoesOn, IsOver;
  }

  // ----- with the equivalence test -----

  /** The run of a register fault is stopped by the test exactly when the state it leaves has a class
      already; either way it is recorded in that state's class. */
  lemma {:induction false} StopsIffKnown(e: Env, r: Run, at: Site)
    requires e.stopOnEquivalence && r.rule.target.Register? && Accepts(r.rule) && r.control.Going?
    ensures var key := StateHashes(e.p, FaultedCpu(e.p, r.cpu, r.rule, at.size));
            var s := FaultRegisterHook(e, r, at);
            && (s.control.StopRequested? <==> Known(r.classes, key))
            && (s.control.StopRequested? ==> s.state.EquivalentRs?)
            && exists rule: FaultRule :: SameRule(rule, r.rule) && s.classes == Record(r.classes, key, rule)
  {
    FaultsCpu(e, r, at);
    hide DoTheRegisterFault, FaultedCpu, Accepts, StateHashes, Known, Record;
    var r2 := AddLifespan(Fire(DoTheRegisterFault(e, r, at), at), RevertRegister, RepeatRegister,
                          Everywhere).(state := Faulted);
    LifespanKeeps(Fire(DoTheRegisterFault(e, r, at), at));
    var key := StateHashes(e.p, FaultedCpu(e.p, r.cpu, r.rule, at.size));
    assert SameRule(r2.rule, r.rule) && RecordState(e, r2).classes == Record(r.classes, key, r2.rule);
  }

  lemma {:induction false} LifespanKeeps(r: Run)
    ensures var s := AddLifespan(r, RevertRegister, RepeatRegister, Everywhere);
            && s.classes == r.classes && s.cpu == r.cpu && s.control == r.control
            && s.rule == r.rule.(lifespan := s.rule.lifespan)
  {
  }

  /** The run that is the first of its class goes on as it would without the test. */
  lemma {:induction false} FirstOfItsClass(e: Env, r: Run, at: Site)
    requires e.stopOnEquivalence && r.rule.target.Register? && Accepts(r.rule) && r.control.Going?
    requires !Known(r.classes, StateHashes(e.p, FaultedCpu(e.p, r.cpu, r.rule, at.size)))
    requires Comparable(e.p, r.rule, r.rule) && r.hk.equivalent == r.hk.lifespan == 0 && r.hk.faultIt == 13 <= |r.hooks|
    ensures GoAlike(e, FaultRegisterHook(Unpruned(e), r, at), FaultRegisterHook(e, r, at))
  {
    FaultsCpu(e, r, at);
    FaultsCpu(Unpruned(e), r, at);
    hide DoTheRegisterFault, FaultedCpu, Accepts, StateHashes, Known, Record;
    var r1 := Fire(DoTheRegisterFault(e, r, at), at);
    LifespansAlike(e, r1, r1);
    LifespanKeeps(r1);
    var r2 := AddLifespan(r1, RevertRegister, RepeatRegister, Everywhere).(state := Faulted);
    assert GoAlike(e, r2, RecordState(e, r2));
    DeleteAlike(e, r2, RecordState(e, r2));
  }

  lemma {:induction false} SameCallbacks(e: Env, r: Run, at: Site)
    ensures AtSkip(Unpruned(e), r, at) == AtSkip(e, r, at) && AtHardStop(Unpruned(e), r) == AtHardStop(e, r)
    ensures Finish(Unpruned(e), r) == Finish(e, r) && AfterSegment(Unpruned(e), r) == AfterSegment(e, r)
    ensures SiteOf(Unpruned(e).p, r.cpu) == SiteOf(e.p, r.cpu)
    ensures FlagAt(Unpruned(e), r.inRange, at.address) == FlagAt(e, r.inRange, at.address)
  {
    hide Remove, RemoveIfSet, WritePc, Pass;
  }

  lemma {:induction false} SameLifespans(e: Env, r: Run, at: Site, kind: HookKind)
    ensures RegisterLifespan(Unpruned(e), r, at, kind) == RegisterLifespan(e, r, at, kind)
  {
    hide Remove, WritePc, FaultReg;
  }

  lemma {:induction false} FaultedInBoth(e: Env, r: Run)
    ensures HasFaulted(Unpruned(e), r) == HasFaulted(e, r)
    ensures FaultedHooks(Unpruned(e), r.hooks, r.hk) == FaultedHooks(e, r.hooks, r.hk)
    ensures forall budget :: GoesOn(Unpruned(e), r, budget) == GoesOn(e, r, budget)
    ensures GoAlike(Unpruned(e), r, r) == GoAlike(e, r, r)
  {
    SameHooks(e);
    hide SetupHooks;
  }

  lemma {:induction false} LaterUnpruned(e: Env, r: Run, at: Site, i: nat)
    requires GoAlike(e, r, r) && HasFaulted(e, r) && r.control.Going? && !r.restart && 12 <= i <= |r.hooks|
    ensures Dispatch(Unpruned(e), r, at, i) == Dispatch(e, r, at, i)
    decreases |r.hooks| - i
  {
    hide Visit, HasFaulted, RegisterLifespan;
    if i < |r.hooks| {
      OneVisit(e, r, at, i);
      OneVisit(Unpruned(e), r, at, i);
      LaterVisit(e, r, at, i);
      var r1 := Visit(e, r, at, i);
      FaultedInBoth(e, r);
      if IsCalled(r, at, i) {
        Unfold(e, r);
        OnlyLifespans(e, r, r, at, i);
        OnlyLifespans(Unpruned(e), r, r, at, i);
        SameLifespans(e, r, at, r.hooks[i].kind);
        LifespansGoAlike(e, r, r, at);
      } else {
        NotCalled(e, r, r, at, i);
        NotCalled(Unpruned(e), r, r, at, i);
      }
      if r1.control.Going? {
        LaterUnpruned(e, r1, at, i + 1);
      } else {
        EndsThere(e, r1, at, i + 1);
        EndsThere(Unpruned(e), r1, at, i + 1);
      }
    }
  }

  lemma {:induction false} StepUnpruned(e: Env, r: Run, budget: nat)
    requires GoesOn(e, r, budget) && GoAlike(e, r, r)
    ensures Step(Unpruned(e), r) == Step(e, r)
  {
    hide Dispatch, HasFaulted, AtEndAddress, AtHardStop, AtSkip, Count, Finish, AfterSegment, FlagAt, GoAlike, SiteOf;
    var at := SiteOf(e.p, r.cpu);
    SameCallbacks(e, r, at);
    if r.phase.Running? {
      var r1 := r.(inRange := FlagAt(e, r.inRange, at.address));
      FaultedInBoth(e, r);
      FaultedPrefix(e, r, at);
      FaultedPrefix(Unpruned(e), r, at);
      SameCallbacks(e, r1, at);
      if at.address != e.p.codeEnd && at.address !in e.p.skips && at.address !in e.p.hardStops {
        CountingKeeps(e, r, r1.inRange);
        CountGoes(r1);
        Behind12(e, Count(r1));
        GoAlikeEarly(e, r, r, at, r1.inRange);
        LaterUnpruned(e, Count(r1), at, 12);
      }
      SameCallbacks(e, Dispatch(e, r, at, 0), at);
    }
  }

  lemma {:induction false} StepsUnpruned(e: Env, r: Run, budget: nat, n: nat)
    requires SameWay(e, r, r, budget)
    ensures Steps(Unpruned(e), r, n) == Steps(e, r, n)
  {
    hide Step, GoesOn, IsOver, GoAlike;
    if n > 0 {
      StepsUnpruned(e, r, budget, n - 1);
      SameWaySteps(e, r, r, budget, n - 1);
      var s := Steps(e, r, n - 1);
      if GoesOn(e, s, budget) && GoAlike(e, s, s) {
        StepUnpruned(e, s, budget);
      } else {
        OverUnpruned(e, s, budget);
      }
    }
  }

  lemma {:induction false} OverUnpruned(e: Env, r: Run, budget: nat)
    requires IsOver(r, budget)
    ensures Step(Unpruned(e), r) == Step(e, r)
  {
    hide WritePc;
  }

  /** The dispatch of the fault, with and without the test, when no class has its state. */
  lemma {:induction false} FirstDispatch(e: Env, o: Origin, w: Run, at: Site)
    requires e.stopOnEquivalence && AtTheHook(e, o, w, at) && AtTheHook(Unpruned(e), o, w, at)
    requires |w.hooks| == 12 && IsCalled(w, at, 10) && w.hooks[10].kind.FaultItAddress?
    requires w.rule.target.Register? && Accepts(w.rule) && Comparable(e.p, w.rule, w.rule)
    requires !Known(w.classes, StateHashes(e.p, FaultedCpu(e.p, w.cpu, w.rule, at.size)))
    ensures GoAlike(e, Dispatch(Unpruned(e), w, at, 10), Dispatch(e, w, at, 10))
    ensures GoAlike(e, Dispatch(e, w, at, 10), Dispatch(e, w, at, 10))
  {
    var f := Unpruned(e);
    FreshHooks(e, o, w, at);
    assert IsTheLine(w);
    hide AtTheHook, Dispatch, FaultAddressHook, FaultRegisterHook, Count, SetupHooks, LaterHooks, FaultedCpu, Accepts,
         HasFaulted, StateHashes, Known, Comparable, GoAlike;
    ReachSecondHook(e, o, w, at);
    ReachSecondHook(f, o, w, at);
    AlikeToTheFault(w, w, at);
    var w1 := Count(FaultAddressHook(w, at));
    FaultIgnoresAddress(e.p, w, at);
    ComparableToo(e.p, w, w1, at);
    SameClasses(w, at);
    StopsIffKnown(e, w1, at);
    FirstOfItsClass(e, w1, at);
    RegisterFires(e, o, w, w1, at);
    RegisterFires(f, o, w, w1, at);
    var x, y := FaultRegisterHook(f, w1, at), FaultRegisterHook(e, w1, at);
    GoAlikeBoth(e, x, y);
    if y.control.Going? {
      LaterAlike(f, x, y, at, 13);
      LaterAlike(f, y, y, at, 13);
      LaterUnpruned(e, y, at, 13);
      GoAlikeBoth(e, Dispatch(f, x, at, 13), Dispatch(f, y, at, 13));
      GoAlikeBoth(e, Dispatch(f, y, at, 13), Dispatch(f, y, at, 13));
    } else {
      EndsThere(f, x, at, 13);
      EndsThere(e, y, at, 13);
    }
  }

  lemma {:induction false} GoAlikeBoth(e: Env, x: Run, y: Run)
    ensures GoAlike(e, x, y) <==> GoAlike(Unpruned(e), x, y)
    ensures GoAlike(e, x, y) ==>
              GoAlike(e, y, y) && x.control == y.control && x.hooks == y.hooks && x.restart == y.restart
    ensures HasFaulted(e, y) <==> HasFaulted(Unpruned(e), y)
  {
    FaultedInBoth(e, y);
    hide HasFaulted;
  }

  lemma {:induction false} ComparableToo(p: Program, w: Run, w1: Run, at: Site)
    requires Comparable(p, w.rule, w.rule) && w1.rule == w.rule.(faultedAddress := at.address)
    ensures Comparable(p, w1.rule, w1.rule)
  {
  }

  lemma {:induction false} SameClasses(w: Run, at: Site)
    ensures Count(FaultAddressHook(w, at)).classes == w.classes
  {
  }

  /** A run that is the first of its class goes on as it would without the test, whatever its lifespan. */
  lemma {:induction false} FirstRunIsWhole(e: Env, o: Origin, trace: seq<Cpu>, rule: FaultRule, lines: seq<Line>,
                                           classes: seq<Class<FaultRule>>, n: nat)
    requires HasItsLine(e, trace, rule, lines) && Accepts(rule) && e.stopOnEquivalence && rule.target.Register?
    requires o.Restored? || !RestoresCheckpoint(e, rule, lines)
    requires var u := FaultDispatch(e, trace, rule, lines);
             !Known(classes, StateHashes(e.p, FaultedCpu(e.p, trace[u], rule, e.p.size(trace[u]))))
    ensures var b := Before(e, o, trace, rule, lines, classes, FaultDispatch(e, trace, rule, lines));
            Alike(Steps(Unpruned(e), Step(Unpruned(e), b), n), Steps(e, Step(e, b), n))
  {
    assert Comparable(e.p, rule, rule);
    hide Before, Step, StateHashes, FaultedCpu, Accepts, IsGolden, IsRecorded, RestoresCheckpoint, Fires, Known,
         Alike, GoAlike, SameWay, Comparable, HasInjected;
    var u, f := FaultDispatch(e, trace, rule, lines), Unpruned(e);
    var b := Before(e, o, trace, rule, lines, classes, u);
    FiresThereOnly(e, trace, rule, lines);
    UnprunedToo(e, o, trace, rule, lines, classes, u);
    FirstStep(e, o, trace, rule, lines, classes, u);
    LineInjects(f, o, trace, rule, lines, classes, u);
    var r, s := Step(f, b), Step(e, b);
    var budget := RestartBudget(o, rule);
    InjectedSameWay(f, o, rule, Pc(e.p, trace[u]), r, s);
    SameWaySteps(f, r, s, budget, n);
    SameWayIsAlike(f, Steps(f, r, n), Steps(f, s, n), budget);
    LineInjects(e, o, trace, rule, lines, classes, u);
    InjectedSameWay(e, o, rule, Pc(e.p, trace[u]), s, s);
    StepsUnpruned(e, s, budget, n);
  }

  lemma {:induction false} FirstStep(e: Env, o: Origin, trace: seq<Cpu>, rule: FaultRule, lines: seq<Line>,
                                     classes: seq<Class<FaultRule>>, u: nat)
    requires IsGolden(e.p, trace) && u < Last(trace) && e.mode.FaultMode? && Fires(e, trace, rule, lines, u)
    requires o.Restored? || !RestoresCheckpoint(e, rule, lines)
    requires Accepts(rule) && e.stopOnEquivalence && Comparable(e.p, rule, rule)
    requires !Known(classes, StateHashes(e.p, FaultedCpu(e.p, trace[u], rule, e.p.size(trace[u]))))
    ensures var b := Before(e, o, trace, rule, lines, classes, u);
            GoAlike(Unpruned(e), Step(Unpruned(e), b), Step(e, b)) && GoAlike(e, Step(e, b), Step(e, b))
  {
    var f := Unpruned(e);
    var at, w := SiteOf(e.p, trace[u]), Within(e, o, trace, rule, lines, classes, u);
    assert rule.target.Register?;
    assert w.classes == classes && w.rule == rule && w.cpu == trace[u];
    SameHooks(e);
    assert Within(f, o, trace, rule, lines, classes, u) == w;
    hide Dispatch, Visit, SetupHooks, AtTheHook, RestoresCheckpoint, Finish, FaultedCpu, Accepts, GoAlike, Alike,
         Fires, Within, StateHashes, Known, Comparable, Before, IsGolden;
    UnprunedToo(e, o, trace, rule, lines, classes, u);
    NotSkipped(e, trace, rule, lines, u);
    ReachWithin(e, o, trace, rule, lines, classes, u);
    ReachWithin(f, o, trace, rule, lines, classes, u);
    AtItsLine(e, o, trace, rule, lines, classes, u);
    AtItsLine(f, o, trace, rule, lines, classes, u);
    TwelveHooks(e, o, w, at);
    OneVisit(e, w, at, 9);
    OneVisit(f, w, at, 9);
    FirstDispatch(e, o, w, at);
    var x, y := Dispatch(f, w, at, 10), Dispatch(e, w, at, 10);
    GoAlikeBoth(e, x, y);
    GoingIsAlike(e, x, y);
    GoingIsAlike(e, y, y);
    GoAlikeFinish(e, x, y);
    GoAlikeFinish(e, y, y);
    SameCallbacks(e, x, at);
    StepOfBefore(e, o, trace, rule, lines, classes, u);
    GoAlikeBoth(e, Finish(e, x), Finish(e, y));
  }

  lemma {:induction false} NotSkipped(e: Env, trace: seq<Cpu>, rule: FaultRule, lines: seq<Line>, u: nat)
    requires u < |trace| && Fires(e, trace, rule, lines, u)
    ensures !SkippedAt(e.p, trace, u)
  {
  }

  lemma {:induction false} TwelveHooks(e: Env, o: Origin, w: Run, at: Site)
    requires AtTheHook(e, o, w, at)
    ensures |w.hooks| == 12 && w.control.Going?
  {
    hide SetupHooks;
  }

  lemma {:induction false} StepOfBefore(e: Env, o: Origin, trace: seq<Cpu>, rule: FaultRule, lines: seq<Line>,
                                        classes: seq<Class<FaultRule>>, u: nat)
    requires u < |trace|
    ensures var b := Before(e, o, trace, rule, lines, classes, u);
            b.phase.Running? && b.cpu == trace[u] &&
            Step(e, b) == Finish(e, Dispatch(e, b, SiteOf(e.p, trace[u]), 0)) &&
            Step(Unpruned(e), b) == Finish(Unpruned(e), Dispatch(Unpruned(e), b, SiteOf(e.p, trace[u]), 0))
  {
    hide Dispatch, Finish, SetupHooks;
  }

  /** The whole of it: a is the first of its class, and b's state has the same class.  What b's run
      would have come to without the test, step by step, is what a's run comes to with it. */
  lemma {:induction false} PruningLosesNothing(e: Env, o: Origin, trace: seq<Cpu>, a: FaultRule, b: FaultRule,
                                               lines: seq<Line>, ca: seq<Class<FaultRule>>, cb: seq<Class<FaultRule>>,
                                               n: nat)
    requires HasItsLine(e, trace, a, lines) && HasItsLine(e, trace, b, lines) && Accepts(a) && Accepts(b)
    requires o.Restored? || (!RestoresCheckpoint(e, a, lines) && !RestoresCheckpoint(e, b, lines))
    requires e.stopOnEquivalence && HashesAreInjective(e.p) && Comparable(e.p, a, b)
    requires var u := FaultDispatch(e, trace, a, lines);
             var key := StateHashes(e.p, FaultedCpu(e.p, trace[u], a, e.p.size(trace[u])));
             !Known(ca, key) && key == StateHashes(e.p, FaultedCpu(e.p, trace[u], b, e.p.size(trace[u])))
    ensures var u := FaultDispatch(e, trace, a, lines);
            Alike(Steps(e, Step(e, Before(e, o, trace, a, lines, ca, u)), n),
                  Steps(Unpruned(e), Step(Unpruned(e), Before(e, o, trace, b, lines, cb, u)), n))
  {
    hide Before, Step, Steps, StateHashes, HashesAreInjective, FaultedCpu, Accepts, HasItsLine, RestoresCheckpoint,
         Known;
    SameClassSameOutcome(e, o, trace, a, b, lines, ca, cb, n);
    FirstRunIsWhole(e, o, trace, a, lines, ca, n);
  }
}

/** A small program in a mapped memory, on which the hypotheses of the theorems are met and from which the
    counterexamples are made. */
module Examples {
  import opened Utils
  import opened Machine
  import opened GoldenRun
  import opened StatsRun
  import opened Snapshots
  import opened ExactlyOnce
  import opened Pruning
  import opened Campaign

  // ----- memory and instructions -----

  const PAGE: nat := 0x1000

  const MAIN := Region(0, PAGE)
  const STACK := Region(PAGE, PAGE)

  /** Both regions hold zeros, but for the byte at address 1. */
  function Memory(b: Byte): map<nat, Byte> {
    map a: nat | a < 2 * PAGE :: ByteAt(a, b)
  }

  function ByteAt(a: nat, b: Byte): Byte {
    if a == 1 then b else 0
  }

  /** Register 0 is the program counter, register 1 is data. */
  function CpuWith(pc: nat, x: nat, b: Byte): Cpu {
    Cpu(map[0 := pc, 1 := x], false, Memory(b))
  }

  function Cpu2(pc: nat, x: nat): Cpu {
    CpuWith(pc, x, 0)
  }

  /** Writing the byte at address 1. */
  lemma {:induction false} WritesByte(pc: nat, x: nat, b: Byte, d: Byte)
    ensures WriteMem(CpuWith(pc, x, b), 1, [d]) == CpuWith(pc, x, d)
    ensures ReadMem(CpuWith(pc, x, b), 1, 1) == [b] && Mapped(CpuWith(pc, x, b), 1, 1)
  {
    var c := CpuWith(pc, x, b);
    assert WriteMem(c, 1, [d]).mem == Memory(d);
  }

  /** An instruction adds its first byte to register 1; none can be fetched where no memory is mapped. */
  function Adds(size: nat, c: Cpu): Exec {
    var pc := ReadReg(c, 0);
    if pc !in c.mem then Trap(c, ErrorTrap)
    else Next(c.(regs := c.regs[0 := pc + size][1 := ReadReg(c, 1) + c.mem[pc]]))
  }

  lemma {:induction false} AddsOn(size: nat, pc: nat, x: nat, b: Byte)
    requires pc < 2 * PAGE
    ensures Adds(size, CpuWith(pc, x, b)) == Next(CpuWith(pc + size, x + if pc == 1 then b as nat else 0, b))
  {
    var c := CpuWith(pc, x, b);
    var y := x + if pc == 1 then b as nat else 0;
    assert c.mem[pc] == (if pc == 1 then b else 0);
    assert c.regs[0 := pc + size][1 := y] == map[0 := pc + size, 1 := y];
  }

  // ----- hashes that read what they hash -----

  function Pair(a: nat, b: nat): (h: nat)
    ensures h > 0
  {
    if a == 0 then 2 * b + 1 else 2 * Pair(a - 1, b)
  }

  lemma {:induction false} PairIsInjective(a: nat, b: nat, c: nat, d: nat)
    requires Pair(a, b) == Pair(c, d)
    ensures a == c && b == d
  {
    if a > 0 && c > 0 {
      PairIsInjective(a - 1, b, c - 1, d);
    }
  }

  ghost function HashRegs(regs: map<nat, nat>): nat
    decreases |regs|
  {
    if regs == map[] then 0
    else
      var k :| k in regs;
      Pair(Pair(k, regs[k]), HashRegs(regs - {k}))
  }

  lemma {:induction false} FirstHashed(regs: map<nat, nat>) returns (k: nat)
    requires regs != map[]
    ensures k in regs && HashRegs(regs) == Pair(Pair(k, regs[k]), HashRegs(regs - {k}))
  {
    hide Pair;
    k :| k in regs && HashRegs(regs) == Pair(Pair(k, regs[k]), HashRegs(regs - {k}));
  }

  lemma {:induction false} NothingHashed(regs: map<nat, nat>)
    ensures HashRegs(regs) == 0 <==> regs == map[]
  {
  }

  lemma {:induction false} RegsAreInjective(r: map<nat, nat>, s: map<nat, nat>)
    requires HashRegs(r) == HashRegs(s)
    ensures r == s
    decreases |r|
  {
    hide Pair, HashRegs;
    NothingHashed(r);
    NothingHashed(s);
    if r != map[] {
      var j := FirstHashed(r);
      var k := FirstHashed(s);
      PairIsInjective(Pair(j, r[j]), HashRegs(r - {j}), Pair(k, s[k]), HashRegs(s - {k}));
      PairIsInjective(j, r[j], k, s[k]);
      RegsAreInjective(r - {j}, s - {k});
      assert r == (r - {j})[j := r[j]] && s == (s - {k})[k := s[k]];
    }
  }

  ghost function HashContext(regs: map<nat, nat>, thumb: bool): nat {
    2 * HashRegs(regs) + if thumb then 1 else 0
  }

  function HashBytes(bytes: Bytes): nat {
    if bytes == [] then 0 else bytes[0] as nat + 1 + 256 * HashBytes(bytes[1..])
  }

  lemma {:induction false} BytesAreInjective(a: Bytes, b: Bytes)
    requires HashBytes(a) == HashBytes(b)
    ensures a == b
  {
    if a != [] && b != [] {
      assert a[0] == b[0] && HashBytes(a[1..]) == HashBytes(b[1..]);
      BytesAreInjective(a[1..], b[1..]);
      assert a == [a[0]] + a[1..] && b == [b[0]] + b[1..];
    }
  }

  // ----- a program that goes straight on -----

  /** One instruction of one byte at each address; line k is at address k, up to the end of the fault
      range. */
  ghost function Straight(faultEnd: nat, end: nat): Program {
    Program(OtherArch, false, 0, 0, end, 1, faultEnd, {}, map[], STACK, MAIN, [], Cpu2(0, 0),
            (c: Cpu) => Adds(1, c), _ => 1, HashContext, HashBytes)
  }

  lemma {:induction false} HashesReadAll(faultEnd: nat, end: nat)
    ensures HashesAreInjective(Straight(faultEnd, end))
  {
    var p := Straight(faultEnd, end);
    forall r1, t1, r2, t2 | p.hashContext(r1, t1) == p.hashContext(r2, t2) ensures r1 == r2 && t1 == t2 {
      assert HashContext(r1, t1) == HashContext(r2, t2);
      RegsAreInjective(r1, r2);
    }
    forall b1, b2 | p.hashBytes(b1) == p.hashBytes(b2) ensures b1 == b2 {
      BytesAreInjective(b1, b2);
    }
  }

  function Walk(end: nat): seq<Cpu> {
    seq(end + 1, i requires 0 <= i => Cpu2(i, 0))
  }

  lemma {:induction false} GoesStraight(faultEnd: nat, end: nat, pc: nat, x: nat)
    requires pc < 2 * PAGE
    ensures Straight(faultEnd, end).exec(Cpu2(pc, x)) == Next(Cpu2(pc + 1, x))
    ensures Pc(Straight(faultEnd, end), Cpu2(pc, x)) == pc
    ensures WritePc(Straight(faultEnd, end), Cpu2(pc, x), pc) == Cpu2(pc, x)
  {
    AddsOn(1, pc, x, 0);
    assert Cpu2(pc, x).regs[0 := pc] == Cpu2(pc, x).regs;
  }

  lemma {:induction false} StraightIsGolden(faultEnd: nat, end: nat)
    requires 1 <= end < PAGE
    ensures IsGolden(Straight(faultEnd, end), Walk(end)) && KeepsMapping(Straight(faultEnd, end))
  {
    var p, trace := Straight(faultEnd, end), Walk(end);
    StraightKeepsMapping(faultEnd, end);
    hide Adds, Memory;
    GoesStraight(faultEnd, end, 0, 0);
    forall t | 0 <= t < |trace| ensures Pc(p, trace[t]) == t {
      GoesStraight(faultEnd, end, t, 0);
    }
    forall t | 0 <= t < |trace| - 1 ensures Advances(p, trace[t], trace[t + 1]) {
      GoesStraight(faultEnd, end, t, 0);
    }
  }

  lemma {:induction false} StraightKeepsMapping(faultEnd: nat, end: nat)
    ensures KeepsMapping(Straight(faultEnd, end))
  {
    var p := Straight(faultEnd, end);
    forall x: nat ensures x in p.image.mem <==> IsMapped(p, x) {
    }
  }

  lemma {:induction false} StraightLines(faultEnd: nat, end: nat, t: nat)
    requires faultEnd >= 2 && t <= end < PAGE
    ensures IsLine(Straight(faultEnd, end), Walk(end), t) <==> 1 <= t < faultEnd
    ensures LinesBefore(Straight(faultEnd, end), Walk(end), t) == if t == 0 then 0 else if t < faultEnd then t - 1
            else faultEnd - 1
  {
    var p, trace := Straight(faultEnd, end), Walk(end);
    GoesStraight(faultEnd, end, t, 0);
    assert !SkippedAt(p, trace, t) && FlagAfter(p, trace, t) == IsLine(p, trace, t);
    if t > 0 {
      StraightLines(faultEnd, end, t - 1);
      assert !SkippedAt(p, trace, t - 1) && FlagBefore(p, trace, t) == IsLine(p, trace, t - 1);
    }
  }

  /** The recorded table, without checkpoints. */
  function StraightTable(total: nat): seq<Line> {
    seq(total + 2, k requires 0 <= k => Line(k, 1, NO_CHECKPOINT, false, None))
  }

  ghost function StraightEnv(faultEnd: nat, end: nat): Env {
    Env(Straight(faultEnd, end), FaultMode, false, false)
  }

  lemma {:induction false} StraightIsRecorded(faultEnd: nat, end: nat)
    requires 2 <= faultEnd && 2 <= end < PAGE
    ensures IsRecorded(StraightEnv(faultEnd, end), Walk(end), StraightTable(end))
  {
    var e, trace, lines := StraightEnv(faultEnd, end), Walk(end), StraightTable(end);
    hide IsLine, LinesBefore, Pc;
    forall t | 0 <= t < Last(trace) && IsLine(e.p, trace, t)
      ensures LineNumber(e.p, trace, t) < |lines|
      ensures lines[LineNumber(e.p, trace, t)].address == ThumbAddress(e.p, Pc(e.p, trace[t]))
    {
      StraightLines(faultEnd, end, t);
      GoesStraight(faultEnd, end, t, 0);
    }
  }

  lemma {:induction false} StraightHasLines(faultEnd: nat, end: nat, rule: FaultRule)
    requires 2 <= faultEnd && 2 <= end < PAGE && rule.isSet && 1 <= rule.instruction < faultEnd
    requires rule.instruction < end
    ensures HasItsLine(StraightEnv(faultEnd, end), Walk(end), rule, StraightTable(end))
    ensures FaultDispatch(StraightEnv(faultEnd, end), Walk(end), rule, StraightTable(end)) == rule.instruction
  {
    hide IsGolden, IsLine, LinesBefore, IsRecorded, Straight, Walk, StraightTable;
    var e, trace := StraightEnv(faultEnd, end), Walk(end);
    assert |Walk(end)| == end + 1 by { WalkLength(end); }
    StraightIsGolden(faultEnd, end);
    StraightIsRecorded(faultEnd, end);
    StraightLines(faultEnd, end, end);
    var u := DispatchOf(e.p, trace, rule.instruction, Last(trace));
    StraightLines(faultEnd, end, u);
  }

  lemma {:induction false} WalkLength(end: nat)
    ensures |Walk(end)| == end + 1
  {
  }

  lemma {:induction false} StraightResumes(faultEnd: nat, end: nat, trace: seq<Cpu>)
    requires forall t :: 0 <= t < |trace| ==> 0 in trace[t].regs
    ensures AllResumable(Straight(faultEnd, end), trace)
  {
    hide IsLine, Resumable;
    forall t | 0 <= t < |trace| ensures Resumable(Straight(faultEnd, end), trace[t]) {
      ResumableIff(Straight(faultEnd, end), trace[t]);
    }
  }

  /** The hypotheses of the campaign's theorems, of the fault's bytes and of the key are met together. */
  lemma {:induction false} HypothesesCanBeMet()
    ensures var p, trace := Straight(9, 3), Walk(3);
            && IsGolden(p, trace) && KeepsMapping(p) && AllResumable(p, trace) && HashesAreInjective(p)
            && TotalLines(p, trace) == 2 && IsLine(p, trace, 1)
            && p.stack.size == p.main.size == PAGE && Mapped(trace[1], Pc(p, trace[1]), p.size(trace[1]))
  {
    hide IsGolden, IsLine, LinesBefore, KeepsMapping, HashesAreInjective, AllResumable, Memory, Adds, Pc;
    var p, trace := Straight(9, 3), Walk(3);
    StraightIsGolden(9, 3);
    HashesReadAll(9, 3);
    StraightResumes(9, 3, trace);
    StraightLines(9, 3, 3);
    StraightLines(9, 3, 1);
    GoesStraight(9, 3, 1, 0);
    WritesByte(1, 0, 0, 0);
  }
}

/** Saving and restoring the emulator at a line. */
module Snapshots {
  import opened Utils
  import opened Machine
  import opened Hooks
  import opened GoldenRun

  predicate InRegion(r: Region, x: nat) {
    r.address <= x < r.address + r.size
  }

  predicate InOthers(p: Program, i: nat, x: nat) {
    exists j :: i <= j < |p.others| && InRegion(p.others[j], x)
  }

  /** The address lies in a region that my_uc_engine_setup maps. */
  predicate IsMapped(p: Program, x: nat) {
    InRegion(p.stack, x) || InRegion(p.main, x) || InOthers(p, 0, x)
  }

  ghost predicate MapsRegions(p: Program, c: Cpu) {
    forall x: nat :: x in c.mem <==> IsMapped(p, x)
  }

  /** The CPU's memory agrees with d wherever d is right so far. */
  ghost predicate Agrees(c: Cpu, d: Cpu, where: iset<nat>) {
    c.mem.Keys == d.mem.Keys && forall x :: x in c.mem && x in where ==> c.mem[x] == d.mem[x]
  }

  lemma {:induction false} WriteAgrees(p: Program, c: Cpu, d: Cpu, region: Region, where: iset<nat>)
    requires Agrees(c, d, where)
    requires forall x :: InRegion(region, x) ==> x in d.mem
    ensures var w := WriteMem(c, region.address, ReadMem(d, region.address, region.size));
            Agrees(w, d, where + iset x: nat | InRegion(region, x)) && w == c.(mem := w.mem)
  {
    assert Mapped(c, region.address, region.size) by {
      forall x | region.address <= x < region.address + region.size ensures x in c.mem {
        assert InRegion(region, x) && x in d.mem.Keys;
      }
    }
  }

  lemma {:induction false} LoadOthersAgrees(p: Program, c: Cpu, d: Cpu, saved: seq<Bytes>, i: nat, where: iset<nat>)
    requires |saved| == |p.others| && i <= |p.others| && Agrees(c, d, where) && MapsRegions(p, d)
    requires forall j :: 0 <= j < |saved| ==> saved[j] == ReadMem(d, p.others[j].address, p.others[j].size)
    ensures var w := LoadOthers(p.others, c, saved, i);
            && w == c.(mem := w.mem)
            && Agrees(w, d, where + iset x: nat | InOthers(p, i, x))
    decreases |saved| - i
  {
    hide ReadMem, WriteMem;
    if i < |p.others| {
      var c1 := WriteMem(c, p.others[i].address, saved[i]);
      WriteAgrees(p, c, d, p.others[i], where);
      LoadOthersAgrees(p, c1, d, saved, i + 1, where + iset x: nat | InRegion(p.others[i], x));
    }
  }

  /** Restoring a snapshot brings back the registers, the Thumb state and every mapped byte. */
  lemma {:induction false} LoadUndoesSave(p: Program, c: Cpu, d: Cpu)
    requires MapsRegions(p, c) && MapsRegions(p, d)
    ensures Load(p, c, Save(p, d)) == d
  {
    hide ReadMem, WriteMem;
    var s := Save(p, d);
    var c1 := c.(regs := s.regs, thumb := s.thumb);
    assert c1.mem.Keys == d.mem.Keys;
    WriteAgrees(p, c1, d, p.stack, iset{});
    var c2 := WriteMem(c1, p.stack.address, s.stack);
    var w2 := iset{} + iset x: nat | InRegion(p.stack, x);
    WriteAgrees(p, c2, d, p.main, w2);
    var c3 := WriteMem(c2, p.main.address, s.main);
    LoadOthersAgrees(p, c3, d, s.others, 0, w2 + iset x: nat | InRegion(p.main, x));
    var l := Load(p, c, s);
    assert forall x :: x in l.mem ==> IsMapped(p, x) && l.mem[x] == d.mem[x];
    assert l.mem == d.mem;
  }

  /** What is not mapped is not saved: two states with the same snapshot have the same mapped bytes. */
  lemma {:induction false} SnapshotDetermines(p: Program, c: Cpu, d: Cpu)
    requires MapsRegions(p, c) && MapsRegions(p, d)
    ensures Save(p, c) == Save(p, d) <==> c == d
  {
    hide Save, Load, MapsRegions;
    LoadUndoesSave(p, c, c);
    LoadUndoesSave(p, c, d);
  }

  /** Executing instructions does not map or unmap memory. */
  ghost predicate KeepsMapping(p: Program) {
    MapsRegions(p, p.image) && forall c: Cpu :: p.exec(c).cpu.mem.Keys == c.mem.Keys
  }

  lemma {:induction false} GoldenKeepsMapping(p: Program, trace: seq<Cpu>, t: nat)
    requires IsGolden(p, trace) && KeepsMapping(p) && t < |trace|
    ensures trace[t].mem.Keys == p.image.mem.Keys
  {
    if t > 0 {
      GoldenKeepsMapping(p, trace, t - 1);
      assert Advances(p, trace[t - 1], trace[t]);
    }
  }

  lemma {:induction false} GoldenMapsRegions(p: Program, trace: seq<Cpu>, t: nat)
    requires IsGolden(p, trace) && KeepsMapping(p) && t < |trace|
    ensures MapsRegions(p, trace[t]) && MapsRegions(p, p.image)
  {
    GoldenKeepsMapping(p, trace, t);
    assert forall x: nat :: x in trace[t].mem <==> x in trace[t].mem.Keys;
    assert forall x: nat :: x in p.image.mem <==> x in p.image.mem.Keys;
  }

  // ----- resuming at a recorded address -----

  /** Starting the emulator at the address recorded for this state leaves the state as it is. */
  predicate Resumable(p: Program, c: Cpu) {
    WritePc(p, c, ThumbAddress(p, Pc(p, c))) == c
  }

  /** Resuming is exact on a core without a Thumb bit, and on a 32-bit ARM core in Thumb state.  The
      address recorded for any other state on an ARM architecture is one too high for it. */
  lemma {:induction false} ResumableIff(p: Program, c: Cpu)
    requires p.pcReg in c.regs && (IsArm(p) ==> Pc(p, c) % 2 == 0)
    ensures Resumable(p, c) <==> p.arch.OtherArch? || (p.arch.Arm32? && c.thumb)
  {
    var a := Pc(p, c);
    var w := WritePc(p, c, ThumbAddress(p, a));
    if IsArm(p) {
      assert (a + 1) % 2 == 1;
      if p.arch.Arm32? {
        assert w.regs == c.regs;
        assert w.thumb;
      } else {
        assert w.regs[p.pcReg] == a + 1;
      }
    } else {
      assert w.regs == c.regs;
    }
  }
}

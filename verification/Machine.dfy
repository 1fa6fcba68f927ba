/** The data model: the emulated CPU, the program under test, and everything one run keeps.

    The emulator itself is an environment.  An instruction is an abstract deterministic step
    (Program.exec); registers, mapped memory and the program counter are concrete. */
module Machine {
  import opened Utils
  import opened Equivalence

  // ----- the CPU -----

  datatype Cpu = Cpu(regs: map<nat, nat>, thumb: bool, mem: map<nat, Byte>)

  datatype Arch = Arm32 | Arm64 | OtherArch

  datatype TrapKind = ErrorTrap | InterruptTrap

  /** What executing one instruction does.  Trap: a memory, invalid-instruction or interrupt hook
      reported it and stopped the emulator.  Leave: the emulator reached its own until address. */
  datatype Exec = Next(cpu: Cpu) | Trap(cpu: Cpu, why: TrapKind) | Leave(cpu: Cpu)

  datatype Region = Region(address: nat, size: nat)

  /** binary_file_details, the emulator, and the hash function. */
  datatype Program = Program(
    arch: Arch, thumbMode: bool, pcReg: nat,
    codeStart: nat, codeEnd: nat, faultStart: nat, faultEnd: nat,
    hardStops: set<nat>, skips: map<nat, nat>,
    stack: Region, main: Region, others: seq<Region>,
    image: Cpu,                        // what my_uc_engine_setup leaves
    exec: Cpu -> Exec, size: Cpu -> nat,
    hashContext: (map<nat, nat>, bool) -> nat, hashBytes: Bytes -> nat)

  predicate IsArm(p: Program) {
    p.arch.Arm32? || p.arch.Arm64?
  }

  function ThumbCheck(p: Program, a: nat): nat {
    if !IsArm(p) then a else if a % 2 == 1 then a - 1 else a
  }

  /** The address the tool resumes at: the Thumb bit is set on every ARM architecture. */
  function ThumbAddress(p: Program, a: nat): nat {
    if IsArm(p) then a + 1 else a
  }

  function ReadReg(c: Cpu, reg: nat): nat {
    if reg in c.regs then c.regs[reg] else 0
  }

  function Pc(p: Program, c: Cpu): nat {
    ReadReg(c, p.pcReg)
  }

  /** A 32-bit ARM core takes its Thumb state from the low bit of a written PC. */
  function WritePc(p: Program, c: Cpu, v: nat): Cpu {
    if p.arch.Arm32? then c.(regs := c.regs[p.pcReg := v - v % 2], thumb := v % 2 == 1)
    else c.(regs := c.regs[p.pcReg := v])
  }

  function ReadMem(c: Cpu, a: nat, n: nat): (bytes: Bytes)
    ensures |bytes| == n
  {
    seq(n, i requires 0 <= i < n => if a + i in c.mem then c.mem[a + i] else 0)
  }

  predicate Mapped(c: Cpu, a: nat, n: nat) {
    forall x :: a <= x < a + n ==> x in c.mem
  }

  /** A write that touches unmapped memory fails and changes nothing. */
  function WriteMem(c: Cpu, a: nat, bytes: Bytes): Cpu {
    if Mapped(c, a, |bytes|)
    then c.(mem := map x | x in c.mem :: if a <= x < a + |bytes| then bytes[x - a] else c.mem[x])
    else c
  }

  // ----- lines, snapshots and rules -----

  const NO_CHECKPOINT: nat := 0xFFFF_DEAD

  /** The context and the memory regions save_checkpoint keeps. */
  datatype Snapshot = Snapshot(regs: map<nat, nat>, thumb: bool, stack: Bytes, main: Bytes, others: seq<Bytes>)

  /** line_details_t; the opcode and register columns are in module Enumeration. */
  datatype Line = Line(address: nat, size: nat, nearest: nat, checkpoint: bool, snapshot: Option<Snapshot>)

  const BLANK_LINE := Line(0, 0, NO_CHECKPOINT, false, None)

  datatype RunState =
    | NoneRs | StartedRs | StartedFromCheckpoint | Faulted | EquivalentRs | TimedOut | Errored
    | Interrupted | HardStopped | EndAddress | EndAddressAndFaulted | MaxInstructionsReached | InstructionError

  datatype Target = Register | InstructionPointer | Instruction

  datatype LifespanMode = NoMode | Repeat | Revert

  datatype Lifespan = Lifespan(mode: LifespanMode, count: nat, live: nat, originalValue: nat, originalBytes: Bytes)

  datatype FaultRule = FaultRule(
    instruction: nat, target: Target, force: bool, number: nat, filter: Option<string>,
    operation: Operation, mask: nat, isSet: bool, faultedAddress: nat, lifespan: Lifespan)

  // ----- hooks -----

  datatype HookKind =
    | OnInterrupt | OnMemoryInvalid | OnInstructionInvalid
    | OnEndAddress | OnStartAddress | OnSkip | OnStartFaults | OnStopFaults | OnHardStop
    | Placebo | Stats
    | CountInstructions
    | FaultItAddress | FaultItRegister | FaultItInstruction | FaultItIP
    | RevertRegister | RepeatRegister | RevertInstruction | RepeatInstruction | RepeatIP
    | Equivalent

  /** The addresses a code hook is called for. */
  datatype Where = Everywhere | Nowhere | At(addresses: set<nat>)

  predicate Covers(w: Where, a: nat) {
    w.Everywhere? || (w.At? && a in w.addresses)
  }

  /** A registered hook and how many times it was deleted; it is called while that is zero. */
  datatype Hook = Hook(kind: HookKind, where: Where, deletions: nat)

  /** The uc_hook fields of current_run_state: a position in the registration order plus one, or 0. */
  datatype Handles = Handles(
    interrupt: nat, memoryInvalid: nat, instructionInvalid: nat,
    endAddress: nat, startAddress: nat, skips: nat, startFaults: nat, stopFaults: nat, hardStops: nat,
    caller: nat,          // the hook added by the caller of my_uc_engine_start
    countInstructions: nat, faultAddress: nat, faultIt: nat, lifespan: nat, equivalent: nat)

  function HandleOf(hk: Handles, kind: HookKind): nat {
    match kind
    case OnInterrupt => hk.interrupt
    case OnMemoryInvalid => hk.memoryInvalid
    case OnInstructionInvalid => hk.instructionInvalid
    case OnEndAddress => hk.endAddress
    case OnStartAddress => hk.startAddress
    case OnSkip => hk.skips
    case OnStartFaults => hk.startFaults
    case OnStopFaults => hk.stopFaults
    case OnHardStop => hk.hardStops
    case Placebo => hk.caller
    case Stats => hk.caller
    case CountInstructions => hk.countInstructions
    case FaultItAddress => hk.faultAddress
    case FaultItRegister => hk.faultIt
    case FaultItInstruction => hk.faultIt
    case FaultItIP => hk.faultIt
    case RevertRegister => hk.lifespan
    case RepeatRegister => hk.lifespan
    case RevertInstruction => hk.lifespan
    case RepeatInstruction => hk.lifespan
    case RepeatIP => hk.lifespan
    case Equivalent => hk.equivalent
  }

  // ----- a run -----

  /** How the current dispatch goes on.  PcWritten: a hook wrote the program counter, so the
      dispatch ends and execution goes on there.  Aborted: the tool ended the process. */
  datatype Control = Going | StopRequested | PcWritten | Skipped | Aborted

  /** Stopped: the emulator returned to my_uc_engine_start.  Ended: that returned too. */
  datatype Phase = Running | Stopped | Ended

  datatype Firing = Firing(line: nat, address: nat)

  datatype ToolWrite = ToolWrite(passed: nat, address: nat, bytes: Bytes)

  /** History of a run, for stating properties; nothing the tool does depends on it.
      passed: in-range instructions the run has gone past, executed or jumped over by a fault.
      drift: by how much the count has been led astray.  restarts: turns of the restart loop.
      fired: the primary faults.  writes: what the tool itself wrote to the program's memory. */
  datatype Trail = Trail(passed: nat, drift: int, restarts: nat, fired: seq<Firing>, writes: seq<ToolWrite>)

  datatype Run = Run(
    cpu: Cpu, hooks: seq<Hook>, hk: Handles,
    count: nat, inRange: bool, state: RunState,
    restart: bool, restartAddress: nat,
    rule: FaultRule, lines: seq<Line>, classes: seq<Class<FaultRule>>,
    control: Control, phase: Phase, trail: Trail)

  datatype Mode = CountMode | StatsMode | FaultMode

  /** What stays fixed during a run. */
  datatype Env = Env(p: Program, mode: Mode, fromCheckpoint: bool, stopOnEquivalence: bool)
}

/** Expanding a fault tree into runs for one line, and counting them in advance. */
module Enumeration {
  import opened Utils
  import opened Machine

  datatype OperationFault = OperationFault(operation: Operation, masks: seq<nat>)
  datatype LifespanFault = LifespanFault(lifespan: Lifespan, operations: seq<OperationFault>)
  datatype FilterFault = FilterFault(filter: Option<string>, lifespans: seq<LifespanFault>)
  datatype TargetFault = TargetFault(target: Target, force: bool, registers: set<nat>, filters: seq<FilterFault>)
  datatype RangeFault = RangeFault(start: nat, end: nat, targets: seq<TargetFault>)

  const MAX_REGISTERS := 128

  /** What the stats run keeps of a line's disassembly. */
  datatype Opcode = Opcode(mnemonic: string, registersUsed: set<nat>)

  /** One run: what run_the_actual_fault puts into fault_rule before get_on_with_it. */
  datatype Launch = Launch(instruction: nat, target: Target, number: nat, filter: Option<string>, lifespan: Lifespan,
                           operation: Operation, mask: nat)

  // ----- what is launched -----

  predicate OccursAt(s: string, t: string, i: nat) {
    i + |t| <= |s| && s[i..i + |t|] == t
  }

  /** strstr */
  predicate Contains(s: string, t: string) {
    exists i: nat :: i <= |s| && OccursAt(s, t, i)
  }

  predicate Matches(filter: Option<string>, op: Opcode) {
    filter.None? || Contains(op.mnemonic, filter.value)
  }

  function OfMasks(l: Launch, masks: seq<nat>): (launches: seq<Launch>)
    ensures |launches| == |masks|
  {
    seq(|masks|, i requires 0 <= i < |masks| => l.(mask := masks[i]))
  }

  /** A skip ignores the masks: it is launched once. */
  function OfOperations(l: Launch, operations: seq<OperationFault>): seq<Launch> {
    if operations == [] then []
    else
      var o := operations[|operations| - 1];
      OfOperations(l, operations[..|operations| - 1])
      + if l.target.InstructionPointer? then [l.(operation := o.operation)]
        else OfMasks(l.(operation := o.operation), o.masks)
  }

  function OfLifespans(l: Launch, lifespans: seq<LifespanFault>): seq<Launch> {
    if lifespans == [] then []
    else
      var s := lifespans[|lifespans| - 1];
      OfLifespans(l, lifespans[..|lifespans| - 1]) + OfOperations(l.(lifespan := s.lifespan), s.operations)
  }

  function OfFilter(l: Launch, f: FilterFault, op: Opcode): seq<Launch> {
    if Matches(f.filter, op) then OfLifespans(l.(filter := f.filter), f.lifespans) else []
  }

  function OfFilters(l: Launch, filters: seq<FilterFault>, op: Opcode): seq<Launch> {
    if filters == [] then []
    else OfFilters(l, filters[..|filters| - 1], op) + OfFilter(l, filters[|filters| - 1], op)
  }

  predicate IsFaulted(t: TargetFault, reg: nat, op: Opcode) {
    reg in t.registers && (t.force || reg in op.registersUsed)
  }

  /** The launches for the registers below n. */
  function OfRegisters(l: Launch, t: TargetFault, op: Opcode, n: nat): seq<Launch> {
    if n == 0 then []
    else OfRegisters(l, t, op, n - 1) + if IsFaulted(t, n - 1, op) then OfFilters(l.(number := n - 1), t.filters, op)
      else []
  }

  /** For an instruction target only the first opcode filter is looked at. */
  function OfTarget(l: Launch, t: TargetFault, op: Opcode): seq<Launch> {
    var l1 := l.(target := t.target);
    match t.target
    case Register => OfRegisters(l1, t, op, MAX_REGISTERS)
    case InstructionPointer => OfFilters(l1, t.filters, op)
    case Instruction => if t.filters == [] then [] else OfFilter(l1, t.filters[0], op)
  }

  function OfTargets(l: Launch, targets: seq<TargetFault>, op: Opcode): seq<Launch> {
    if targets == [] then [] else OfTargets(l, targets[..|targets| - 1], op) + OfTarget(l, targets[|targets| - 1], op)
  }

  const NO_LIFESPAN := Lifespan(NoMode, 0, 0, 0, [])

  function Blank(instruction: nat): Launch {
    Launch(instruction, Register, 0, None, NO_LIFESPAN, NotSet, 0)
  }

  /** The runs for one work item, in order. */
  function Launches(instruction: nat, r: RangeFault, op: Opcode): seq<Launch> {
    OfTargets(Blank(instruction), r.targets, op)
  }

  // ----- what is counted -----

  function CountOperations(operations: seq<OperationFault>): nat {
    if operations == [] then 0
    else
      var o := operations[|operations| - 1];
      CountOperations(operations[..|operations| - 1]) + if |o.masks| == 0 then 1 else |o.masks|
  }

  function CountLifespans(lifespans: seq<LifespanFault>): nat {
    if lifespans == [] then 0
    else CountLifespans(lifespans[..|lifespans| - 1]) + CountOperations(lifespans[|lifespans| - 1].operations)
  }

  function CountFilters(filters: seq<FilterFault>): nat {
    if filters == [] then 0
    else CountFilters(filters[..|filters| - 1]) + CountLifespans(filters[|filters| - 1].lifespans)
  }

  function CountRegisters(registers: set<nat>, n: nat): nat {
    if n == 0 then 0 else CountRegisters(registers, n - 1) + if n - 1 in registers then 1 else 0
  }

  function TargetsOf(t: TargetFault): nat {
    if t.target.Register? then CountRegisters(t.registers, MAX_REGISTERS) else 1
  }

  function CountTargets(targets: seq<TargetFault>): nat {
    if targets == [] then 0
    else
      var t := targets[|targets| - 1];
      CountTargets(targets[..|targets| - 1]) + TargetsOf(t) * CountFilters(t.filters)
  }

  // ----- the bound -----

  lemma {:induction false} OperationsBound(l: Launch, operations: seq<OperationFault>)
    ensures |OfOperations(l, operations)| <= CountOperations(operations)
    ensures |OfOperations(l, operations)| == CountOperations(operations) <==> AllLaunched(l.target, operations)
  {
    if operations != [] {
      OperationsBound(l, operations[..|operations| - 1]);
    }
  }

  /** Every operation is launched as often as it is counted. */
  predicate AllLaunched(t: Target, operations: seq<OperationFault>) {
    operations == [] ||
    (AllLaunched(t, operations[..|operations| - 1]) &&
     var o := operations[|operations| - 1];
     if t.InstructionPointer? then |o.masks| <= 1 else |o.masks| >= 1)
  }

  predicate AllLifespans(t: Target, lifespans: seq<LifespanFault>) {
    lifespans == [] ||
    (AllLifespans(t, lifespans[..|lifespans| - 1]) && AllLaunched(t, lifespans[|lifespans| - 1].operations))
  }

  lemma {:induction false} LifespansBound(l: Launch, lifespans: seq<LifespanFault>)
    ensures |OfLifespans(l, lifespans)| <= CountLifespans(lifespans)
    ensures |OfLifespans(l, lifespans)| == CountLifespans(lifespans) <==> AllLifespans(l.target, lifespans)
  {
    if lifespans != [] {
      var s := lifespans[|lifespans| - 1];
      LifespansBound(l, lifespans[..|lifespans| - 1]);
      OperationsBound(l.(lifespan := s.lifespan), s.operations);
    }
  }

  /** The filter lets the line through with everything counted for it, or nothing is counted. */
  predicate FilterPasses(t: Target, f: FilterFault, op: Opcode) {
    if Matches(f.filter, op) then AllLifespans(t, f.lifespans) else CountLifespans(f.lifespans) == 0
  }

  predicate AllFilters(t: Target, filters: seq<FilterFault>, op: Opcode) {
    forall i :: 0 <= i < |filters| ==> FilterPasses(t, filters[i], op)
  }

  lemma {:induction false} FilterBound(l: Launch, f: FilterFault, op: Opcode)
    ensures |OfFilter(l, f, op)| <= CountLifespans(f.lifespans)
    ensures |OfFilter(l, f, op)| == CountLifespans(f.lifespans) <==> FilterPasses(l.target, f, op)
  {
    LifespansBound(l.(filter := f.filter), f.lifespans);
  }

  lemma {:induction false} FiltersBound(l: Launch, filters: seq<FilterFault>, op: Opcode)
    ensures |OfFilters(l, filters, op)| <= CountFilters(filters)
    ensures |OfFilters(l, filters, op)| == CountFilters(filters) <==> AllFilters(l.target, filters, op)
  {
    if filters != [] {
      var rest, f := filters[..|filters| - 1], filters[|filters| - 1];
      FiltersBound(l, rest, op);
      FilterBound(l, f, op);
      assert forall i :: 0 <= i < |rest| ==> rest[i] == filters[i];
      assert AllFilters(l.target, filters, op) <==> AllFilters(l.target, rest, op) && FilterPasses(l.target, f, op);
    }
  }

  predicate AllRegisters(t: TargetFault, op: Opcode, n: nat) {
    forall reg :: 0 <= reg < n && reg in t.registers ==> IsFaulted(t, reg, op)
  }

  lemma {:induction false} RegistersBound(l: Launch, t: TargetFault, op: Opcode, n: nat)
    ensures |OfRegisters(l, t, op, n)| <= CountRegisters(t.registers, n) * CountFilters(t.filters)
    ensures |OfRegisters(l, t, op, n)| == CountRegisters(t.registers, n) * CountFilters(t.filters) <==>
              CountRegisters(t.registers, n) * CountFilters(t.filters) == 0
              || (AllRegisters(t, op, n) && AllFilters(l.target, t.filters, op))
  {
    if n > 0 {
      hide OfRegisters, OfFilters, CountFilters, AllRegisters, AllFilters, IsFaulted, CountRegisters;
      RegistersBound(l, t, op, n - 1);
      FiltersBound(l.(number := n - 1), t.filters, op);
      SplitRegisters(t, op, n);
      SplitLaunches(l, t, op, n);
      OneMore(CountRegisters(t.registers, n - 1), CountFilters(t.filters));
    } else {
      NoRegisters(l, t, op);
    }
  }

  lemma {:induction false} SplitRegisters(t: TargetFault, op: Opcode, n: nat)
    requires n > 0
    ensures AllRegisters(t, op, n) <==> AllRegisters(t, op, n - 1) && (n - 1 in t.registers ==> IsFaulted(t, n - 1, op))
    ensures CountRegisters(t.registers, n) == CountRegisters(t.registers, n - 1) + if n - 1 in t.registers then 1 else 0
    ensures IsFaulted(t, n - 1, op) ==> n - 1 in t.registers
    ensures CountRegisters(t.registers, n - 1) == 0 ==> AllRegisters(t, op, n - 1)
  {
    if CountRegisters(t.registers, n - 1) == 0 {
      NoneSeen(t.registers, n - 1);
    }
  }

  lemma {:induction false} SplitLaunches(l: Launch, t: TargetFault, op: Opcode, n: nat)
    requires n > 0
    ensures |OfRegisters(l, t, op, n)| == |OfRegisters(l, t, op, n - 1)|
              + if IsFaulted(t, n - 1, op) then |OfFilters(l.(number := n - 1), t.filters, op)| else 0
  {
    hide IsFaulted, OfFilters;
  }

  lemma {:induction false} NoRegisters(l: Launch, t: TargetFault, op: Opcode)
    ensures OfRegisters(l, t, op, 0) == [] && CountRegisters(t.registers, 0) == 0 && AllRegisters(t, op, 0)
  {
  }

  lemma {:induction false} OneMore(k: nat, c: nat)
    ensures (k + 1) * c == k * c + c
    ensures k * c == 0 <==> k == 0 || c == 0
  {
  }

  lemma {:induction false} NoneSeen(registers: set<nat>, n: nat)
    requires CountRegisters(registers, n) == 0
    ensures forall reg :: 0 <= reg < n ==> reg !in registers
  {
    if n > 0 {
      NoneSeen(registers, n - 1);
    }
  }

  /** When every run counted for the target is launched. */
  predicate IsFull(t: TargetFault, op: Opcode) {
    TargetsOf(t) * CountFilters(t.filters) == 0 ||
    match t.target
    case Register => AllRegisters(t, op, MAX_REGISTERS) && AllFilters(t.target, t.filters, op)
    case InstructionPointer => AllFilters(t.target, t.filters, op)
    case Instruction => t.filters != [] && FilterPasses(t.target, t.filters[0], op) && CountFilters(t.filters[1..]) == 0
  }

  lemma {:induction false} FirstFilter(filters: seq<FilterFault>)
    requires filters != []
    ensures CountFilters(filters) == CountLifespans(filters[0].lifespans) + CountFilters(filters[1..])
  {
    if |filters| > 1 {
      var rest := filters[..|filters| - 1];
      FirstFilter(rest);
      assert filters[1..][..|filters| - 2] == rest[1..];
    } else {
      assert filters[..0] == [] && filters[1..] == [];
    }
  }

  lemma {:induction false} TargetBound(l: Launch, t: TargetFault, op: Opcode)
    ensures |OfTarget(l, t, op)| <= TargetsOf(t) * CountFilters(t.filters)
    ensures |OfTarget(l, t, op)| == TargetsOf(t) * CountFilters(t.filters) <==> IsFull(t, op)
  {
    hide OfRegisters, OfFilters, OfFilter, CountRegisters, CountFilters, AllRegisters, AllFilters, FilterPasses;
    var l1 := l.(target := t.target);
    match t.target
    case Register => RegistersBound(l1, t, op, MAX_REGISTERS);
    case InstructionPointer => FiltersBound(l1, t.filters, op);
    case Instruction =>
      if t.filters == [] {
      } else {
        FilterBound(l1, t.filters[0], op);
        FirstFilter(t.filters);
      }
  }

  lemma {:induction false} TargetsBound(l: Launch, targets: seq<TargetFault>, op: Opcode)
    ensures |OfTargets(l, targets, op)| <= CountTargets(targets)
    ensures |OfTargets(l, targets, op)| == CountTargets(targets) <==> forall i :: 0 <= i < |targets| ==>
              IsFull(targets[i], op)
  {
    hide OfTarget, IsFull, TargetsOf, CountFilters;
    if targets != [] {
      var rest, t := targets[..|targets| - 1], targets[|targets| - 1];
      TargetsBound(l, rest, op);
      TargetBound(l, t, op);
      assert forall i :: 0 <= i < |rest| ==> rest[i] == targets[i];
    }
  }

  /** The runs launched for a line never outnumber the count made in advance, and there are as many
      exactly when every target is full for this line. */
  lemma {:induction false} LaunchesAreBounded(instruction: nat, r: RangeFault, op: Opcode)
    ensures |Launches(instruction, r, op)| <= CountTargets(r.targets)
    ensures |Launches(instruction, r, op)| == CountTargets(r.targets) <==>
              forall i :: 0 <= i < |r.targets| ==> IsFull(r.targets[i], op)
  {
    hide OfTargets, CountTargets, IsFull;
    TargetsBound(Blank(instruction), r.targets, op);
  }

  // ----- the loops -----

  lemma {:induction false} Prefix<T>(s: seq<T>, i: nat)
    requires i < |s|
    ensures s[..i + 1] != [] && s[..i + 1][|s[..i + 1]| - 1] == s[i] && s[..i + 1][..|s[..i + 1]| - 1] == s[..i]
  {
  }

  method LaunchMasks(rule: Launch, masks: seq<nat>, before: seq<Launch>) returns (log: seq<Launch>)
    ensures log == before + OfMasks(rule, masks)
  {
    log := before;
    var i := 0;
    while i < |masks|
      invariant i <= |masks| && log == before + OfMasks(rule, masks)[..i]
    {
      log := log + [rule.(mask := masks[i])];
      i := i + 1;
    }
    assert OfMasks(rule, masks)[..i] == OfMasks(rule, masks);
  }

  method LaunchOperations(rule: Launch, operations: seq<OperationFault>, before: seq<Launch>) returns (log: seq<Launch>)
    ensures log == before + OfOperations(rule, operations)
  {
    log := before;
    var i := 0;
    while i < |operations|
      invariant i <= |operations| && log == before + OfOperations(rule, operations[..i])
    {
      Prefix(operations, i);
      if rule.target.InstructionPointer? {
        log := log + [rule.(operation := operations[i].operation)];
      } else {
        log := LaunchMasks(rule.(operation := operations[i].operation), operations[i].masks, log);
      }
      i := i + 1;
    }
    assert operations[..i] == operations;
  }

  lemma {:induction false} LifespansMore(r: Launch, lifespans: seq<LifespanFault>, i: nat)
    requires i < |lifespans|
    ensures OfLifespans(r, lifespans[..i + 1])
         == OfLifespans(r, lifespans[..i]) + OfOperations(r.(lifespan := lifespans[i].lifespan),
                                                          lifespans[i].operations)
  {
    hide OfOperations;
    Prefix(lifespans, i);
  }

  method LaunchFilter(rule: Launch, f: FilterFault, op: Opcode, before: seq<Launch>) returns (log: seq<Launch>)
    ensures log == before + OfFilter(rule, f, op)
  {
    log := before;
    if Matches(f.filter, op) {
      var r := rule.(filter := f.filter);
      assert f.lifespans[..0] == [] && OfLifespans(r, []) == [];
      hide Matches, OfLifespans, OfOperations;
      var i := 0;
      while i < |f.lifespans|
        invariant i <= |f.lifespans| && log == before + OfLifespans(r, f.lifespans[..i])
      {
        LifespansMore(r, f.lifespans, i);
        log := LaunchOperations(r.(lifespan := f.lifespans[i].lifespan), f.lifespans[i].operations, log);
        i := i + 1;
      }
      assert f.lifespans[..i] == f.lifespans;
    }
  }

  method LaunchFilters(rule: Launch, filters: seq<FilterFault>, op: Opcode, before: seq<Launch>)
    returns (log: seq<Launch>)
    ensures log == before + OfFilters(rule, filters, op)
  {
    log := before;
    var i := 0;
    while i < |filters|
      invariant i <= |filters| && log == before + OfFilters(rule, filters[..i], op)
    {
      Prefix(filters, i);
      log := LaunchFilter(rule, filters[i], op, log);
      i := i + 1;
    }
    assert filters[..i] == filters;
  }

  method LaunchRegisters(rule: Launch, t: TargetFault, op: Opcode, count: nat, before: seq<Launch>)
    returns (log: seq<Launch>)
    ensures log == before + OfRegisters(rule, t, op, count)
  {
    log := before;
    var reg := 0;
    while reg < count
      invariant reg <= count && log == before + OfRegisters(rule, t, op, reg)
    {
      if IsFaulted(t, reg, op) {
        log := LaunchFilters(rule.(number := reg), t.filters, op, log);
      }
      reg := reg + 1;
    }
  }

  /** run_the_actual_fault: the loop over the targets.  In the loop over an instruction target's
      filters the break comes after the first one, whether it matched or not. */
  method RunTheActualFault(instruction: nat, range: RangeFault, op: Opcode) returns (log: seq<Launch>)
    ensures log == Launches(instruction, range, op)
    ensures |log| <= CountTargets(range.targets)
  {
    LaunchesAreBounded(instruction, range, op);
    hide OfRegisters, OfFilters, OfFilter, CountTargets, IsFull;
    log := [];
    var i := 0;
    while i < |range.targets|
      invariant i <= |range.targets| && log == OfTargets(Blank(instruction), range.targets[..i], op)
    {
      Prefix(range.targets, i);
      var t := range.targets[i];
      var rule := Blank(instruction).(target := t.target);
      match t.target {
        case InstructionPointer => log := LaunchFilters(rule, t.filters, op, log);
        case Register => log := LaunchRegisters(rule, t, op, MAX_REGISTERS, log);
        case Instruction =>
          if t.filters != [] {
            log := LaunchFilter(rule, t.filters[0], op, log);
          }
      }
      i := i + 1;
    }
    assert range.targets[..i] == range.targets;
  }

  /** count_faults_for_instruction_range */
  method CountFaults(range: RangeFault) returns (total: nat)
    ensures total == CountTargets(range.targets)
  {
    total := 0;
    var i := 0;
    while i < |range.targets|
      invariant i <= |range.targets| && total == CountTargets(range.targets[..i])
    {
      var t := range.targets[i];
      var targets := 0;
      if t.target.Register? {
        var reg := 0;
        while reg < MAX_REGISTERS
          invariant reg <= MAX_REGISTERS && targets == CountRegisters(t.registers, reg)
        {
          if reg in t.registers {
            targets := targets + 1;
          }
          reg := reg + 1;
        }
      } else {
        targets := targets + 1;
      }
      var of := CountFilterLoop(t.filters, targets);
      Prefix(range.targets, i);
      total := total + of;
      i := i + 1;
    }
    assert range.targets[..i] == range.targets;
  }

  method CountFilterLoop(filters: seq<FilterFault>, targets: nat) returns (total: nat)
    ensures total == targets * CountFilters(filters)
  {
    total := 0;
    var i := 0;
    while i < |filters|
      invariant i <= |filters| && total == targets * CountFilters(filters[..i])
    {
      Prefix(filters, i);
      Spread(targets, CountFilters(filters[..i]), CountLifespans(filters[i].lifespans));
      var of := CountLifespanLoop(filters[i].lifespans, targets);
      total := total + of;
      i := i + 1;
    }
    assert filters[..i] == filters;
  }

  method CountLifespanLoop(lifespans: seq<LifespanFault>, targets: nat) returns (total: nat)
    ensures total == targets * CountLifespans(lifespans)
  {
    total := 0;
    var i := 0;
    while i < |lifespans|
      invariant i <= |lifespans| && total == targets * CountLifespans(lifespans[..i])
    {
      Prefix(lifespans, i);
      Spread(targets, CountLifespans(lifespans[..i]), CountOperations(lifespans[i].operations));
      var of := CountOperationLoop(lifespans[i].operations, targets);
      total := total + of;
      i := i + 1;
    }
    assert lifespans[..i] == lifespans;
  }

  /** An operation adds a run for each of its masks, or one if it has none, for each target. */
  method CountOperationLoop(operations: seq<OperationFault>, targets: nat) returns (total: nat)
    ensures total == targets * CountOperations(operations)
  {
    total := 0;
    var i := 0;
    while i < |operations|
      invariant i <= |operations| && total == targets * CountOperations(operations[..i])
    {
      var masks := |operations[i].masks|;
      Prefix(operations, i);
      Spread(targets, CountOperations(operations[..i]), if masks == 0 then 1 else masks);
      if masks == 0 {
        total := total + targets;
      } else {
        total := total + masks * targets;
      }
      i := i + 1;
    }
    assert operations[..i] == operations;
  }

  lemma {:induction false} Spread(k: nat, a: nat, b: nat)
    ensures k * (a + b) == k * a + k * b == k * a + b * k
  {
  }
}

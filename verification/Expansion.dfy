/** Which runs a work item is expanded into: one for each place in the tree of the faults, in nested order. */
module Expansion {
  import opened Utils
  import opened Machine
  import opened Enumeration
  import opened Work
  import Results

  /** A place in the tree: a target, one of its registers (0 if it has none), a filter, a lifespan, an
      operation and a mask. */
  datatype Position = Position(target: nat, register: nat, filter: nat, lifespan: nat, operation: nat, mask: nat)

  /** The order of the nested loops. */
  predicate Precedes(p: Position, q: Position) {
    p.target < q.target || (p.target == q.target &&
    (p.register < q.register || (p.register == q.register &&
    (p.filter < q.filter || (p.filter == q.filter &&
    (p.lifespan < q.lifespan || (p.lifespan == q.lifespan &&
    (p.operation < q.operation || (p.operation == q.operation && p.mask < q.mask)))))))))
  }

  predicate InOrder(ps: seq<Position>) {
    forall i, j :: 0 <= i < j < |ps| ==> Precedes(ps[i], ps[j])
  }

  /** The filter is absent, or a part of the mnemonic. */
  ghost predicate LetsThrough(filter: Option<string>, mnemonic: string) {
    filter.None? || exists i: nat :: OccursAt(mnemonic, filter.value, i)
  }

  /** A place a run is made for: a register target's register is set in the rule, and is forced or used by
      the line's instruction; the filter lets the instruction through, and is the first one if the target is
      the instruction; a skip ignores the masks. */
  ghost predicate IsPosition(r: RangeFault, op: Opcode, p: Position) {
    p.target < |r.targets| &&
    var t := r.targets[p.target];
    && (match t.target
        case Register => p.register < 128 && p.register in t.registers && (t.force || p.register in op.registersUsed)
        case InstructionPointer => p.register == 0
        case Instruction => p.register == 0 && p.filter == 0)
    && p.filter < |t.filters| && LetsThrough(t.filters[p.filter].filter, op.mnemonic)
    && p.lifespan < |t.filters[p.filter].lifespans|
    && var operations := t.filters[p.filter].lifespans[p.lifespan].operations;
       p.operation < |operations|
       && if t.target.InstructionPointer? then p.mask == 0 else p.mask < |operations[p.operation].masks|
  }

  /** The run for a place. */
  ghost function LaunchAt(instruction: nat, r: RangeFault, op: Opcode, p: Position): Launch
    requires IsPosition(r, op, p)
  {
    var t := r.targets[p.target];
    var s := t.filters[p.filter].lifespans[p.lifespan];
    var o := s.operations[p.operation];
    Launch(instruction, t.target, p.register, t.filters[p.filter].filter, s.lifespan, o.operation,
           if t.target.InstructionPointer? then 0 else o.masks[p.mask])
  }

  lemma {:induction false} Joins(a: seq<Position>, b: seq<Position>)
    requires InOrder(a) && InOrder(b) && forall p, q :: p in a && q in b ==> Precedes(p, q)
    ensures InOrder(a + b)
  {
    var c := a + b;
    forall i, j | 0 <= i < j < |c| ensures Precedes(c[i], c[j]) {
      assert i < |a| ==> c[i] in a;
      assert j >= |a| ==> c[j] in b;
    }
  }

  // ----- level by level -----

  predicate OperationAt(ip: bool, operations: seq<OperationFault>, p: Position) {
    p.operation < |operations| && if ip then p.mask == 0 else p.mask < |operations[p.operation].masks|
  }

  function WithOperation(l: Launch, operations: seq<OperationFault>, p: Position): Launch
    requires OperationAt(l.target.InstructionPointer?, operations, p)
  {
    var o := operations[p.operation];
    l.(operation := o.operation, mask := if l.target.InstructionPointer? then l.mask else o.masks[p.mask])
  }

  lemma {:induction false} OperationsAre(l: Launch, operations: seq<OperationFault>, base: Position)
    returns (ps: seq<Position>)
    ensures InOrder(ps) && |ps| == |OfOperations(l, operations)|
    ensures forall p :: p in ps <==> p == base.(operation := p.operation, mask := p.mask) &&
                                     OperationAt(l.target.InstructionPointer?, operations, p)
    ensures forall i :: 0 <= i < |ps| ==> OfOperations(l, operations)[i] == WithOperation(l, operations, ps[i])
  {
    hide InOrder;
    NoneInOrder();
    ps := [];
    if operations != [] {
      var last := |operations| - 1;
      var rest := OperationsAre(l, operations[..last], base);
      var n := if l.target.InstructionPointer? then 1 else |operations[last].masks|;
      var own := MasksAre(n, base.(operation := last));
      Joins(rest, own);
      ps := rest + own;
    }
  }

  lemma {:induction false} MasksAre(n: nat, base: Position) returns (ps: seq<Position>)
    ensures |ps| == n && InOrder(ps) && forall i :: 0 <= i < n ==> ps[i] == base.(mask := i)
    ensures forall p :: p in ps <==> p == base.(mask := p.mask) && p.mask < n
  {
    ps := seq(n, m requires 0 <= m < n => base.(mask := m));
    forall p: Position | p == base.(mask := p.mask) && p.mask < n ensures p in ps {
      assert ps[p.mask] == p;
    }
  }

  predicate LifespanAt(ip: bool, lifespans: seq<LifespanFault>, p: Position) {
    p.lifespan < |lifespans| && OperationAt(ip, lifespans[p.lifespan].operations, p)
  }

  function WithLifespan(l: Launch, lifespans: seq<LifespanFault>, p: Position): Launch
    requires LifespanAt(l.target.InstructionPointer?, lifespans, p)
  {
    WithOperation(l.(lifespan := lifespans[p.lifespan].lifespan), lifespans[p.lifespan].operations, p)
  }

  lemma {:induction false} LifespansAre(l: Launch, lifespans: seq<LifespanFault>, base: Position)
    returns (ps: seq<Position>)
    ensures InOrder(ps) && |ps| == |OfLifespans(l, lifespans)|
    ensures forall p :: p in ps <==> p == base.(lifespan := p.lifespan, operation := p.operation, mask := p.mask) &&
                                     LifespanAt(l.target.InstructionPointer?, lifespans, p)
    ensures forall i :: 0 <= i < |ps| ==> OfLifespans(l, lifespans)[i] == WithLifespan(l, lifespans, ps[i])
  {
    hide OperationAt, OfOperations, WithOperation, InOrder;
    NoneInOrder();
    ps := [];
    if lifespans != [] {
      var last := |lifespans| - 1;
      var rest := LifespansAre(l, lifespans[..last], base);
      var s := lifespans[last];
      var own := OperationsAre(l.(lifespan := s.lifespan), s.operations, base.(lifespan := last));
      Joins(rest, own);
      ps := rest + own;
    }
  }

  lemma {:induction false} NoneInOrder()
    ensures InOrder([])
  {
  }

  predicate FilterAt(ip: bool, filters: seq<FilterFault>, op: Opcode, p: Position) {
    p.filter < |filters| && Matches(filters[p.filter].filter, op) && LifespanAt(ip, filters[p.filter].lifespans, p)
  }

  function WithFilter(l: Launch, filters: seq<FilterFault>, op: Opcode, p: Position): Launch
    requires FilterAt(l.target.InstructionPointer?, filters, op, p)
  {
    WithLifespan(l.(filter := filters[p.filter].filter), filters[p.filter].lifespans, p)
  }

  /** p differs from the base in its filter and below. */
  predicate IsUnder(base: Position, p: Position) {
    p.target == base.target && p.register == base.register
  }

  lemma {:induction false} FiltersAre(l: Launch, filters: seq<FilterFault>, op: Opcode, base: Position)
    returns (ps: seq<Position>)
    ensures InOrder(ps) && |ps| == |OfFilters(l, filters, op)|
    ensures forall p :: p in ps <==> IsUnder(base, p) && FilterAt(l.target.InstructionPointer?, filters, op, p)
    ensures forall i :: 0 <= i < |ps| ==>
              FilterAt(l.target.InstructionPointer?, filters, op, ps[i]) &&
              OfFilters(l, filters, op)[i] == WithFilter(l, filters, op, ps[i])
  {
    hide LifespanAt, OfLifespans, WithLifespan, InOrder, Matches;
    NoneInOrder();
    ps := [];
    if filters != [] {
      var last := |filters| - 1;
      var rest := FiltersAre(l, filters[..last], op, base);
      var f := filters[last];
      ps := rest;
      if Matches(f.filter, op) {
        var own := LifespansAre(l.(filter := f.filter), f.lifespans, base.(filter := last));
        Joins(rest, own);
        ps := rest + own;
      }
    }
  }

  predicate RegisterAt(t: TargetFault, op: Opcode, n: nat, p: Position) {
    p.register < n && IsFaulted(t, p.register, op) && FilterAt(false, t.filters, op, p)
  }

  lemma {:induction false} RegistersAre(l: Launch, t: TargetFault, op: Opcode, n: nat, base: Position)
    returns (ps: seq<Position>)
    requires !l.target.InstructionPointer?
    ensures InOrder(ps) && |ps| == |OfRegisters(l, t, op, n)|
    ensures forall p :: p in ps <==> p.target == base.target && RegisterAt(t, op, n, p)
    ensures forall i :: 0 <= i < |ps| ==>
              RegisterAt(t, op, n, ps[i]) &&
              OfRegisters(l, t, op, n)[i] == WithFilter(l.(number := ps[i].register), t.filters, op, ps[i])
  {
    hide FilterAt, OfFilters, WithFilter, InOrder, IsFaulted;
    NoneInOrder();
    ps := [];
    if n > 0 {
      ps := RegistersAre(l, t, op, n - 1, base);
      if IsFaulted(t, n - 1, op) {
        var own := FiltersAre(l.(number := n - 1), t.filters, op, base.(register := n - 1));
        Joins(ps, own);
        ps := ps + own;
      }
    }
  }

  predicate InTarget(t: TargetFault, op: Opcode, p: Position) {
    match t.target
    case Register => RegisterAt(t, op, MAX_REGISTERS, p)
    case InstructionPointer => p.register == 0 && FilterAt(true, t.filters, op, p)
    case Instruction => p.register == 0 && p.filter == 0 && FilterAt(false, t.filters, op, p)
  }

  function WithTarget(l: Launch, t: TargetFault, op: Opcode, p: Position): Launch
    requires InTarget(t, op, p)
  {
    var l1 := l.(target := t.target);
    WithFilter(if t.target.Register? then l1.(number := p.register) else l1, t.filters, op, p)
  }

  lemma {:induction false} TargetIs(l: Launch, t: TargetFault, op: Opcode, base: Position) returns (ps: seq<Position>)
    requires base.register == 0 && base.filter == 0
    ensures InOrder(ps) && |ps| == |OfTarget(l, t, op)|
    ensures forall p :: p in ps <==> p.target == base.target && InTarget(t, op, p)
    ensures forall i :: 0 <= i < |ps| ==> InTarget(t, op, ps[i]) && OfTarget(l, t, op)[i] == WithTarget(l, t, op, ps[i])
  {
    hide LifespanAt, OfRegisters, OfFilters, OfLifespans, WithLifespan, InOrder, Matches, IsFaulted;
    NoneInOrder();
    var l1 := l.(target := t.target);
    match t.target
    case Register => ps := RegistersAre(l1, t, op, MAX_REGISTERS, base);
    case InstructionPointer => ps := FiltersAre(l1, t.filters, op, base);
    case Instruction =>
      ps := [];
      if t.filters != [] && Matches(t.filters[0].filter, op) {
        ps := LifespansAre(l1.(filter := t.filters[0].filter), t.filters[0].lifespans, base);
      }
  }

  predicate TargetAt(targets: seq<TargetFault>, op: Opcode, p: Position) {
    p.target < |targets| && InTarget(targets[p.target], op, p)
  }

  lemma {:induction false} TargetsAre(l: Launch, targets: seq<TargetFault>, op: Opcode) returns (ps: seq<Position>)
    ensures InOrder(ps) && |ps| == |OfTargets(l, targets, op)|
    ensures forall p :: p in ps <==> TargetAt(targets, op, p)
    ensures forall i :: 0 <= i < |ps| ==>
              TargetAt(targets, op, ps[i]) && OfTargets(l, targets, op)[i]
                == WithTarget(l, targets[ps[i].target], op, ps[i])
  {
    hide InTarget, OfTarget, WithTarget, InOrder;
    NoneInOrder();
    ps := [];
    if targets != [] {
      var last := |targets| - 1;
      var rest := TargetsAre(l, targets[..last], op);
      var own := TargetIs(l, targets[last], op, Position(last, 0, 0, 0, 0, 0));
      Joins(rest, own);
      ps := rest + own;
    }
  }

  // ----- the whole item -----

  lemma {:induction false} TargetsArePositions(instruction: nat, r: RangeFault, op: Opcode, p: Position)
    ensures TargetAt(r.targets, op, p) <==> IsPosition(r, op, p)
    ensures IsPosition(r, op, p) ==>
              WithTarget(Blank(instruction), r.targets[p.target], op, p) == LaunchAt(instruction, r, op, p)
  {
    assert forall filter: Option<string> :: Matches(filter, op) <==> LetsThrough(filter, op.mnemonic);
    hide Matches, LetsThrough;
  }

  /** The runs of a work item are those for the places of the tree, each once, in nested order. */
  lemma {:induction false} LaunchesArePositions(instruction: nat, r: RangeFault, op: Opcode) returns (ps: seq<Position>)
    ensures InOrder(ps) && |ps| == |Launches(instruction, r, op)|
    ensures forall p :: p in ps <==> IsPosition(r, op, p)
    ensures forall i :: 0 <= i < |ps| ==> Launches(instruction, r, op)[i] == LaunchAt(instruction, r, op, ps[i])
  {
    hide TargetAt, OfTargets, WithTarget, InOrder, LaunchAt, IsPosition, Blank;
    ps := TargetsAre(Blank(instruction), r.targets, op);
    forall p ensures TargetAt(r.targets, op, p) <==> IsPosition(r, op, p) {
      TargetsArePositions(instruction, r, op, p);
    }
    forall i | 0 <= i < |ps| ensures Launches(instruction, r, op)[i] == LaunchAt(instruction, r, op, ps[i]) {
      TargetsArePositions(instruction, r, op, ps[i]);
    }
  }

  /** The rule a run gets holds exactly the values of its place. */
  ghost predicate IsRuleAt(rule: FaultRule, instruction: nat, r: RangeFault, op: Opcode, p: Position)
    requires IsPosition(r, op, p)
  {
    var t := r.targets[p.target];
    var s := t.filters[p.filter].lifespans[p.lifespan];
    var o := s.operations[p.operation];
    && rule.isSet && rule.instruction == instruction && rule.target == t.target && rule.number == p.register
    && rule.filter == t.filters[p.filter].filter && rule.lifespan == s.lifespan && rule.operation == o.operation
    && rule.mask == if t.target.InstructionPointer? then 0 else o.masks[p.mask]
  }

  /** So with the rules the runs are started with. */
  lemma {:induction false} RulesArePositions(i: Item, opcodes: nat -> Opcode) returns (ps: seq<Position>)
    ensures InOrder(ps) && |ps| == |Results.ItemRules(i, opcodes)|
    ensures forall p :: p in ps <==> IsPosition(i.range, opcodes(i.instruction), p)
    ensures forall k :: 0 <= k < |ps| ==>
              IsPosition(i.range, opcodes(i.instruction), ps[k]) &&
              IsRuleAt(Results.ItemRules(i, opcodes)[k], i.instruction, i.range, opcodes(i.instruction), ps[k])
  {
    var op := opcodes(i.instruction);
    ps := LaunchesArePositions(i.instruction, i.range, op);
    hide IsPosition, InOrder, Launches;
    forall k | 0 <= k < |ps|
      ensures IsPosition(i.range, op, ps[k])
      ensures IsRuleAt(Results.ItemRules(i, opcodes)[k], i.instruction, i.range, op, ps[k])
    {
      assert ps[k] in ps;
      HoldsValues(i.instruction, i.range, op, ps[k]);
      assert Results.ItemRules(i, opcodes)[k] == Results.RuleOf(Launches(i.instruction, i.range, op)[k]);
    }
  }

  lemma {:induction false} HoldsValues(instruction: nat, r: RangeFault, op: Opcode, p: Position)
    requires IsPosition(r, op, p)
    ensures IsRuleAt(Results.RuleOf(LaunchAt(instruction, r, op, p)), instruction, r, op, p)
  {
    hide LetsThrough;
  }
}

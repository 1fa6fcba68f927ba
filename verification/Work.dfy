/** Handing out the work: the shared cursor, and the threads that move it under a lock. */
module Work {
  import opened Utils
  import opened Enumeration

  /** A workload: one line of one range. */
  datatype Item = Item(instruction: nat, range: RangeFault)

  predicate IsRange(r: RangeFault) {
    r.start <= r.end
  }

  /** The items of a range from one line on. */
  function RangeItems(r: RangeFault, from: nat): (items: seq<Item>)
    ensures |items| == if from <= r.end then r.end - from + 1 else 0
    decreases r.end - from
  {
    if from > r.end then [] else [Item(from, r)] + RangeItems(r, from + 1)
  }

  /** The whole work list, in order. */
  function AllItems(ranges: seq<RangeFault>): seq<Item> {
    if ranges == [] then [] else RangeItems(ranges[0], ranges[0].start) + AllItems(ranges[1..])
  }

  /** consume_context_t: the ranges from current_instruction_range_fault on, and the instruction. */
  datatype Cursor = Cursor(ranges: seq<RangeFault>, instruction: nat)

  function Initial(ranges: seq<RangeFault>): Cursor {
    Cursor(ranges, if ranges == [] then 0 else ranges[0].start)
  }

  function Moved(c: Cursor): Cursor
    requires c.ranges != []
  {
    if c.instruction + 1 > c.ranges[0].end then Cursor(c.ranges[1..], if |c.ranges| > 1 then c.ranges[1].start
                                                       else c.instruction + 1)
    else c.(instruction := c.instruction + 1)
  }

  predicate IsCursor(c: Cursor) {
    (forall r :: r in c.ranges ==> IsRange(r)) && (c.ranges != [] ==> c.instruction <= c.ranges[0].end)
  }

  function Remaining(c: Cursor): seq<Item> {
    if c.ranges == [] then [] else RangeItems(c.ranges[0], c.instruction) + AllItems(c.ranges[1..])
  }

  function Current(c: Cursor): Item
    requires c.ranges != []
  {
    Item(c.instruction, c.ranges[0])
  }

  /** Moving the cursor takes exactly the first item off the remaining work. */
  lemma {:induction false} MovingTakesOne(c: Cursor)
    requires IsCursor(c) && c.ranges != []
    ensures IsCursor(Moved(c)) && Remaining(c) == [Current(c)] + Remaining(Moved(c))
  {
    var d := Moved(c);
    assert c.ranges[0] in c.ranges;
    if c.instruction + 1 > c.ranges[0].end {
      forall r | r in d.ranges ensures IsRange(r) { assert r in c.ranges; }
      assert d.ranges != [] ==> d.ranges[0] in d.ranges;
      assert RangeItems(c.ranges[0], c.instruction + 1) == [];
      assert Remaining(d) == AllItems(c.ranges[1..]);
    }
  }

  lemma {:induction false} InitialIsAll(ranges: seq<RangeFault>)
    requires forall r :: r in ranges ==> IsRange(r)
    ensures IsCursor(Initial(ranges)) && Remaining(Initial(ranges)) == AllItems(ranges)
  {
    if ranges != [] {
      assert ranges[0] in ranges;
    }
  }

  // ----- the shared context and one thread alone -----

  class ConsumeContext {
    var ranges: seq<RangeFault>
    var instruction: nat

    function View(): Cursor
      reads this
    {
      Cursor(ranges, instruction)
    }

    /** initialise_consume_context */
    constructor (faults: seq<RangeFault>)
      ensures View() == Initial(faults)
    {
      ranges := faults;
      instruction := 0;
      if faults != [] {
        instruction := faults[0].start;
      }
    }

    /** move_to_next */
    method MoveToNext()
      requires ranges != []
      modifies this
      ensures View() == Moved(old(View()))
    {
      instruction := instruction + 1;
      if instruction > ranges[0].end {
        ranges := ranges[1..];
        if ranges != [] {
          instruction := ranges[0].start;
        }
      }
    }

    /** fault_it_thread, with no other thread: it takes the whole work list in order.  None: an item is
        beyond the last line, and the tool ended the process. */
    method FaultItAlone(total: nat, opcodes: nat -> Opcode) returns (log: Option<seq<Launch>>)
      requires IsCursor(View())
      modifies this
      ensures log.None? <==> exists i :: i in Remaining(old(View())) && i.instruction > total
      ensures log.Some? ==> ranges == [] && log.value == LaunchesOf(Remaining(old(View())), opcodes)
    {
      hide Remaining, Moved, IsCursor, LaunchesOf, ItemLaunches;
      var launched: seq<Launch> := [];
      ghost var taken: seq<Item> := [];
      NoLaunches(opcodes);
      while ranges != []
        invariant IsCursor(View()) && taken + Remaining(View()) == Remaining(old(View()))
        invariant launched == LaunchesOf(taken, opcodes) && forall i :: i in taken ==> i.instruction <= total
        decreases |Remaining(View())|
      {
        ghost var item := Current(View());
        MovingTakesOne(View());
        var workload := Item(instruction, ranges[0]);
        MoveToNext();
        LaunchesMore(taken, item, opcodes);
        assert (taken + [item]) + Remaining(View()) == taken + ([item] + Remaining(View()));
        taken := taken + [item];
        if workload.instruction > total {
          assert item in taken + Remaining(View());
          return None;
        }
        var runs := RunTheActualFault(workload.instruction, workload.range, opcodes(workload.instruction));
        launched := launched + runs;
        ItemIs(item, opcodes);
      }
      NoneRemain(View());
      assert taken == Remaining(old(View()));
      return Some(launched);
    }
  }

  lemma {:induction false} NoneRemain(c: Cursor)
    requires c.ranges == []
    ensures Remaining(c) == []
  {
  }

  lemma {:induction false} NoLaunches(opcodes: nat -> Opcode)
    ensures LaunchesOf([], opcodes) == []
  {
  }

  lemma {:induction false} LaunchesMore(items: seq<Item>, i: Item, opcodes: nat -> Opcode)
    ensures LaunchesOf(items + [i], opcodes) == LaunchesOf(items, opcodes) + ItemLaunches(i, opcodes)
  {
    hide ItemLaunches;
    assert (items + [i])[..|items|] == items;
  }

  lemma {:induction false} ItemIs(i: Item, opcodes: nat -> Opcode)
    ensures ItemLaunches(i, opcodes) == Launches(i.instruction, i.range, opcodes(i.instruction))
  {
  }

  function ItemLaunches(i: Item, opcodes: nat -> Opcode): seq<Launch> {
    Launches(i.instruction, i.range, opcodes(i.instruction))
  }

  /** What these items give, one item after the other. */
  function Gathered<T>(items: seq<Item>, f: Item -> seq<T>): seq<T> {
    if items == [] then [] else Gathered(items[..|items| - 1], f) + f(items[|items| - 1])
  }

  function LaunchesAt(opcodes: nat -> Opcode): Item -> seq<Launch> {
    i => ItemLaunches(i, opcodes)
  }

  /** The launches of these items. */
  function LaunchesOf(items: seq<Item>, opcodes: nat -> Opcode): seq<Launch> {
    Gathered(items, LaunchesAt(opcodes))
  }
}

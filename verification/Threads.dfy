/** Any number of threads taking work items from one cursor under a lock, in any interleaving. */
module Threads {
  import opened Utils
  import opened Enumeration
  import opened Work

  /** Where a thread is in the loop of fault_it_thread, with the workload it has read.  None: the
      cursor was past the last range. */
  datatype Thread =
    | Waiting
    | Locked
    | HasRead(work: Option<Item>)
    | Advanced(work: Option<Item>)
    | Unlocked(work: Option<Item>)
    | Done

  /** done: the items that were run, in the order they were.  aborted: the tool ended the process. */
  datatype System = System(cursor: Cursor, lock: Option<nat>, threads: seq<Thread>, done: seq<Item>, aborted: bool)

  datatype Action = TakeLock(t: nat) | Read(t: nat) | Advance(t: nat) | Release(t: nat) | RunItem(t: nat)

  predicate Enabled(s: System, a: Action) {
    !s.aborted && a.t < |s.threads| &&
    match a
    case TakeLock(t) => s.threads[t].Waiting? && s.lock.None?
    case Read(t) => s.threads[t].Locked?
    case Advance(t) => s.threads[t].HasRead? && (s.threads[t].work.Some? ==> s.cursor.ranges != [])
    case Release(t) => s.threads[t].Advanced?
    case RunItem(t) => s.threads[t].Unlocked?
  }

  /** One step of one thread. */
  function Next(s: System, a: Action, total: nat): System
    requires Enabled(s, a)
  {
    var t := a.t;
    match a
    case TakeLock(_) => s.(lock := Some(t), threads := s.threads[t := Locked])
    case Read(_) =>
      s.(threads := s.threads[t := HasRead(if s.cursor.ranges != [] then Some(Current(s.cursor)) else None)])
    case Advance(_) =>
      var work := s.threads[t].work;
      s.(threads := s.threads[t := Advanced(work)], cursor := if work.Some? then Moved(s.cursor) else s.cursor)
    case Release(_) => s.(lock := None, threads := s.threads[t := Unlocked(s.threads[t].work)])
    case RunItem(_) =>
      match s.threads[t].work
      case None => s.(threads := s.threads[t := Done])
      case Some(item) =>
        if item.instruction > total then s.(aborted := true)
        else s.(threads := s.threads[t := Waiting], done := s.done + [item])
  }

  function Start(ranges: seq<RangeFault>, threads: nat): System {
    System(Initial(ranges), None, seq(threads, _ => Waiting), [], false)
  }

  // ----- invariants -----

  predicate HoldsLock(t: Thread) {
    t.Locked? || t.HasRead? || t.Advanced?
  }

  function Times(items: seq<Item>, x: Item): nat {
    if items == [] then 0 else Times(items[..|items| - 1], x) + if items[|items| - 1] == x then 1 else 0
  }

  /** The item a thread has taken off the cursor and not run yet. */
  function Held(t: Thread): Option<Item> {
    if t.Advanced? || t.Unlocked? then t.work else None
  }

  /** How many threads hold this item. */
  function Holders(threads: seq<Thread>, x: Item): nat {
    if threads == [] then 0
    else Holders(threads[..|threads| - 1], x) + if Held(threads[|threads| - 1]) == Some(x) then 1 else 0
  }

  /** The thread has seen the end of the work. */
  predicate SawTheEnd(t: Thread) {
    t.Done? || ((t.HasRead? || t.Advanced? || t.Unlocked?) && t.work.None?)
  }

  /** Taken and remaining work are always the whole list; one thread at most is between lock and
      unlock; and what it has read is still the current item. */
  ghost predicate Inv(s: System, all: seq<Item>) {
    && IsCursor(s.cursor)
    && (forall x :: Times(s.done, x) + Holders(s.threads, x) + Times(Remaining(s.cursor), x) == Times(all, x))
    && (forall t :: 0 <= t < |s.threads| ==> (HoldsLock(s.threads[t]) <==> s.lock == Some(t)))
    && (s.lock.Some? ==> s.lock.value < |s.threads|)
    && (forall t :: 0 <= t < |s.threads| && s.threads[t].HasRead? && s.threads[t].work.Some? ==>
          s.cursor.ranges != [] && s.threads[t].work.value == Current(s.cursor))
    && (forall t :: 0 <= t < |s.threads| && SawTheEnd(s.threads[t]) ==> s.cursor.ranges == [])
  }

  lemma {:induction false} HolderChanges(threads: seq<Thread>, t: nat, to: Thread, x: Item)
    requires t < |threads|
    ensures Holders(threads[t := to], x) + (if Held(threads[t]) == Some(x) then 1 else 0)
         == Holders(threads, x) + (if Held(to) == Some(x) then 1 else 0)
  {
    hide Held;
    var n := |threads| - 1;
    var after := threads[t := to];
    if t == n {
      assert after[..n] == threads[..n];
    } else {
      HolderChanges(threads[..n], t, to, x);
      assert after[..n] == threads[..n][t := to];
    }
  }

  lemma {:induction false} NoHolders(threads: seq<Thread>, x: Item)
    requires forall t :: 0 <= t < |threads| ==> Held(threads[t]).None?
    ensures Holders(threads, x) == 0
  {
    if threads != [] {
      NoHolders(threads[..|threads| - 1], x);
    }
  }

  lemma {:induction false} TimesAppend(a: seq<Item>, b: seq<Item>, x: Item)
    ensures Times(a + b, x) == Times(a, x) + Times(b, x)
  {
    if b == [] {
      assert a + b == a;
    } else {
      TimesAppend(a, b[..|b| - 1], x);
      assert (a + b)[..|a + b| - 1] == a + b[..|b| - 1];
    }
  }

  lemma {:induction false} TimesOne(y: Item, x: Item)
    ensures Times([y], x) == if y == x then 1 else 0
  {
    assert [y][..0] == [];
  }

  /** For one item: what was run, is held, and remains. */
  function Sum(s: System, x: Item): nat {
    Times(s.done, x) + Holders(s.threads, x) + Times(Remaining(s.cursor), x)
  }

  lemma {:induction false} StepKeepsSum(s: System, a: Action, total: nat, x: Item)
    requires Enabled(s, a) && IsCursor(s.cursor)
    requires a.Advance? && s.threads[a.t].work.Some? ==> s.threads[a.t].work.value == Current(s.cursor)
    ensures Sum(Next(s, a, total), x) == Sum(s, x)
  {
    hide Times, Holders, Remaining, IsCursor, Moved;
    var n := Next(s, a, total);
    if n.threads != s.threads {
      HolderChanges(s.threads, a.t, n.threads[a.t], x);
      assert n.threads == s.threads[a.t := n.threads[a.t]];
    }
    match a
    case Advance(t) =>
      if s.threads[t].work.Some? {
        MovingTakesOne(s.cursor);
        TimesAppend([Current(s.cursor)], Remaining(Moved(s.cursor)), x);
        TimesOne(Current(s.cursor), x);
      }
    case RunItem(t) =>
      if s.threads[t].work.Some? {
        TimesAppend(s.done, [s.threads[t].work.value], x);
        TimesOne(s.threads[t].work.value, x);
      }
    case _ =>
  }

  lemma {:induction false} StartInv(ranges: seq<RangeFault>, threads: nat)
    requires forall r :: r in ranges ==> IsRange(r)
    ensures Inv(Start(ranges, threads), AllItems(ranges))
  {
    hide Times, Holders, Remaining, IsCursor;
    InitialIsAll(ranges);
    var s := Start(ranges, threads);
    forall x ensures Times(s.done, x) + Holders(s.threads, x) + Times(Remaining(s.cursor), x)
      == Times(AllItems(ranges), x) {
      NoHolders(s.threads, x);
      TimesNone(x);
    }
  }

  lemma {:induction false} TimesNone(x: Item)
    ensures Times([], x) == 0
  {
  }

  lemma {:induction false} StepKeepsInv(s: System, a: Action, total: nat, all: seq<Item>)
    requires Inv(s, all) && Enabled(s, a)
    ensures Inv(Next(s, a, total), all)
  {
    hide Times, Holders, Remaining, IsCursor, Moved;
    var n := Next(s, a, total);
    forall x ensures Times(n.done, x) + Holders(n.threads, x) + Times(Remaining(n.cursor), x) == Times(all, x) {
      StepKeepsSum(s, a, total, x);
      assert Sum(s, x) == Times(all, x);
    }
    if a.Advance? && s.threads[a.t].work.Some? {
      MovingTakesOne(s.cursor);
    }
  }

  // ----- executions -----

  /** The state after these actions, if each was enabled in its turn. */
  function Execute(s: System, actions: seq<Action>, total: nat): Option<System> {
    if actions == [] then Some(s)
    else
      match Execute(s, actions[..|actions| - 1], total)
      case None => None
      case Some(u) => if Enabled(u, actions[|actions| - 1]) then Some(Next(u, actions[|actions| - 1], total)) else None
  }

  /** Steps the thread can still take before it takes another item. */
  function Rank(t: Thread): nat {
    match t
    case Waiting => 5
    case Locked => 4
    case HasRead(_) => 3
    case Advanced(work) => if work.Some? then 8 else 2
    case Unlocked(work) => if work.Some? then 7 else 1
    case Done => 0
  }

  function Ranks(threads: seq<Thread>): nat {
    if threads == [] then 0 else Ranks(threads[..|threads| - 1]) + Rank(threads[|threads| - 1])
  }

  function Measure(s: System): nat {
    6 * |Remaining(s.cursor)| + Ranks(s.threads) + if s.aborted then 0 else 1
  }

  lemma {:induction false} RankChanges(threads: seq<Thread>, t: nat, to: Thread)
    requires t < |threads|
    ensures Ranks(threads[t := to]) + Rank(threads[t]) == Ranks(threads) + Rank(to)
  {
    hide Rank;
    var n := |threads| - 1;
    var after := threads[t := to];
    if t == n {
      assert after[..n] == threads[..n];
    } else {
      RankChanges(threads[..n], t, to);
      assert after[..n] == threads[..n][t := to];
    }
  }

  lemma {:induction false} StepDecreases(s: System, a: Action, total: nat, all: seq<Item>)
    requires Inv(s, all) && Enabled(s, a)
    ensures Measure(Next(s, a, total)) < Measure(s)
  {
    hide Times, Holders, Remaining, Ranks, IsCursor, Moved;
    var n := Next(s, a, total);
    if n.threads != s.threads {
      RankChanges(s.threads, a.t, n.threads[a.t]);
      assert n.threads == s.threads[a.t := n.threads[a.t]];
    }
    if a.Advance? && s.threads[a.t].work.Some? {
      MovingTakesOne(s.cursor);
    }
  }

  lemma {:induction false} ExecutionInv(ranges: seq<RangeFault>, threads: nat, actions: seq<Action>, total: nat)
    requires forall r :: r in ranges ==> IsRange(r)
    requires Execute(Start(ranges, threads), actions, total).Some?
    ensures var s := Execute(Start(ranges, threads), actions, total).value;
            && Inv(s, AllItems(ranges)) && |s.threads| == threads
            && |actions| + Measure(s) <= Measure(Start(ranges, threads))
  {
    hide Measure, Inv, Enabled, Next, AllItems;
    StartInv(ranges, threads);
    if actions != [] {
      ExecutionInv(ranges, threads, actions[..|actions| - 1], total);
      var u, a := Execute(Start(ranges, threads), actions[..|actions| - 1], total).value, actions[|actions| - 1];
      StepKeepsInv(u, a, total, AllItems(ranges));
      StepDecreases(u, a, total, AllItems(ranges));
      SameThreads(u, a, total);
    }
  }

  lemma {:induction false} SameThreads(s: System, a: Action, total: nat)
    requires Enabled(s, a)
    ensures |Next(s, a, total).threads| == |s.threads|
  {
  }

  lemma {:induction false} StartMeasure(threads: seq<Thread>)
    requires forall t :: 0 <= t < |threads| ==> threads[t].Waiting?
    ensures Ranks(threads) == 5 * |threads|
  {
    if threads != [] {
      StartMeasure(threads[..|threads| - 1]);
    }
  }

  /** Every execution is finite: it has at most 6 steps for each item, 5 for each thread, and one more. */
  lemma {:induction false} EveryThreadTerminates(ranges: seq<RangeFault>, threads: nat, actions: seq<Action>,
                                                 total: nat)
    requires forall r :: r in ranges ==> IsRange(r)
    requires Execute(Start(ranges, threads), actions, total).Some?
    ensures |actions| <= 6 * |AllItems(ranges)| + 5 * threads + 1
  {
    hide Inv, Execute, AllItems, Ranks, Remaining;
    ExecutionInv(ranges, threads, actions, total);
    InitialIsAll(ranges);
    StartMeasure(Start(ranges, threads).threads);
  }

  /** No state is stuck: until all threads are done, or the process is ended, some thread can step. */
  lemma {:induction false} SomeThreadCanStep(s: System, all: seq<Item>) returns (a: Action)
    requires Inv(s, all) && !s.aborted && exists t :: 0 <= t < |s.threads| && !s.threads[t].Done?
    ensures Enabled(s, a)
  {
    hide Times, Holders, Remaining;
    var t: nat :| t < |s.threads| && !s.threads[t].Done?;
    if s.lock.Some? {
      t := s.lock.value;
    }
    match s.threads[t]
    case Waiting => a := TakeLock(t);
    case Locked => a := Read(t);
    case HasRead(_) => a := Advance(t);
    case Advanced(_) => a := Release(t);
    case Unlocked(_) => a := RunItem(t);
  }

  // ----- when all threads are done -----

  predicate AllDone(s: System) {
    forall t :: 0 <= t < |s.threads| ==> s.threads[t].Done?
  }

  /** Every item was run exactly as often as it is in the work list: none was lost, and none run twice. */
  lemma {:induction false} EachItemIsRunOnce(ranges: seq<RangeFault>, threads: nat, actions: seq<Action>, total: nat,
                                             x: Item)
    requires (forall r :: r in ranges ==> IsRange(r)) && threads > 0
    requires Execute(Start(ranges, threads), actions, total).Some?
    requires AllDone(Execute(Start(ranges, threads), actions, total).value)
    ensures Times(Execute(Start(ranges, threads), actions, total).value.done, x) == Times(AllItems(ranges), x)
  {
    hide Execute, AllItems, Times, Holders;
    var s := Execute(Start(ranges, threads), actions, total).value;
    ExecutionInv(ranges, threads, actions, total);
    assert SawTheEnd(s.threads[0]);
    NoHolders(s.threads, x);
    TimesNone(x);
  }

  /** At any point no item has been run more often than it is in the work list. */
  lemma {:induction false} NoItemIsRunTwice(ranges: seq<RangeFault>, threads: nat, actions: seq<Action>, total: nat,
                                            x: Item)
    requires (forall r :: r in ranges ==> IsRange(r)) && Execute(Start(ranges, threads), actions, total).Some?
    ensures Times(Execute(Start(ranges, threads), actions, total).value.done, x) <= Times(AllItems(ranges), x)
  {
    hide Execute, AllItems, Times, Holders;
    ExecutionInv(ranges, threads, actions, total);
  }

  // ----- the fault runs -----

  lemma {:induction false} TimesSame(a: seq<Item>, x: Item)
    ensures Times(a, x) == multiset(a)[x]
  {
    if a != [] {
      TimesSame(a[..|a| - 1], x);
      assert a == a[..|a| - 1] + [a[|a| - 1]];
    }
  }

  /** What items give does not depend on their order. */
  lemma {:induction false} SameGathered<T>(a: seq<Item>, b: seq<Item>, f: Item -> seq<T>)
    requires multiset(a) == multiset(b)
    ensures multiset(Gathered(a, f)) == multiset(Gathered(b, f))
  {
    if a == [] {
      assert |b| == |multiset(b)| == |multiset(a)| == |a|;
    } else {
      var x, rest := a[|a| - 1], a[..|a| - 1];
      assert a == rest + [x];
      assert x in multiset(b);
      var i :| 0 <= i < |b| && b[i] == x;
      var others := b[..i] + b[i + 1..];
      WithoutOne(b, i);
      Cancel(multiset(rest), multiset(others), x);
      SameGathered(rest, others, f);
      TakesOut(b, i, f);
    }
  }

  lemma {:induction false} WithoutOne(b: seq<Item>, i: nat)
    requires i < |b|
    ensures multiset(b) == multiset(b[..i] + b[i + 1..]) + multiset{b[i]}
  {
    assert b == b[..i] + [b[i]] + b[i + 1..];
  }

  lemma {:induction false} Cancel<T>(a: multiset<T>, b: multiset<T>, x: T)
    requires a + multiset{x} == b + multiset{x}
    ensures a == b
  {
    forall y ensures a[y] == b[y] {
      assert (a + multiset{x})[y] == (b + multiset{x})[y];
    }
  }

  lemma {:induction false} GatheredStep<T>(b: seq<Item>, f: Item -> seq<T>)
    requires b != []
    ensures multiset(Gathered(b, f)) == multiset(Gathered(b[..|b| - 1], f)) + multiset(f(b[|b| - 1]))
  {
  }

  lemma {:induction false} TakesOut<T>(b: seq<Item>, i: nat, f: Item -> seq<T>)
    requires i < |b|
    ensures multiset(Gathered(b, f)) == multiset(Gathered(b[..i] + b[i + 1..], f)) + multiset(f(b[i]))
  {
    hide Gathered;
    var n := |b| - 1;
    var others := b[..i] + b[i + 1..];
    GatheredStep(b, f);
    if i == n {
      assert others == b[..n];
    } else {
      TakesOut(b[..n], i, f);
      GatheredStep(others, f);
      assert others[..|others| - 1] == b[..n][..i] + b[..n][i + 1..] && others[|others| - 1] == b[n];
    }
  }

  lemma {:induction false} SameItems(ranges: seq<RangeFault>, threads: nat, actions: seq<Action>, total: nat)
    requires (forall r :: r in ranges ==> IsRange(r)) && threads > 0
    requires Execute(Start(ranges, threads), actions, total).Some?
    requires AllDone(Execute(Start(ranges, threads), actions, total).value)
    ensures multiset(Execute(Start(ranges, threads), actions, total).value.done) == multiset(AllItems(ranges))
  {
    hide Execute, AllItems, AllDone, Times;
    var done := Execute(Start(ranges, threads), actions, total).value.done;
    forall x ensures multiset(done)[x] == multiset(AllItems(ranges))[x] {
      EachItemIsRunOnce(ranges, threads, actions, total, x);
      TimesSame(done, x);
      TimesSame(AllItems(ranges), x);
    }
  }

  /** Under every interleaving of any number of threads, the fault runs launched are those of the
      single-threaded enumeration, each as often. */
  lemma {:induction false} ScheduleIndependent(ranges: seq<RangeFault>, threads: nat, actions: seq<Action>, total: nat,
                                               opcodes: nat -> Opcode)
    requires (forall r :: r in ranges ==> IsRange(r)) && threads > 0
    requires Execute(Start(ranges, threads), actions, total).Some?
    requires AllDone(Execute(Start(ranges, threads), actions, total).value)
    ensures multiset(LaunchesOf(Execute(Start(ranges, threads), actions, total).value.done, opcodes))
         == multiset(LaunchesOf(AllItems(ranges), opcodes))
  {
    hide Execute, AllItems, Gathered, AllDone;
    SameItems(ranges, threads, actions, total);
    SameGathered(Execute(Start(ranges, threads), actions, total).value.done, AllItems(ranges), LaunchesAt(opcodes));
  }

  // ----- items beyond the last line -----

  /** Nothing beyond the last line was run; a thread that ended the process held such an item. */
  ghost predicate WithinLines(s: System, total: nat) {
    (forall i :: i in s.done ==> i.instruction <= total) &&
    (s.aborted ==> exists t :: 0 <= t < |s.threads| && s.threads[t].Unlocked? && s.threads[t].work.Some?
                               && s.threads[t].work.value.instruction > total)
  }

  lemma {:induction false} ExecutionWithinLines(s: System, actions: seq<Action>, total: nat)
    requires s.done == [] && !s.aborted && Execute(s, actions, total).Some?
    ensures WithinLines(Execute(s, actions, total).value, total)
  {
    if actions != [] {
      ExecutionWithinLines(s, actions[..|actions| - 1], total);
    }
  }

  lemma {:induction false} HeldCounts(threads: seq<Thread>, t: nat)
    requires t < |threads| && Held(threads[t]).Some?
    ensures Holders(threads, Held(threads[t]).value) > 0
  {
    if t < |threads| - 1 {
      HeldCounts(threads[..|threads| - 1], t);
    }
  }

  lemma {:induction false} TimesIn(items: seq<Item>, x: Item)
    ensures Times(items, x) > 0 <==> x in items
  {
    if items != [] {
      TimesIn(items[..|items| - 1], x);
      assert items == items[..|items| - 1] + [items[|items| - 1]];
    }
  }

  /** The process is ended only for an item beyond the last line; and if there is one, no execution
      comes to an end with every thread done. */
  lemma {:induction false} EndsOnlyBeyond(ranges: seq<RangeFault>, threads: nat, actions: seq<Action>, total: nat)
    requires (forall r :: r in ranges ==> IsRange(r)) && threads > 0
    requires Execute(Start(ranges, threads), actions, total).Some?
    ensures var s := Execute(Start(ranges, threads), actions, total).value;
            && (s.aborted ==> exists i :: i in AllItems(ranges) && i.instruction > total)
            && (AllDone(s) ==> forall i :: i in AllItems(ranges) ==> i.instruction <= total)
  {
    hide Execute, AllItems, Times, Holders;
    var s := Execute(Start(ranges, threads), actions, total).value;
    ExecutionInv(ranges, threads, actions, total);
    ExecutionWithinLines(Start(ranges, threads), actions, total);
    if s.aborted {
      var t :| 0 <= t < |s.threads| && s.threads[t].Unlocked? && s.threads[t].work.Some?
               && s.threads[t].work.value.instruction > total;
      HeldCounts(s.threads, t);
      TimesIn(AllItems(ranges), s.threads[t].work.value);
    }
    if AllDone(s) {
      forall i | i in AllItems(ranges) ensures i.instruction <= total {
        EachItemIsRunOnce(ranges, threads, actions, total, i);
        TimesIn(AllItems(ranges), i);
        TimesIn(s.done, i);
      }
    }
  }
}

/** The table of equivalent faults kept by shared/state.c for one work item: one class for each
    vector of state hashes, holding the fault rules that led to it. */
module Equivalence {
  /** equivalences_t; its fault_count is the length of faults. */
  datatype Class<Rule> = Class(hashes: seq<nat>, faults: seq<Rule>)

  /** The position of the first class with these hashes, or the length of the table. */
  function Find<Rule>(classes: seq<Class<Rule>>, hashes: seq<nat>): (i: nat)
    ensures i <= |classes|
    ensures i < |classes| ==> classes[i].hashes == hashes
    ensures forall j :: 0 <= j < i ==> classes[j].hashes != hashes
  {
    if classes == [] || classes[0].hashes == hashes then 0
    else 1 + Find(classes[1..], hashes)
  }

  predicate Known<Rule>(classes: seq<Class<Rule>>, hashes: seq<nat>) {
    Find(classes, hashes) < |classes|
  }

  /** The table after is_equivalent. */
  function Record<Rule>(classes: seq<Class<Rule>>, hashes: seq<nat>, rule: Rule): seq<Class<Rule>> {
    var i := Find(classes, hashes);
    if i < |classes| then classes[i := Class(hashes, classes[i].faults + [rule])]
    else classes + [Class(hashes, [rule])]
  }

  /** One call of is_equivalent within a work item. */
  datatype Query<Rule> = Query(hashes: seq<nat>, rule: Rule)

  /** The table after a work item's calls, which starts empty. */
  function Table<Rule>(calls: seq<Query<Rule>>): seq<Class<Rule>> {
    if calls == [] then []
    else
      var last := calls[|calls| - 1];
      Record(Table(calls[..|calls| - 1]), last.hashes, last.rule)
  }

  /** The map the table refines: from a vector to the rules of the calls with it, in call order. */
  function RulesOf<Rule>(calls: seq<Query<Rule>>, hashes: seq<nat>): seq<Rule> {
    if calls == [] then []
    else
      var last := calls[|calls| - 1];
      RulesOf(calls[..|calls| - 1], hashes) + if last.hashes == hashes then [last.rule] else []
  }

  function FaultCount<Rule>(classes: seq<Class<Rule>>): nat {
    if classes == [] then 0 else |classes[0].faults| + FaultCount(classes[1..])
  }

  predicate Distinct<Rule>(classes: seq<Class<Rule>>) {
    forall i, j :: 0 <= i < j < |classes| ==> classes[i].hashes != classes[j].hashes
  }

  lemma {:induction false} FaultCountAppend<Rule>(classes: seq<Class<Rule>>, c: Class<Rule>)
    ensures FaultCount(classes + [c]) == FaultCount(classes) + |c.faults|
  {
    if classes == [] {
    } else {
      FaultCountAppend(classes[1..], c);
      assert (classes + [c])[1..] == classes[1..] + [c];
    }
  }

  lemma {:induction false} FaultCountUpdate<Rule>(classes: seq<Class<Rule>>, i: nat, c: Class<Rule>)
    requires i < |classes|
    ensures FaultCount(classes[i := c]) == FaultCount(classes) - |classes[i].faults| + |c.faults|
  {
    if i > 0 {
      FaultCountUpdate(classes[1..], i - 1, c);
      assert classes[i := c][1..] == classes[1..][i - 1 := c];
    } else {
      assert classes[0 := c][1..] == classes[1..];
    }
  }

  lemma {:induction false} RecordKeepsDistinct<Rule>(classes: seq<Class<Rule>>, hashes: seq<nat>, rule: Rule)
    requires Distinct(classes)
    ensures Distinct(Record(classes, hashes, rule))
    ensures FaultCount(Record(classes, hashes, rule)) == FaultCount(classes) + 1
  {
    var i := Find(classes, hashes);
    if i < |classes| {
      FaultCountUpdate(classes, i, Class(hashes, classes[i].faults + [rule]));
    } else {
      FaultCountAppend(classes, Class(hashes, [rule]));
    }
  }

  lemma {:induction false} RecordKnows<Rule>(classes: seq<Class<Rule>>, hashes: seq<nat>, rule: Rule, other: seq<nat>)
    ensures Known(Record(classes, hashes, rule), other) <==> Known(classes, other) || other == hashes
  {
    var now := Record(classes, hashes, rule);
    var i, j, k := Find(classes, hashes), Find(now, other), Find(classes, other);
    assert now[i].hashes == hashes;
    if k < |classes| {
      assert now[k].hashes == other;
    }
    if j < |now| && j < |classes| {
      assert classes[j].hashes == now[j].hashes;
    }
  }

  /** The table refines the map: vectors are pairwise distinct, each class lists exactly the rules
      of its vector in call order, a vector is known exactly when some call had it, and the counts
      add up to the number of calls. */
  lemma {:induction false} TableRefinesMap<Rule>(calls: seq<Query<Rule>>)
    ensures Distinct(Table(calls))
    ensures forall c :: c in Table(calls) ==> c.faults == RulesOf(calls, c.hashes) != []
    ensures FaultCount(Table(calls)) == |calls|
    ensures forall hashes :: Known(Table(calls), hashes) <==> RulesOf(calls, hashes) != []
  {
    if calls == [] {
    } else {
      var before, last := calls[..|calls| - 1], calls[|calls| - 1];
      var was, now := Table(before), Table(calls);
      TableRefinesMap(before);
      RecordKeepsDistinct(was, last.hashes, last.rule);
      forall hashes
        ensures Known(now, hashes) <==> RulesOf(calls, hashes) != []
      {
        RecordKnows(was, last.hashes, last.rule, hashes);
      }
      forall j | 0 <= j < |now|
        ensures now[j].faults == RulesOf(calls, now[j].hashes) != []
      {
        var i := Find(was, last.hashes);
        if j < |was| {
          assert was[j] in was;
        } else {
          assert !Known(was, last.hashes);
        }
      }
    }
  }

  lemma {:induction false} SomeCallHad<Rule>(calls: seq<Query<Rule>>, hashes: seq<nat>)
    ensures RulesOf(calls, hashes) != [] <==> exists i :: 0 <= i < |calls| && calls[i].hashes == hashes
  {
    if calls == [] {
    } else {
      var before, last := calls[..|calls| - 1], calls[|calls| - 1];
      SomeCallHad(before, hashes);
      if last.hashes == hashes {
        assert calls[|calls| - 1].hashes == hashes;
      } else if RulesOf(before, hashes) != [] {
        var i :| 0 <= i < |before| && before[i].hashes == hashes;
        assert calls[i].hashes == hashes;
      }
    }
  }

  /** The answer of a call is yes exactly when an earlier call of the item had the same vector. */
  lemma {:induction false} AnswerIffSeenBefore<Rule>(calls: seq<Query<Rule>>, hashes: seq<nat>)
    ensures Known(Table(calls), hashes) <==> exists i :: 0 <= i < |calls| && calls[i].hashes == hashes
  {
    TableRefinesMap(calls);
    SomeCallHad(calls, hashes);
  }

  /** The inner loop of is_equivalent. */
  method SameHashes(stored: seq<nat>, hashes: seq<nat>) returns (matches: bool)
    requires |stored| == |hashes|
    ensures matches <==> stored == hashes
  {
    matches := true;
    var j := 0;
    while j < |hashes|
      invariant j <= |hashes|
      invariant matches <==> stored[..j] == hashes[..j]
    {
      if stored[j] != hashes[j] {
        matches := false;
      }
      j := j + 1;
    }
    assert stored[..j] == stored && hashes[..j] == hashes;
  }

  /** The part of current_run_state that is_equivalent updates. */
  class EquivalenceTable<Rule> {
    const hashCount: nat
    var equivalences: seq<Class<Rule>>
    ghost var calls: seq<Query<Rule>>

    ghost predicate Valid()
      reads this
    {
      equivalences == Table(calls) &&
      forall c :: c in equivalences ==> |c.hashes| == hashCount
    }

    constructor (hashCount: nat)
      ensures Valid() && this.hashCount == hashCount && calls == []
    {
      this.hashCount, equivalences, calls := hashCount, [], [];
    }

    /** The work item is over: the classes are freed. */
    method Reset()
      modifies this
      ensures Valid() && calls == []
    {
      equivalences, calls := [], [];
    }

    method IsEquivalent(hashes: seq<nat>, rule: Rule) returns (matches: bool)
      requires Valid() && |hashes| == hashCount
      modifies this
      ensures Valid() && calls == old(calls) + [Query(hashes, rule)]
      ensures matches <==> exists i :: 0 <= i < |old(calls)| && old(calls)[i].hashes == hashes
    {
      AnswerIffSeenBefore(calls, hashes);
      ghost var answered := calls + [Query(hashes, rule)];
      assert answered[..|answered| - 1] == calls;
      var i := 0;
      while i < |equivalences|
        invariant i <= Find(equivalences, hashes)
        invariant equivalences == old(equivalences) && calls == old(calls)
      {
        matches := SameHashes(equivalences[i].hashes, hashes);
        if matches {
          equivalences := equivalences[i := Class(hashes, equivalences[i].faults + [rule])];
          calls := answered;
          return;
        }
        i := i + 1;
      }
      equivalences := equivalences + [Class(hashes, [rule])];
      calls := answered;
      matches := false;
    }
  }
}

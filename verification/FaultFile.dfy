/** The fault-model parser: a file of directives becomes a tree of five levels of linked lists, built
    with one cursor for each level. */
module FaultFile {
  import opened Utils
  import opened Machine

  /** A classified line of the file, with its value. */
  datatype Directive =
    | Instructions(start: nat, end: nat)
    | Target(target: Machine.Target, force: bool, registers: set<nat>)
    | Flags
    | OpCodes(filter: Option<string>)
    | Lifespan(mode: LifespanMode, count: nat)
    | Operation(operation: Utils.Operation)
    | Masks(masks: seq<nat>)

  const LEVELS := 5
  const OPERATION_LEVEL := 4

  /** The level of a directive's node; a Masks line fills in an Operation's node. */
  function Level(d: Directive): (l: nat)
    ensures l <= LEVELS
  {
    match d
    case Instructions(_, _) => 0
    case Target(_, _, _) => 1
    case Flags => 1
    case OpCodes(_) => 2
    case Lifespan(_, _) => 3
    case Operation(_) => OPERATION_LEVEL
    case Masks(_) => LEVELS
  }

  /** The directive's own value is accepted. */
  predicate IsValid(d: Directive) {
    match d
    case Instructions(start, end) => start <= end
    case Flags => false
    case Lifespan(mode, count) => count > 0 ==> !mode.NoMode?
    case Operation(operation) => !operation.NotSet?
    case _ => true
  }

  /** A list element: its directive, an Operation's masks, its first child, its successor.  Pointers
      are positions in the order of allocation. */
  datatype Node = Node(directive: Directive, masks: Option<seq<nat>>, head: Option<nat>, next: Option<nat>)

  datatype Problem = BadValue | NoParent

  /** The parser's state: the nodes, the head of run_list, and the five cursors. */
  datatype Parse = Parse(nodes: seq<Node>, head: Option<nat>, cursors: seq<Option<nat>>) | Failed(problem: Problem)

  const EMPTY := Parse([], None, [None, None, None, None, None])

  /** The cursor of level l, which is not its parent's when the file skipped a level. */
  predicate InBounds(p: Parse) {
    p.Parse? ==>
      |p.cursors| == LEVELS && forall l :: 0 <= l < LEVELS && p.cursors[l].Some? ==> p.cursors[l].value < |p.nodes|
  }

  /** The new node at the end of its list, or as the first child of its parent. */
  function Linked(nodes: seq<Node>, last: Option<nat>, parent: nat, node: Node): (linked: seq<Node>)
    requires (last.Some? ==> last.value < |nodes|) && (last.None? ==> parent < |nodes|)
    ensures |linked| == |nodes| + 1
  {
    if last.Some? then nodes[last.value := nodes[last.value].(next := Some(|nodes|))] + [node]
    else nodes[parent := nodes[parent].(head := Some(|nodes|))] + [node]
  }

  function Attach(p: Parse, d: Directive): (r: Parse)
    requires p.Parse? && InBounds(p) && Level(d) < LEVELS
    ensures InBounds(r)
  {
    var l, new_ := Level(d), |p.nodes|;
    var node := Node(d, None, None, None);
    var cursors := if l + 1 < LEVELS then p.cursors[l := Some(new_)][l + 1 := None] else p.cursors[l := Some(new_)];
    if l > 0 && p.cursors[l - 1].None? then Failed(NoParent)
    else if l == 0 && p.cursors[0].None? then Parse(p.nodes + [node], Some(new_), cursors)
    else Parse(Linked(p.nodes, p.cursors[l], if l > 0 then p.cursors[l - 1].value else 0, node), p.head, cursors)
  }

  function Take(p: Parse, d: Directive): (r: Parse)
    requires InBounds(p)
    ensures InBounds(r)
  {
    if p.Failed? then p
    else if !IsValid(d) then Failed(BadValue)
    else if Level(d) < LEVELS then Attach(p, d)
    else if p.cursors[OPERATION_LEVEL].None? then Failed(NoParent)
    else
      var x := p.cursors[OPERATION_LEVEL].value;
      p.(nodes := p.nodes[x := p.nodes[x].(masks := Some(d.masks))])
  }

  /** The state after the directives. */
  function Parsed(doc: seq<Directive>): (p: Parse)
    ensures InBounds(p)
  {
    if doc == [] then EMPTY else Take(Parsed(doc[..|doc| - 1]), doc[|doc| - 1])
  }

  /** What the parser refuses: a line without the line it belongs under, a range that ends before it starts, a
      Flags line, a count without a mode, and an operation it does not know. */
  lemma {:induction false} RefusesIff(p: Parse, d: Directive)
    requires p.Parse? && InBounds(p)
    ensures Take(p, d).Failed? <==>
            match d
            case Instructions(start, end) => end < start
            case Target(_, _, _) => p.cursors[0].None?
            case Flags => true
            case OpCodes(_) => p.cursors[1].None?
            case Lifespan(mode, count) => p.cursors[2].None? || (count != 0 && mode.NoMode?)
            case Operation(operation) => p.cursors[3].None? || operation.NotSet?
            case Masks(_) => p.cursors[4].None?
  {
    hide Linked;
  }

  // ----- the tree -----

  /** Every pointer leads to a node allocated later. */
  predicate Forward(nodes: seq<Node>) {
    forall i :: 0 <= i < |nodes| ==>
      (nodes[i].head.Some? ==> i < nodes[i].head.value < |nodes|)
        && (nodes[i].next.Some? ==> i < nodes[i].next.value < |nodes|)
  }

  function Own(n: Node): seq<Directive> {
    [n.directive] + if n.masks.Some? then [Masks(n.masks.value)] else []
  }

  /** Preorder traversal of a list: each node, its masks, its children, then its successors. */
  function Listing(nodes: seq<Node>, s: Option<nat>): seq<Directive>
    requires Forward(nodes) && (s.Some? ==> s.value < |nodes|)
    decreases |nodes| - if s.Some? then s.value else |nodes|
  {
    if s.None? then []
    else Own(nodes[s.value]) + Listing(nodes, nodes[s.value].head) + Listing(nodes, nodes[s.value].next)
  }

  /** The traversal from s visits exactly the nodes from lo to hi - 1, in that order. */
  predicate Visits(nodes: seq<Node>, s: Option<nat>, lo: nat, hi: nat)
    requires hi <= |nodes|
    decreases hi - lo
  {
    if s.None? then lo == hi
    else
      s.value == lo < hi &&
      var mid := if nodes[lo].next.Some? then nodes[lo].next.value else hi;
      lo < mid <= hi && Visits(nodes, nodes[lo].head, lo + 1, mid) && Visits(nodes, nodes[lo].next, mid, hi)
  }

  function Owns(nodes: seq<Node>, lo: nat, hi: nat): seq<Directive>
    requires lo <= hi <= |nodes|
  {
    if lo == hi then [] else Owns(nodes, lo, hi - 1) + Own(nodes[hi - 1])
  }

  lemma {:induction false} OwnsSplit(nodes: seq<Node>, lo: nat, mid: nat, hi: nat)
    requires lo <= mid <= hi <= |nodes|
    ensures Owns(nodes, lo, hi) == Owns(nodes, lo, mid) + Owns(nodes, mid, hi)
  {
    if mid < hi {
      OwnsSplit(nodes, lo, mid, hi - 1);
    }
  }

  lemma {:induction false} ListingInOrder(nodes: seq<Node>, s: Option<nat>, lo: nat, hi: nat)
    requires Forward(nodes) && lo <= hi <= |nodes| && Visits(nodes, s, lo, hi)
    ensures Listing(nodes, s) == Owns(nodes, lo, hi)
    decreases hi - lo
  {
    if s.Some? {
      var mid := if nodes[lo].next.Some? then nodes[lo].next.value else hi;
      ListingInOrder(nodes, nodes[lo].head, lo + 1, mid);
      ListingInOrder(nodes, nodes[lo].next, mid, hi);
      OwnsSplit(nodes, lo, lo + 1, mid);
      OwnsSplit(nodes, lo, mid, hi);
      assert Owns(nodes, lo, lo + 1) == Own(nodes[lo]) by { assert Owns(nodes, lo, lo) == []; }
    }
  }

  /** The last node of the innermost list at depth d, going down from the last node of each list. */
  function Last(nodes: seq<Node>, s: Option<nat>, lo: nat, hi: nat, d: nat): (x: Option<nat>)
    requires lo <= hi <= |nodes| && Visits(nodes, s, lo, hi)
    ensures x.Some? ==> lo <= x.value < hi
    decreases hi - lo
  {
    if s.None? then None
    else if nodes[lo].next.Some? then Last(nodes, nodes[lo].next, nodes[lo].next.value, hi, d)
    else if d == 0 then Some(lo)
    else Last(nodes, nodes[lo].head, lo + 1, hi, d - 1)
  }

  lemma {:induction false} SameVisits(a: seq<Node>, b: seq<Node>, s: Option<nat>, lo: nat, hi: nat)
    requires lo <= hi <= |a| && hi <= |b| && Visits(a, s, lo, hi)
    requires forall i :: lo <= i < hi ==> a[i].head == b[i].head && a[i].next == b[i].next
    ensures Visits(b, s, lo, hi)
    ensures forall d: nat :: Last(a, s, lo, hi, d) == Last(b, s, lo, hi, d)
    decreases hi - lo
  {
    if s.Some? {
      var mid := if a[lo].next.Some? then a[lo].next.value else hi;
      SameVisits(a, b, a[lo].head, lo + 1, mid);
      SameVisits(a, b, a[lo].next, mid, hi);
      forall d: nat ensures Last(a, s, lo, hi, d) == Last(b, s, lo, hi, d) {
        if d > 0 && a[lo].next.None? {
          assert Last(a, a[lo].head, lo + 1, hi, d - 1) == Last(b, b[lo].head, lo + 1, hi, d - 1);
        }
      }
    }
  }

  /** The node, appended to the d-th innermost last list. */
  function WithNext(nodes: seq<Node>, x: nat, node: Node): seq<Node>
    requires x < |nodes|
  {
    nodes[x := nodes[x].(next := Some(|nodes|))] + [node]
  }

  function WithHead(nodes: seq<Node>, x: nat, node: Node): seq<Node>
    requires x < |nodes|
  {
    nodes[x := nodes[x].(head := Some(|nodes|))] + [node]
  }

  predicate IsLeaf(node: Node) {
    node.head.None? && node.next.None? && node.masks.None?
  }

  lemma {:induction false} NextAppends(nodes: seq<Node>, s: Option<nat>, lo: nat, d: nat, node: Node, j: nat)
    requires lo <= |nodes| && Visits(nodes, s, lo, |nodes|) && Last(nodes, s, lo, |nodes|, d).Some? && IsLeaf(node)
    ensures var n, x := |nodes|, Last(nodes, s, lo, |nodes|, d).value;
            var b := WithNext(nodes, x, node);
            && Visits(b, s, lo, n + 1)
            && Last(b, s, lo, n + 1, j) == if j < d then Last(nodes, s, lo, n, j) else if j == d then Some(n) else None
    decreases |nodes| - lo
  {
    var n, x := |nodes|, Last(nodes, s, lo, |nodes|, d).value;
    var b := WithNext(nodes, x, node);
    if nodes[lo].next.Some? {
      SameVisits(nodes, b, nodes[lo].head, lo + 1, nodes[lo].next.value);
      NextAppends(nodes, nodes[lo].next, nodes[lo].next.value, d, node, j);
    } else if d == 0 {
      SameVisits(nodes, b, nodes[lo].head, lo + 1, n);
    } else {
      NextAppends(nodes, nodes[lo].head, lo + 1, d - 1, node, if j > 0 then j - 1 else 0);
    }
  }

  lemma {:induction false} HeadAppends(nodes: seq<Node>, s: Option<nat>, lo: nat, d: nat, node: Node, j: nat)
    requires lo <= |nodes| && Visits(nodes, s, lo, |nodes|) && IsLeaf(node)
    requires Last(nodes, s, lo, |nodes|, d).Some? && Last(nodes, s, lo, |nodes|, d + 1).None?
    ensures var n, x := |nodes|, Last(nodes, s, lo, |nodes|, d).value;
            var b := WithHead(nodes, x, node);
            && x == n - 1 && Visits(b, s, lo, n + 1)
            && Last(b, s, lo, n + 1, j) == if j <= d then Last(nodes, s, lo, n, j) else if j == d + 1 then Some(n)
               else None
    decreases |nodes| - lo
  {
    var n, x := |nodes|, Last(nodes, s, lo, |nodes|, d).value;
    var b := WithHead(nodes, x, node);
    if nodes[lo].next.Some? {
      SameVisits(nodes, b, nodes[lo].head, lo + 1, nodes[lo].next.value);
      HeadAppends(nodes, nodes[lo].next, nodes[lo].next.value, d, node, j);
    } else if d == 0 {
      assert Last(nodes, s, lo, n, 1) == Last(nodes, nodes[lo].head, lo + 1, n, 0);
      FirstLast(nodes, nodes[lo].head, lo + 1, n);
    } else {
      assert Last(nodes, s, lo, n, d + 1) == Last(nodes, nodes[lo].head, lo + 1, n, d);
      HeadAppends(nodes, nodes[lo].head, lo + 1, d - 1, node, if j > 0 then j - 1 else 0);
    }
  }

  /** A list has a last node unless it is empty. */
  lemma {:induction false} FirstLast(nodes: seq<Node>, s: Option<nat>, lo: nat, hi: nat)
    requires lo <= hi <= |nodes| && Visits(nodes, s, lo, hi)
    ensures Last(nodes, s, lo, hi, 0).None? ==> s.None? && lo == hi
    decreases hi - lo
  {
    if s.Some? && nodes[lo].next.Some? {
      FirstLast(nodes, nodes[lo].next, nodes[lo].next.value, hi);
    }
  }

  // ----- documents that skip no level -----

  /** Each directive is at most one level below the one before it, and a Masks line comes right after
      its Operation. */
  predicate Fits(before: int, d: Directive) {
    Level(d) <= before + 1 && (Level(d) == LEVELS ==> before == OPERATION_LEVEL)
  }

  predicate FitsAt(doc: seq<Directive>, before: int, i: nat)
    requires i < |doc|
  {
    Fits(if i == 0 then before else Level(doc[i - 1]), doc[i])
  }

  /** Nested, right after a directive of the given level. */
  predicate NestedAfter(doc: seq<Directive>, before: int) {
    forall i :: 0 <= i < |doc| ==> FitsAt(doc, before, i)
  }

  predicate IsNested(doc: seq<Directive>) {
    NestedAfter(doc, -1)
  }

  predicate AllValid(doc: seq<Directive>) {
    forall i :: 0 <= i < |doc| ==> IsValid(doc[i])
  }

  /** The level of the last node added. */
  function Depth(doc: seq<Directive>): (l: int)
    ensures -1 <= l < LEVELS
  {
    if doc == [] then -1
    else if Level(doc[|doc| - 1]) == LEVELS then OPERATION_LEVEL
    else Level(doc[|doc| - 1])
  }

  /** Every cursor down to the depth is the last node of its list, in the last place of the tree, and
      there is nothing below the deepest; the tree is the document. */
  ghost predicate Tracks(p: Parse, doc: seq<Directive>) {
    && p.Parse? && InBounds(p) && Forward(p.nodes) && Visits(p.nodes, p.head, 0, |p.nodes|)
    && Owns(p.nodes, 0, |p.nodes|) == doc
    && (forall l: nat :: l <= Depth(doc) ==>
          p.cursors[l].Some? && p.cursors[l] == Last(p.nodes, p.head, 0, |p.nodes|, l))
    && Last(p.nodes, p.head, 0, |p.nodes|, (Depth(doc) + 1) as nat).None?
    && (Depth(doc) + 1 < LEVELS ==> p.cursors[Depth(doc) + 1].None?)
    && (doc != [] && doc[|doc| - 1].Operation? ==>
          p.cursors[OPERATION_LEVEL] == Some(|p.nodes| - 1) && p.nodes[|p.nodes| - 1].masks.None?)
  }

  lemma {:induction false} SameOwns(a: seq<Node>, b: seq<Node>, lo: nat, hi: nat)
    requires lo <= hi <= |a| && hi <= |b|
    requires forall i :: lo <= i < hi ==> a[i].directive == b[i].directive && a[i].masks == b[i].masks
    ensures Owns(a, lo, hi) == Owns(b, lo, hi)
  {
    if lo < hi {
      SameOwns(a, b, lo, hi - 1);
    }
  }

  lemma {:induction false} OwnsAppend(nodes: seq<Node>, b: seq<Node>, d: Directive)
    requires |b| == |nodes| + 1 && b[|nodes|] == Node(d, None, None, None)
    requires forall i :: 0 <= i < |nodes| ==> nodes[i].directive == b[i].directive && nodes[i].masks == b[i].masks
    ensures Owns(b, 0, |b|) == Owns(nodes, 0, |nodes|) + [d]
  {
    SameOwns(nodes, b, 0, |nodes|);
  }

  lemma {:induction false} DepthOf(doc: seq<Directive>, d: Directive)
    ensures Depth(doc + [d]) == if Level(d) == LEVELS then OPERATION_LEVEL else Level(d)
    ensures (doc + [d])[|doc + [d]| - 1] == d
  {
  }

  lemma {:induction false} TracksFirst(p: Parse, doc: seq<Directive>, d: Directive)
    requires Tracks(p, doc) && doc == [] && Level(d) == 0
    ensures Tracks(Attach(p, d), doc + [d])
  {
    FirstLast(p.nodes, p.head, 0, |p.nodes|);
    DepthOf(doc, d);
    var b := Attach(p, d).nodes;
    OwnsAppend(p.nodes, b, d);
  }

  lemma {:induction false} StaysForward(nodes: seq<Node>, x: nat, d: Directive)
    requires Forward(nodes) && x < |nodes|
    ensures var node := Node(d, None, None, None);
            && Forward(WithNext(nodes, x, node)) && Forward(WithHead(nodes, x, node))
            && Owns(WithNext(nodes, x, node), 0, |nodes| + 1) == Owns(nodes, 0, |nodes|) + [d]
            && Owns(WithHead(nodes, x, node), 0, |nodes| + 1) == Owns(nodes, 0, |nodes|) + [d]
  {
    hide Owns;
    OwnsAppend(nodes, WithNext(nodes, x, Node(d, None, None, None)), d);
    OwnsAppend(nodes, WithHead(nodes, x, Node(d, None, None, None)), d);
  }

  lemma {:induction false} TracksNext(p: Parse, doc: seq<Directive>, d: Directive)
    requires Tracks(p, doc) && Level(d) <= Depth(doc)
    ensures Tracks(Attach(p, d), doc + [d])
  {
    hide Visits, Last, Owns, Listing, IsValid, Depth, Forward;
    DepthOf(doc, d);
    var q, n, k := Attach(p, d), |p.nodes|, Level(d);
    var x, node := p.cursors[k].value, Node(d, None, None, None);
    assert p.cursors[k].Some? && (k > 0 ==> p.cursors[k - 1].Some?);
    assert q.nodes == WithNext(p.nodes, x, node);
    StaysForward(p.nodes, x, d);
    NextAppends(p.nodes, p.head, 0, k, node, k + 1);
    forall l: nat | l <= k
      ensures q.cursors[l].Some? && q.cursors[l] == Last(q.nodes, q.head, 0, n + 1, l)
    {
      NextAppends(p.nodes, p.head, 0, k, node, l);
    }
  }

  lemma {:induction false} TracksChild(p: Parse, doc: seq<Directive>, d: Directive)
    requires Tracks(p, doc) && 0 < Level(d) == Depth(doc) + 1 < LEVELS
    ensures Tracks(Attach(p, d), doc + [d])
  {
    hide Visits, Last, Owns, Listing, IsValid, Depth, Forward;
    DepthOf(doc, d);
    var q, n, k := Attach(p, d), |p.nodes|, Level(d);
    assert p.cursors[k - 1].Some? && p.cursors[k].None?;
    var x, node := p.cursors[k - 1].value, Node(d, None, None, None);
    assert q.nodes == WithHead(p.nodes, x, node);
    StaysForward(p.nodes, x, d);
    HeadAppends(p.nodes, p.head, 0, k - 1, node, k + 1);
    forall l: nat | l <= k
      ensures q.cursors[l].Some? && q.cursors[l] == Last(q.nodes, q.head, 0, n + 1, l)
    {
      HeadAppends(p.nodes, p.head, 0, k - 1, node, l);
    }
  }

  lemma {:induction false} TracksMasks(p: Parse, doc: seq<Directive>, d: Directive)
    requires Tracks(p, doc) && d.Masks? && doc != [] && doc[|doc| - 1].Operation?
    ensures Tracks(Take(p, d), doc + [d])
  {
    DepthOf(doc, d);
    var q, n := Take(p, d), |p.nodes|;
    SameVisits(p.nodes, q.nodes, p.head, 0, n);
    SameOwns(p.nodes, q.nodes, 0, n - 1);
    assert Owns(q.nodes, 0, n) == Owns(p.nodes, 0, n) + [d];
  }

  lemma {:induction false} PrefixNested(doc: seq<Directive>, d: Directive)
    ensures IsNested(doc + [d]) <==> IsNested(doc) && Fits(if doc == [] then -1 else Level(doc[|doc| - 1]), d)
    ensures AllValid(doc + [d]) <==> AllValid(doc) && IsValid(d)
  {
    var all := doc + [d];
    assert forall i :: 0 <= i < |doc| ==> all[i] == doc[i];
    assert all[|doc|] == d;
    assert forall i :: 0 <= i < |doc| ==> FitsAt(all, -1, i) == FitsAt(doc, -1, i);
    assert FitsAt(all, -1, |doc|) == Fits(if doc == [] then -1 else Level(doc[|doc| - 1]), d);
  }

  /** A document that skips no level, of valid directives, is parsed into the tree it describes. */
  lemma {:induction false} ParsesNested(doc: seq<Directive>)
    requires IsNested(doc) && AllValid(doc)
    ensures Tracks(Parsed(doc), doc)
  {
    hide Tracks, Attach, Fits, IsNested, IsValid;
    if doc == [] {
      TracksNothing();
    } else {
      var before, d := doc[..|doc| - 1], doc[|doc| - 1];
      assert before + [d] == doc;
      PrefixNested(before, d);
      ParsesNested(before);
      TakesNext(Parsed(before), before, d);
    }
  }

  lemma {:induction false} TakesNext(p: Parse, doc: seq<Directive>, d: Directive)
    requires Tracks(p, doc) && IsValid(d) && Fits(if doc == [] then -1 else Level(doc[|doc| - 1]), d)
    ensures Tracks(Take(p, d), doc + [d])
  {
    IsParse(p, doc);
    hide Tracks, Attach;
    if Level(d) == LEVELS {
      TracksMasks(p, doc, d);
    } else if doc == [] {
      TracksFirst(p, doc, d);
    } else if Level(d) <= Depth(doc) {
      TracksNext(p, doc, d);
    } else {
      TracksChild(p, doc, d);
    }
  }

  lemma {:induction false} IsParse(p: Parse, doc: seq<Directive>)
    requires Tracks(p, doc)
    ensures p.Parse?
  {
  }

  lemma {:induction false} TracksNothing()
    ensures Tracks(EMPTY, [])
  {
  }

  // ----- any document -----

  /** What every parse keeps: pointers go forward, from each level to itself or the next, and each
      cursor is on its own level. */
  predicate LeveledAt(nodes: seq<Node>, i: nat)
    requires i < |nodes| && Forward(nodes)
  {
    var n := nodes[i];
    && Level(n.directive) < LEVELS && IsValid(n.directive)
    && (n.head.Some? ==> Level(nodes[n.head.value].directive) == Level(n.directive) + 1)
    && (n.next.Some? ==> Level(nodes[n.next.value].directive) == Level(n.directive))
    && (n.masks.Some? ==> Level(n.directive) == OPERATION_LEVEL)
  }

  predicate IsLeveled(nodes: seq<Node>) {
    Forward(nodes) && forall i :: 0 <= i < |nodes| ==> LeveledAt(nodes, i)
  }

  predicate IsSound(p: Parse) {
    p.Parse? ==>
      && InBounds(p) && IsLeveled(p.nodes)
      && (p.head.Some? ==> p.head.value < |p.nodes| && Level(p.nodes[p.head.value].directive) == 0)
      && forall l :: 0 <= l < LEVELS && p.cursors[l].Some? ==> Level(p.nodes[p.cursors[l].value].directive) == l
  }

  lemma {:induction false} LinkLeveled(nodes: seq<Node>, x: nat, d: Directive, b: seq<Node>)
    requires IsLeveled(nodes) && x < |nodes| && Level(d) < LEVELS && IsValid(d)
    requires || (Level(d) == Level(nodes[x].directive) && b == WithNext(nodes, x, Node(d, None, None, None)))
             || (Level(d) == Level(nodes[x].directive) + 1 && b == WithHead(nodes, x, Node(d, None, None, None)))
    ensures IsLeveled(b) && |b| == |nodes| + 1 && b[|nodes|].directive == d
    ensures forall i :: 0 <= i < |nodes| ==> b[i].directive == nodes[i].directive
  {
    StaysForward(nodes, x, d);
    hide Level, IsValid, Forward;
    forall i | 0 <= i < |b| ensures LeveledAt(b, i) {
      if i < |nodes| {
        assert LeveledAt(nodes, i);
      }
    }
  }

  lemma {:induction false} AttachSound(p: Parse, d: Directive)
    requires p.Parse? && IsSound(p) && Level(d) < LEVELS && IsValid(d)
    ensures IsSound(Attach(p, d))
  {
    hide IsValid, IsLeveled;
    var k := Level(d);
    hide Level;
    if k > 0 && p.cursors[k - 1].None? {
    } else if p.cursors[k].Some? {
      LinkLeveled(p.nodes, p.cursors[k].value, d, Attach(p, d).nodes);
    } else if k == 0 {
      AloneLeveled(p.nodes, d);
    } else {
      LinkLeveled(p.nodes, p.cursors[k - 1].value, d, Attach(p, d).nodes);
    }
  }

  lemma {:induction false} AloneLeveled(nodes: seq<Node>, d: Directive)
    requires IsLeveled(nodes) && Level(d) < LEVELS && IsValid(d)
    ensures IsLeveled(nodes + [Node(d, None, None, None)])
  {
    hide Level, IsValid;
    var b := nodes + [Node(d, None, None, None)];
    assert Forward(b);
    forall i | 0 <= i < |b| ensures LeveledAt(b, i) {
      if i < |nodes| {
        assert LeveledAt(nodes, i);
      }
    }
  }

  lemma {:induction false} MasksSound(p: Parse, d: Directive)
    requires p.Parse? && IsSound(p) && d.Masks?
    ensures IsSound(Take(p, d))
  {
    assert Level(d) == LEVELS && IsValid(d);
    hide Level, IsValid;
    var q := Take(p, d);
    if q.Parse? {
      assert Forward(q.nodes);
      forall i | 0 <= i < |q.nodes| ensures LeveledAt(q.nodes, i) {
        assert LeveledAt(p.nodes, i);
      }
    }
  }

  lemma {:induction false} ParsedSound(doc: seq<Directive>)
    ensures IsSound(Parsed(doc))
  {
    hide Attach, IsValid, IsLeveled;
    if doc == [] {
      assert IsLeveled([]) by { EmptyLeveled(); }
    } else {
      ParsedSound(doc[..|doc| - 1]);
      var p, d := Parsed(doc[..|doc| - 1]), doc[|doc| - 1];
      if p.Parse? && IsValid(d) {
        if Level(d) < LEVELS {
          AttachSound(p, d);
        } else {
          MasksSound(p, d);
        }
      }
    }
  }

  lemma {:induction false} EmptyLeveled()
    ensures IsLeveled([])
  {
  }

  function LastLevel(doc: seq<Directive>, before: int): int {
    if doc == [] then before else Level(doc[|doc| - 1])
  }

  lemma {:induction false} NestedConcat(a: seq<Directive>, b: seq<Directive>, before: int)
    requires NestedAfter(a, before) && NestedAfter(b, LastLevel(a, before))
    ensures NestedAfter(a + b, before)
    ensures LastLevel(a + b, before) == LastLevel(b, LastLevel(a, before))
    ensures AllValid(a) && AllValid(b) ==> AllValid(a + b)
  {
    hide Level, IsValid, Fits;
    forall i | 0 <= i < |a + b| ensures FitsAt(a + b, before, i) {
      if i >= |a| {
        assert FitsAt(b, LastLevel(a, before), i - |a|);
      } else {
        assert FitsAt(a, before, i);
      }
    }
  }

  /** The traversal of a list on level l is nested, starts on level l, and does not rise above it. */
  lemma {:induction false} ListingNested(nodes: seq<Node>, s: Option<nat>, l: nat, before: int)
    requires IsLeveled(nodes) && l <= before + 1
    requires s.Some? ==> s.value < |nodes| && Level(nodes[s.value].directive) == l
    ensures NestedAfter(Listing(nodes, s), before) && AllValid(Listing(nodes, s))
    ensures LastLevel(Listing(nodes, s), before) >= l - 1
    decreases |nodes| - if s.Some? then s.value else |nodes|
  {
    if s.Some? {
      var n := nodes[s.value];
      assert LeveledAt(nodes, s.value);
      var own := Own(n);
      ListingNested(nodes, n.head, l + 1, LastLevel(own, before));
      NestedConcat(own, Listing(nodes, n.head), before);
      var upTo := own + Listing(nodes, n.head);
      ListingNested(nodes, n.next, l, LastLevel(upTo, before));
      NestedConcat(upTo, Listing(nodes, n.next), before);
    }
  }

  /** The file is parsed into a tree whose traversal gives the file back. */
  ghost predicate KeepsDocument(p: Parse, doc: seq<Directive>) {
    p.Parse? && IsSound(p) && Listing(p.nodes, p.head) == doc
  }

  /** The parser keeps the document exactly when it skips no level, each Masks line comes right after
      its Operation, and every value is valid.  A directive that skips a level is refused, or ends up
      under an older parent. */
  lemma {:induction false} KeepsDocumentIff(doc: seq<Directive>)
    ensures KeepsDocument(Parsed(doc), doc) <==> IsNested(doc) && AllValid(doc)
  {
    hide IsSound, Tracks, IsValid, Level, Fits;
    var p := Parsed(doc);
    ParsedSound(doc);
    if IsNested(doc) && AllValid(doc) {
      ParsesNested(doc);
      TracksListing(p, doc);
    }
    if KeepsDocument(p, doc) {
      SoundListing(p);
    }
  }

  lemma {:induction false} TracksListing(p: Parse, doc: seq<Directive>)
    requires Tracks(p, doc) && IsSound(p)
    ensures KeepsDocument(p, doc)
  {
    hide Level, IsValid;
    ListingInOrder(p.nodes, p.head, 0, |p.nodes|);
  }

  lemma {:induction false} SoundListing(p: Parse)
    requires p.Parse? && IsSound(p)
    ensures NestedAfter(Listing(p.nodes, p.head), -1) && AllValid(Listing(p.nodes, p.head))
  {
    ListingNested(p.nodes, p.head, 0, -1);
  }

  // ----- a stale cursor -----

  /** Two positions at the end, exchanged. */
  function Exchanged(s: Option<nat>, n: nat): Option<nat> {
    if s == Some(n) then Some(n + 1) else if s == Some(n + 1) then Some(n) else s
  }

  /** b and c are one tree, but for the positions of their last two nodes, which are leaves. */
  predicate AreExchanged(b: seq<Node>, c: seq<Node>, n: nat) {
    && |b| == |c| == n + 2 && IsLeaf(b[n]) && IsLeaf(b[n + 1]) && c[n] == b[n + 1] && c[n + 1] == b[n]
    && forall i :: 0 <= i < n ==> c[i] == b[i].(head := Exchanged(b[i].head, n), next := Exchanged(b[i].next, n))
  }

  lemma {:induction false} ExchangedListing(b: seq<Node>, c: seq<Node>, n: nat, s: Option<nat>)
    requires AreExchanged(b, c, n) && Forward(b) && Forward(c) && (s.Some? ==> s.value < n + 2)
    ensures Listing(c, Exchanged(s, n)) == Listing(b, s)
    decreases n + 2 - if s.Some? then s.value else n + 2
  {
    if s.Some? && s.value < n {
      ExchangedListing(b, c, n, b[s.value].head);
      ExchangedListing(b, c, n, b[s.value].next);
    }
  }

  /** Linking in one order or the other. */
  lemma {:induction false} LinksExchange(nodes: seq<Node>, x: nat, y: nat, d: Directive, e: Directive)
    requires Forward(nodes) && x < |nodes| && y < |nodes| && x != y
    requires nodes[x].next.None? && nodes[y].next.None?
    ensures var node, other := Node(d, None, None, None), Node(e, None, None, None);
            AreExchanged(WithNext(WithNext(nodes, x, node), y, other), WithNext(WithNext(nodes, y, other), x, node),
                         |nodes|)
  {
  }

  /** The last node of a list has no successor. */
  lemma {:induction false} LastHasNoNext(nodes: seq<Node>, s: Option<nat>, lo: nat, hi: nat, d: nat)
    requires lo <= hi <= |nodes| && Visits(nodes, s, lo, hi) && Last(nodes, s, lo, hi, d).Some?
    ensures nodes[Last(nodes, s, lo, hi, d).value].next.None?
    decreases hi - lo
  {
    if nodes[lo].next.Some? {
      LastHasNoNext(nodes, nodes[lo].next, nodes[lo].next.value, hi, d);
    } else if d > 0 {
      LastHasNoNext(nodes, nodes[lo].head, lo + 1, hi, d - 1);
    }
  }

  /** The parse that takes the range first, and the one that takes the operation first. */
  lemma {:induction false} TakesEither(p: Parse, doc: seq<Directive>, range: Directive, operation: Directive)
    requires Tracks(p, doc) && Depth(doc) == OPERATION_LEVEL && IsSound(p)
    requires range.Instructions? && IsValid(range) && operation.Operation? && IsValid(operation)
    ensures var late, early := Take(Take(p, range), operation), Take(Take(p, operation), range);
            && late.Parse? && early.Parse? && late.head == early.head == p.head && |p.nodes| > 0
            && AreExchanged(early.nodes, late.nodes, |p.nodes|)
            && (p.head.Some? ==> p.head.value < |p.nodes|)
  {
    hide Visits, Last, Owns, Forward, IsLeveled, AreExchanged;
    assert p.cursors[0].Some? && p.cursors[3].Some? && p.cursors[4].Some?;
    var x, y := p.cursors[4].value, p.cursors[0].value;
    assert x != y by { assert Level(p.nodes[x].directive) == 4 && Level(p.nodes[y].directive) == 0; }
    LastHasNoNext(p.nodes, p.head, 0, |p.nodes|, 4);
    LastHasNoNext(p.nodes, p.head, 0, |p.nodes|, 0);
    LinksExchange(p.nodes, x, y, operation, range);
    hide Depth, IsValid;
    TakesLate(p, range, operation);
    TakesEarly(p, range, operation);
  }

  lemma {:induction false} TakesLate(p: Parse, range: Directive, operation: Directive)
    requires p.Parse? && InBounds(p) && p.cursors[0].Some? && p.cursors[3].Some? && p.cursors[4].Some?
    requires range.Instructions? && IsValid(range) && operation.Operation? && IsValid(operation)
    ensures var late := Take(Take(p, range), operation);
            late.Parse? && late.head == p.head &&
            late.nodes == WithNext(WithNext(p.nodes, p.cursors[0].value, Node(range, None, None, None)),
                                   p.cursors[4].value,
                                   Node(operation, None, None, None))
  {
  }

  lemma {:induction false} TakesEarly(p: Parse, range: Directive, operation: Directive)
    requires p.Parse? && InBounds(p) && p.cursors[0].Some? && p.cursors[3].Some? && p.cursors[4].Some?
    requires range.Instructions? && IsValid(range) && operation.Operation? && IsValid(operation)
    ensures var early := Take(Take(p, operation), range);
            early.Parse? && early.head == p.head &&
            early.nodes == WithNext(WithNext(p.nodes, p.cursors[4].value, Node(operation, None, None, None)),
                                    p.cursors[0].value,
                                    Node(range, None, None, None))
  {
  }

  /** An Instructions line resets the target cursor only.  After any file that reached an operation, a
      second Instructions line and an Operation are both accepted; the Operation becomes the last one of
      the older lifespan, before the new range, so the tree is that of another file. */
  lemma {:induction false} StaleCursorMisplaces(doc: seq<Directive>, range: Directive, operation: Directive)
    requires IsNested(doc) && AllValid(doc) && Depth(doc) == OPERATION_LEVEL
    requires range.Instructions? && IsValid(range) && operation.Operation? && IsValid(operation)
    ensures var p := Parsed(doc + [range, operation]);
            && p.Parse? && Forward(p.nodes) && (p.head.Some? ==> p.head.value < |p.nodes|)
            && Listing(p.nodes, p.head) == doc + [operation, range]
            && !KeepsDocument(p, doc + [range, operation])
  {
    var early := doc + [operation, range];
    TwoMoreNested(doc, range, operation);
    hide Take, Tracks, Parsed, IsNested, AllValid, KeepsDocument, IsValid, Level, Depth, Forward, Listing,
         AreExchanged, IsSound;
    var p := Parsed(doc);
    ParsesNested(doc);
    ParsedSound(doc);
    TakesEither(p, doc, range, operation);
    ParsedTwo(doc, range, operation);
    ParsedTwo(doc, operation, range);
    KeepsDocumentIff(early);
    var e, l := Parsed(early), Parsed(doc + [range, operation]);
    KeepsMeans(e, early);
    ParsedForward(doc + [range, operation]);
    ExchangedListing(e.nodes, l.nodes, |p.nodes|, p.head);
    assert Exchanged(p.head, |p.nodes|) == p.head;
    SkipsLevels(doc, range, operation);
    KeepsDocumentIff(doc + [range, operation]);
  }

  lemma {:induction false} TwoMoreNested(doc: seq<Directive>, range: Directive, operation: Directive)
    requires IsNested(doc) && AllValid(doc) && Depth(doc) == OPERATION_LEVEL
    requires range.Instructions? && IsValid(range) && operation.Operation? && IsValid(operation)
    ensures IsNested(doc + [operation, range]) && AllValid(doc + [operation, range])
  {
    hide IsNested, AllValid;
    assert doc + [operation, range] == (doc + [operation]) + [range];
    PrefixNested(doc, operation);
    PrefixNested(doc + [operation], range);
  }

  lemma {:induction false} KeepsMeans(p: Parse, doc: seq<Directive>)
    requires KeepsDocument(p, doc)
    ensures p.Parse? && Forward(p.nodes) && (p.head.Some? ==> p.head.value < |p.nodes|)
    ensures Listing(p.nodes, p.head) == doc
  {
    hide Listing, Forward, LeveledAt;
  }

  lemma {:induction false} ParsedForward(doc: seq<Directive>)
    requires Parsed(doc).Parse?
    ensures Forward(Parsed(doc).nodes) && (Parsed(doc).head.Some? ==> Parsed(doc).head.value < |Parsed(doc).nodes|)
  {
    hide Forward, Parsed, LeveledAt;
    ParsedSound(doc);
  }

  lemma {:induction false} ParsedTwo(doc: seq<Directive>, d: Directive, e: Directive)
    ensures Parsed(doc + [d, e]) == Take(Take(Parsed(doc), d), e)
  {
    hide Take;
    var all := doc + [d, e];
    assert all[..|all| - 1] == doc + [d] && (doc + [d])[..|doc|] == doc;
  }

  lemma {:induction false} SkipsLevels(doc: seq<Directive>, d: Directive, e: Directive)
    requires d.Instructions? && e.Operation?
    ensures !IsNested(doc + [d, e])
  {
    assert !FitsAt(doc + [d, e], -1, |doc| + 1);
  }

  // ----- the parser itself -----

  lemma {:induction false} ParsedMore(doc: seq<Directive>, i: nat)
    requires i < |doc|
    ensures Parsed(doc[..i + 1]) == Take(Parsed(doc[..i]), doc[i])
    ensures Take(Parsed(doc[..i]), doc[i]).Failed? ==> Parsed(doc) == Take(Parsed(doc[..i]), doc[i])
    ensures Parsed(doc[..i]).Parse? && !IsValid(doc[i]) ==> Take(Parsed(doc[..i]), doc[i]) == Failed(BadValue)
  {
    hide Take;
    assert doc[..i + 1][..i] == doc[..i];
    TakeRefuses(Parsed(doc[..i]), doc[i]);
    if Parsed(doc[..i + 1]).Failed? {
      StaysFailed(doc, i + 1);
    }
  }

  lemma {:induction false} TakeRefuses(p: Parse, d: Directive)
    requires InBounds(p)
    ensures p.Parse? && !IsValid(d) ==> Take(p, d) == Failed(BadValue)
  {
  }

  lemma {:induction false} StaysFailed(doc: seq<Directive>, i: nat)
    requires i <= |doc| && Parsed(doc[..i]).Failed?
    ensures Parsed(doc) == Parsed(doc[..i])
    decreases |doc| - i
  {
    if i < |doc| {
      assert doc[..i + 1][..i] == doc[..i];
      StaysFailed(doc, i + 1);
    } else {
      assert doc[..i] == doc;
    }
  }

  function Cursors(range: Option<nat>, target: Option<nat>, filter: Option<nat>, lifespan: Option<nat>,
                   operation: Option<nat>): seq<Option<nat>>
  {
    [range, target, filter, lifespan, operation]
  }

  predicate PointsInto(c: Option<nat>, nodes: seq<Node>) {
    c.Some? ==> c.value < |nodes|
  }

  lemma {:induction false} CursorsPoint(p: Parse, nodes: seq<Node>, head: Option<nat>, range: Option<nat>,
                                        target: Option<nat>, filter: Option<nat>, lifespan: Option<nat>,
                                        operation: Option<nat>)
    requires p == Parse(nodes, head, Cursors(range, target, filter, lifespan, operation)) && InBounds(p)
    ensures PointsInto(range, nodes) && PointsInto(target, nodes) && PointsInto(filter, nodes)
    ensures PointsInto(lifespan, nodes) && PointsInto(operation, nodes)
  {
    assert p.cursors[0] == range && p.cursors[1] == target && p.cursors[2] == filter;
    assert p.cursors[3] == lifespan && p.cursors[4] == operation;
  }

  /** The state after one more directive, cursor by cursor. */
  lemma {:induction false} TakeByLevel(p: Parse, d: Directive, nodes: seq<Node>, head: Option<nat>,
                                       range: Option<nat>, target: Option<nat>, filter: Option<nat>,
                                       lifespan: Option<nat>, operation: Option<nat>)
    requires p == Parse(nodes, head, Cursors(range, target, filter, lifespan, operation)) && InBounds(p) && IsValid(d)
    requires PointsInto(range, nodes) && PointsInto(target, nodes) && PointsInto(filter, nodes)
    requires PointsInto(lifespan, nodes) && PointsInto(operation, nodes)
    ensures var new_, node := Some(|nodes|), Node(d, None, None, None);
            match d
            case Instructions(_, _) =>
              Take(p, d) == if range.None? then Parse(nodes + [node], new_,
                                                      Cursors(new_, None, filter, lifespan, operation))
                            else Parse(Linked(nodes, range, 0, node), head,
                                       Cursors(new_, None, filter, lifespan, operation))
            case Target(_, _, _) =>
              Take(p, d) == if range.None? then Failed(NoParent)
                            else Parse(Linked(nodes, target, range.value, node), head,
                                       Cursors(range, new_, None, lifespan, operation))
            case OpCodes(_) =>
              Take(p, d) == if target.None? then Failed(NoParent)
                            else Parse(Linked(nodes, filter, target.value, node), head,
                                       Cursors(range, target, new_, None, operation))
            case Lifespan(_, _) =>
              Take(p, d) == if filter.None? then Failed(NoParent)
                            else Parse(Linked(nodes, lifespan, filter.value, node), head,
                                       Cursors(range, target, filter, new_, None))
            case Operation(_) =>
              Take(p, d) == if lifespan.None? then Failed(NoParent)
                            else Parse(Linked(nodes, operation, lifespan.value, node), head,
                                       Cursors(range, target, filter, lifespan, new_))
            case Masks(masks) =>
              Take(p, d) == if operation.None? then Failed(NoParent)
                            else p.(nodes := nodes[operation.value := nodes[operation.value].(masks := Some(masks))])
            case Flags => true
  {
    hide Linked;
  }

  /** The local variables of the line loop, after i lines. */
  ghost predicate HasRead(doc: seq<Directive>, i: nat, nodes: seq<Node>, head: Option<nat>, range: Option<nat>,
                          target: Option<nat>, filter: Option<nat>, lifespan: Option<nat>, operation: Option<nat>)
  {
    i <= |doc| && Parsed(doc[..i]) == Parse(nodes, head, Cursors(range, target, filter, lifespan, operation))
  }

  lemma {:induction false} ReadsNothing(doc: seq<Directive>)
    ensures HasRead(doc, 0, [], None, None, None, None, None, None)
  {
    assert doc[..0] == [];
  }

  lemma {:induction false} ReadsPointInto(doc: seq<Directive>, i: nat, nodes: seq<Node>, head: Option<nat>,
                                          range: Option<nat>, target: Option<nat>, filter: Option<nat>,
                                          lifespan: Option<nat>, operation: Option<nat>)
    requires HasRead(doc, i, nodes, head, range, target, filter, lifespan, operation)
    ensures PointsInto(range, nodes) && PointsInto(target, nodes) && PointsInto(filter, nodes)
    ensures PointsInto(lifespan, nodes) && PointsInto(operation, nodes)
  {
    hide Parsed;
    CursorsPoint(Parsed(doc[..i]), nodes, head, range, target, filter, lifespan, operation);
  }

  lemma {:induction false} ReadsBadValue(doc: seq<Directive>, i: nat, nodes: seq<Node>, head: Option<nat>,
                                         range: Option<nat>, target: Option<nat>, filter: Option<nat>,
                                         lifespan: Option<nat>, operation: Option<nat>)
    requires i < |doc| && HasRead(doc, i, nodes, head, range, target, filter, lifespan, operation)
    ensures !IsValid(doc[i]) ==> Parsed(doc) == Failed(BadValue)
    ensures doc[i].Flags? ==> !IsValid(doc[i])
  {
    hide Parsed, Cursors, Take;
    ParsedMore(doc, i);
  }

  /** What the next line does to them. */
  lemma {:induction false} ReadsLine(doc: seq<Directive>, i: nat, nodes: seq<Node>, head: Option<nat>,
                                     range: Option<nat>, target: Option<nat>, filter: Option<nat>,
                                     lifespan: Option<nat>, operation: Option<nat>)
    requires i < |doc| && HasRead(doc, i, nodes, head, range, target, filter, lifespan, operation) && IsValid(doc[i])
    requires PointsInto(range, nodes) && PointsInto(target, nodes) && PointsInto(filter, nodes)
    requires PointsInto(lifespan, nodes) && PointsInto(operation, nodes)
    ensures var d, new_ := doc[i], Some(|nodes|);
            var node := Node(d, None, None, None);
            match d
            case Instructions(_, _) =>
              if range.None? then HasRead(doc, i + 1, nodes + [node], new_, new_, None, filter, lifespan, operation)
              else HasRead(doc, i + 1, Linked(nodes, range, 0, node), head, new_, None, filter, lifespan, operation)
            case Target(_, _, _) =>
              if range.None? then Parsed(doc) == Failed(NoParent)
              else HasRead(doc, i + 1, Linked(nodes, target, range.value, node), head, range, new_, None, lifespan,
                           operation)
            case OpCodes(_) =>
              if target.None? then Parsed(doc) == Failed(NoParent)
              else HasRead(doc, i + 1, Linked(nodes, filter, target.value, node), head, range, target, new_, None,
                           operation)
            case Lifespan(_, _) =>
              if filter.None? then Parsed(doc) == Failed(NoParent)
              else HasRead(doc, i + 1, Linked(nodes, lifespan, filter.value, node), head, range, target, filter,
                           new_, None)
            case Operation(_) =>
              if lifespan.None? then Parsed(doc) == Failed(NoParent)
              else HasRead(doc, i + 1, Linked(nodes, operation, lifespan.value, node), head, range, target, filter,
                           lifespan, new_)
            case Masks(masks) =>
              if operation.None? then Parsed(doc) == Failed(NoParent)
              else HasRead(doc, i + 1, nodes[operation.value := nodes[operation.value].(masks := Some(masks))], head,
                           range, target, filter, lifespan, operation)
            case Flags => true
  {
    hide Parsed, Cursors, Take, Linked, Level;
    ParsedMore(doc, i);
    var p := Parsed(doc[..i]);
    assert InBounds(p);
    TakeByLevel(p, doc[i], nodes, head, range, target, filter, lifespan, operation);
  }

  /** parse: the line loop with its five cursors.  A directive resets the cursor of the level below
      its own, and no other. */
  method ParseFile(doc: seq<Directive>) returns (p: Parse)
    ensures p == Parsed(doc)
    ensures KeepsDocument(p, doc) <==> IsNested(doc) && AllValid(doc)
  {
    hide KeepsDocument, IsNested, AllValid, Linked, IsValid, Parsed, InBounds, HasRead, Level, NestedAfter, Cursors;
    KeepsDocumentIff(doc);
    ReadsNothing(doc);
    var nodes: seq<Node>, head: Option<nat> := [], None;
    var range: Option<nat>, target: Option<nat>, filter: Option<nat> := None, None, None;
    var lifespan: Option<nat>, operation: Option<nat> := None, None;
    var i := 0;
    while i < |doc|
      invariant i <= |doc| && HasRead(doc, i, nodes, head, range, target, filter, lifespan, operation)
    {
      var d, new_ := doc[i], Some(|nodes|);
      var node := Node(d, None, None, None);
      ReadsBadValue(doc, i, nodes, head, range, target, filter, lifespan, operation);
      if d.Flags? || !IsValid(d) {
        return Failed(BadValue);
      }
      ReadsPointInto(doc, i, nodes, head, range, target, filter, lifespan, operation);
      ReadsLine(doc, i, nodes, head, range, target, filter, lifespan, operation);
      match d {
        case Instructions(_, _) =>
          if range.Some? {
            nodes := Linked(nodes, range, 0, node);
          } else {
            nodes, head := nodes + [node], new_;
          }
          range, target := new_, None;
        case Target(_, _, _) =>
          if range.None? {
            return Failed(NoParent);
          }
          nodes := Linked(nodes, target, range.value, node);
          target, filter := new_, None;
        case OpCodes(_) =>
          if target.None? {
            return Failed(NoParent);
          }
          nodes := Linked(nodes, filter, target.value, node);
          filter, lifespan := new_, None;
        case Lifespan(_, _) =>
          if filter.None? {
            return Failed(NoParent);
          }
          nodes := Linked(nodes, lifespan, filter.value, node);
          lifespan, operation := new_, None;
        case Operation(_) =>
          if lifespan.None? {
            return Failed(NoParent);
          }
          nodes := Linked(nodes, operation, lifespan.value, node);
          operation := new_;
        case Masks(masks) =>
          if operation.None? {
            return Failed(NoParent);
          }
          nodes := nodes[operation.value := nodes[operation.value].(masks := Some(masks))];
      }
      i := i + 1;
    }
    ReadsAll(doc, nodes, head, range, target, filter, lifespan, operation);
    return Parse(nodes, head, Cursors(range, target, filter, lifespan, operation));
  }

  lemma {:induction false} ReadsAll(doc: seq<Directive>, nodes: seq<Node>, head: Option<nat>, range: Option<nat>,
                                    target: Option<nat>, filter: Option<nat>, lifespan: Option<nat>,
                                    operation: Option<nat>)
    requires HasRead(doc, |doc|, nodes, head, range, target, filter, lifespan, operation)
    ensures Parsed(doc) == Parse(nodes, head, Cursors(range, target, filter, lifespan, operation))
  {
    hide Parsed, Cursors;
    assert doc[..|doc|] == doc;
  }
}

/** The table of nearest checkpoints that run_to_write_stats builds, for any placement function. */
module CheckpointTable {
  import opened Utils
  import opened Machine

  /** No value is returned for ever from some argument on, so the loop that looks for the next
      placement terminates. */
  ghost predicate Escapes(place: nat -> nat) {
    forall c: nat :: exists d: nat :: d > c && place(d) != place(c)
  }

  predicate Flagged(lines: seq<Line>, i: nat) {
    i < |lines| && lines[i].checkpoint
  }

  /** The greatest flagged line from 1 to i. */
  function NearestFlagged(lines: seq<Line>, i: nat): nat
    requires i < |lines|
  {
    if i == 0 then NO_CHECKPOINT else if lines[i].checkpoint then i else NearestFlagged(lines, i - 1)
  }

  function CountFlagged(lines: seq<Line>, i: nat): (n: nat)
    requires i < |lines|
    ensures n <= i
  {
    if i == 0 then 0 else CountFlagged(lines, i - 1) + if lines[i].checkpoint then 1 else 0
  }

  lemma {:induction false} NearestIsGreatest(lines: seq<Line>, i: nat, n: nat)
    requires n <= i < |lines| && (n > 0 ==> Flagged(lines, n)) && forall j :: n < j <= i ==> !Flagged(lines, j)
    ensures NearestFlagged(lines, i) == if n == 0 then NO_CHECKPOINT else n
  {
    if n < i {
      assert !Flagged(lines, i);
      NearestIsGreatest(lines, i - 1, n);
    }
  }

  lemma {:induction false} SameFlags(a: seq<Line>, b: seq<Line>, i: nat)
    requires i < |a| == |b| && forall j :: 0 < j <= i ==> a[j].checkpoint == b[j].checkpoint
    ensures CountFlagged(a, i) == CountFlagged(b, i) && NearestFlagged(a, i) == NearestFlagged(b, i)
  {
    if i > 0 {
      SameFlags(a, b, i - 1);
    }
  }

  /** Each line's entry is the greatest flagged line from 1 up to it, or NO_CHECKPOINT. */
  predicate IsTable(lines: seq<Line>, total: nat) {
    |lines| == total + 2 && forall i :: 0 < i <= total ==> lines[i].nearest == NearestFlagged(lines, i)
  }

  /** The line is one of the placements up to the last. */
  ghost predicate IsPlaced(place: nat -> nat, i: nat, last: nat) {
    exists c: nat :: 0 < c <= last && place(c) == i
  }

  ghost predicate RisesTo(place: nat -> nat, k: nat) {
    forall c: nat, d: nat :: 0 < c <= d <= k ==> place(c) <= place(d)
  }

  /** The flags set so far, in lines 1 to i - 1.  next is the argument whose placement is awaited;
      previous is the line flagged last. */
  ghost predicate FlagsBuilt(place: nat -> nat, lines: seq<Line>, i: nat, requested: nat, next: nat, previous: nat,
                              valid: nat)
  {
    && 0 < i < |lines| && valid < next && valid <= requested && valid == CountFlagged(lines, i - 1)
    && (forall j :: 0 < j < i && Flagged(lines, j) ==> IsPlaced(place, j, next - 1))
    && (valid == 0 ==> next == 1 && previous == place(1) >= i && forall j :: 0 < j < i ==> !Flagged(lines, j))
    && (valid > 0 ==> 0 < place(1) <= previous < i && Flagged(lines, previous)
                      && forall j :: previous < j < i ==> !Flagged(lines, j))
  }

  /** No placement was passed over, if they do not decrease. */
  ghost predicate NoneMissed(place: nat -> nat, lines: seq<Line>, i: nat, requested: nat, next: nat) {
    RisesTo(place, requested) ==>
      && (forall c: nat :: 0 < c < next && c <= requested ==> 0 < place(c) < i && Flagged(lines, place(c)))
      && (next <= requested ==> place(next) >= i)
  }

  ghost predicate EntriesBuilt(lines: seq<Line>, i: nat) {
    forall j :: 0 < j < i && j < |lines| ==> lines[j].nearest == NearestFlagged(lines, j)
  }

  /** What the loop keeps, when the first placement is at least 1. */
  ghost predicate Built(place: nat -> nat, lines: seq<Line>, i: nat, requested: nat, next: nat, previous: nat,
                        valid: nat)
  {
    && FlagsBuilt(place, lines, i, requested, next, previous, valid) && NoneMissed(place, lines, i, requested, next)
    && EntriesBuilt(lines, i)
  }

  lemma {:induction false} NothingBuilt(place: nat -> nat, lines: seq<Line>, requested: nat)
    requires |lines| > 1 && requested > 0 && place(1) > 0
    ensures Built(place, lines, 1, requested, 1, place(1), 0)
  {
  }

  /** One more line was written, and the entries before it are as they were. */
  lemma {:induction false} EntriesStay(a: seq<Line>, b: seq<Line>, i: nat)
    requires 0 < i < |a| == |b| && a[..i] == b[..i] && EntriesBuilt(a, i)
    requires b[i].nearest == NearestFlagged(b, i)
    ensures EntriesBuilt(b, i + 1)
  {
    forall j | 0 < j < i + 1 ensures b[j].nearest == NearestFlagged(b, j) {
      if j < i {
        assert forall l :: 0 <= l < i ==> a[l] == a[..i][l] == b[..i][l] == b[l];
        SameFlags(a, b, j);
      }
    }
  }

  /** Line i was flagged. */
  lemma {:induction false} FlagStep(place: nat -> nat, a: seq<Line>, b: seq<Line>, i: nat, requested: nat, next: nat,
                                    previous: nat, valid: nat, next1: nat)
    requires Built(place, a, i, requested, next, previous, valid)
    requires 0 < i && i + 1 < |a| == |b| && a[..i] == b[..i] && b[i].checkpoint && b[i].nearest == i
    requires valid < requested && place(next) == i && next < next1 && place(next1) != i
    requires forall c: nat :: next <= c < next1 ==> place(c) == i
    ensures Built(place, b, i + 1, requested, next1, i, valid + 1)
  {
    assert forall l :: 0 <= l < i ==> a[l] == a[..i][l] == b[..i][l] == b[l];
    SameFlags(a, b, i - 1);
    EntriesStay(a, b, i);
    forall j | 0 < j < i + 1 && Flagged(b, j) ensures IsPlaced(place, j, next1 - 1) {
      if j < i {
        assert Flagged(a, j);
      } else {
        assert place(next) == i;
      }
    }
  }

  /** Line i was not flagged: it is before the first placement, or another placement is awaited, or
      there are to be no more. */
  lemma {:induction false} PlainStep(place: nat -> nat, a: seq<Line>, b: seq<Line>, i: nat, requested: nat, next: nat,
                                     previous: nat, valid: nat)
    requires Built(place, a, i, requested, next, previous, valid)
    requires 0 < i && i + 1 < |a| == |b| && a[..i] == b[..i] && !b[i].checkpoint
    requires b[i].nearest == if valid < requested && i < place(1) then NO_CHECKPOINT else previous
    requires valid < requested ==> i < place(1) || place(next) != i
    requires valid >= requested ==> valid > 0
    ensures Built(place, b, i + 1, requested, next, previous, valid)
  {
    assert forall l :: 0 <= l < i ==> a[l] == a[..i][l] == b[..i][l] == b[l];
    SameFlags(a, b, i - 1);
    var last := if valid > 0 then previous else 0;
    forall j | last < j <= i ensures !Flagged(b, j) {
      if j < i {
        assert !Flagged(a, j);
      }
    }
    assert last > 0 ==> Flagged(a, last);
    NearestIsGreatest(b, i, last);
    EntriesStay(a, b, i);
    forall j | 0 < j < i + 1 && Flagged(b, j) ensures IsPlaced(place, j, next - 1) {
      assert Flagged(a, j);
    }
  }

  /** The lines before line i are all the same. */
  ghost predicate Filled(lines: seq<Line>, i: nat, line: Line) {
    forall j :: 0 < j < i && j < |lines| ==> lines[j] == line
  }

  lemma {:induction false} FillStep(a: seq<Line>, b: seq<Line>, i: nat, line: Line)
    requires 0 < i < |a| == |b| && Filled(a, i, line) && a[..i] == b[..i] && b[i] == line
    ensures Filled(b, i + 1, line)
  {
    assert forall l :: 0 <= l < i ==> a[l] == a[..i][l] == b[..i][l] == b[l];
  }

  lemma {:induction false} NothingFilled(lines: seq<Line>)
    ensures Filled(lines, 1, BLANK_LINE) && Filled(lines, 1, BLANK_LINE.(nearest := 0))
  {
  }

  lemma {:induction false} AllFilled(lines: seq<Line>, total: nat, line: Line)
    requires |lines| == total + 2 && Filled(lines, total + 1, line)
    ensures forall i :: 0 < i <= total ==> lines[i] == line
  {
  }

  /** What the loop leaves of the table.  It is right exactly when the first placement is at least 1;
      then the flagged lines are placements, their number is the reported one and at most the request,
      and placements that rise up to an existing line are all flagged.  Otherwise line 0 is named by
      every entry. */
  ghost predicate IsBuilt(place: nat -> nat, lines: seq<Line>, total: nat, requested: nat, valid: nat)
    requires |lines| == total + 2
  {
    && (IsTable(lines, total) <==> place(1) >= 1)
    && (place(1) == 0 ==> forall i :: 0 < i <= total ==> lines[i] == BLANK_LINE.(nearest := 0))
    && (place(1) >= 1 ==>
          && valid == CountFlagged(lines, total) <= requested
          && (forall i :: 0 < i <= total && lines[i].checkpoint ==> exists c: nat :: 0 < c && place(c) == i)
          && (RisesTo(place, requested) && place(requested) <= total ==>
                forall c: nat :: 0 < c <= requested ==> 0 < place(c) <= total && lines[place(c)].checkpoint))
  }

  lemma {:induction false} TableBuilt(place: nat -> nat, lines: seq<Line>, total: nat, requested: nat, next: nat,
                                      previous: nat, valid: nat)
    requires |lines| == total + 2 && total > 0
    requires place(1) > 0 ==> Built(place, lines, total + 1, requested, next, previous, valid)
    requires place(1) == 0 ==> Filled(lines, total + 1, BLANK_LINE.(nearest := 0))
    ensures IsBuilt(place, lines, total, requested, valid)
  {
    if place(1) == 0 {
      assert lines[1].nearest == 0 && NearestFlagged(lines, 1) == NO_CHECKPOINT;
    } else {
      forall i | 0 < i <= total && lines[i].checkpoint ensures exists c: nat :: 0 < c && place(c) == i {
        assert Flagged(lines, i);
      }
    }
  }

  ghost function Escape(place: nat -> nat, c: nat): (d: nat)
    requires Escapes(place)
    ensures d > c && place(d) != place(c)
  {
    var d: nat :| d > c && place(d) != place(c);
    d
  }

  /** The loop of run_to_write_stats over the lines.  place(c) is the c-th placement; total is the
      number of lines, and range that of the lines to be faulted.  None: the tool ends the process.
      An array is the right table exactly when the first placement is at least 1. */
  method BuildTable(place: nat -> nat, total: nat, range: nat, fromCheckpoint: bool, requested: nat, lines: array<Line>)
    returns (valid: Option<nat>)
    requires Escapes(place) && lines.Length == total + 2
    modifies lines
    ensures valid.None? <==> total == 0 || range == 0 || (fromCheckpoint && requested == 0)
    ensures lines[0] == old(lines[0]) && lines[total + 1] == old(lines[total + 1])
    ensures valid.Some? && !fromCheckpoint ==> valid == Some(0) && forall i :: 0 < i <= total ==> lines[i] == BLANK_LINE
    ensures valid.Some? && fromCheckpoint ==> IsBuilt(place, lines[..], total, requested, valid.value)
  {
    hide Built, IsBuilt, Escapes, Filled;
    if total == 0 || range == 0 {
      return None;
    }
    var nextCount, validCount := 1, 0;
    var first, next, previous := 0, 0, 0;
    if fromCheckpoint {
      if requested < 1 {
        return None;
      }
      first := place(1);
      next := first;
      previous := first;
      if first > 0 {
        NothingBuilt(place, lines[..], requested);
      }
    }
    var i := 1;
    NothingFilled(lines[..]);
    while i < total + 1
      invariant 1 <= i <= total + 1 && lines[0] == old(lines[0]) && lines[total + 1] == old(lines[total + 1])
      invariant !fromCheckpoint ==> validCount == 0 && Filled(lines[..], i, BLANK_LINE)
      invariant fromCheckpoint ==> first == place(1) && next == place(nextCount)
      invariant fromCheckpoint && first > 0 ==>
                  Built(place, lines[..], i, requested, nextCount, previous, validCount)
      invariant fromCheckpoint && first == 0 ==>
                  next == previous == validCount == 0 && Filled(lines[..], i, BLANK_LINE.(nearest := 0))
    {
      ghost var was := lines[..];
      lines[i] := BLANK_LINE;
      if fromCheckpoint {
        if validCount < requested {
          if i >= first {
            if i == next {
              lines[i] := BLANK_LINE.(nearest := i, checkpoint := true);
              ghost var nextWas, previousWas := nextCount, previous;
              ghost var d := Escape(place, nextCount);
              while i == next
                invariant nextWas <= nextCount <= d && next == place(nextCount)
                invariant forall c: nat :: nextWas <= c < nextCount ==> place(c) == i
                invariant i == next ==> nextCount < d
                invariant i != next ==> nextCount > nextWas && previous == i
                decreases d - nextCount
              {
                nextCount := nextCount + 1;
                previous := next;
                next := place(nextCount);
              }
              FlagStep(place, was, lines[..], i, requested, nextWas, previousWas, validCount, nextCount);
              validCount := validCount + 1;
            } else {
              lines[i] := BLANK_LINE.(nearest := previous);
            }
          }
        } else {
          lines[i] := BLANK_LINE.(nearest := previous);
        }
        if first > 0 && !lines[i].checkpoint {
          PlainStep(place, was, lines[..], i, requested, nextCount, previous, validCount);
        }
      }
      if !fromCheckpoint || first == 0 {
        FillStep(was, lines[..], i, lines[i]);
      }
      i := i + 1;
    }
    if fromCheckpoint {
      TableBuilt(place, lines[..], total, requested, nextCount, previous, validCount);
    } else {
      AllFilled(lines[..], total, BLANK_LINE);
    }
    valid := Some(validCount);
  }
}

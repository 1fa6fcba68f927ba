/** Where the checkpoints are placed, over the reals: the float arithmetic of ease_out is replaced by
    any function with its shape. */
module Placement {
  import opened CheckpointTable

  /** What is used of ease_out on [0, 1]: it runs from 0 to 1, never decreases, stays on or above the
      diagonal, and is nowhere steeper than EASE_OUT_POWER, 5/4. */
  ghost predicate IsEase(f: real -> real) {
    && f(0.0) == 0.0 && f(1.0) == 1.0
    && (forall x: real :: 0.0 <= x <= 1.0 ==> f(x) >= x)
    && (forall x: real, y: real :: 0.0 <= x <= y <= 1.0 ==> f(x) <= f(y) <= f(x) + 1.25 * (y - x))
  }

  /** The c-th of the k + 1 even steps from 0 to 1. */
  function Share(c: nat, k: nat): real {
    c as real / (k + 1) as real
  }

  /** The whole lines in a share x of n lines. */
  function Lines(x: real, n: nat): int {
    (x * n as real).Floor
  }

  /** The line of the c-th of k checkpoints, n lines being faulted from line min on; less min - 1. */
  function Offset(f: real -> real, c: nat, k: nat, n: nat): int {
    if k >= n then c else Lines(f(Share(c, k)), n)
  }

  /** The whole lines in 5/4 of an even share. */
  function LargestStep(k: nat, n: nat): int {
    5 * n / (4 * (k + 1))
  }

  /** get_next_checkpoint_number, where it does not wrap around. */
  function Place(f: real -> real, c: nat, k: nat, n: nat, min: nat): int {
    Offset(f, c, k, n) + min - 1
  }

  lemma {:induction false} ShareBounds(c: nat, k: nat)
    requires c <= k + 1
    ensures 0.0 <= Share(c, k) <= 1.0 && (c == k + 1 ==> Share(c, k) == 1.0)
  {
  }

  lemma {:induction false} FloorMonotone(x: real, y: real)
    requires x <= y
    ensures x.Floor <= y.Floor
  {
  }

  lemma {:induction false} FloorOfSum(x: real, d: real, y: real)
    requires x <= y <= x + d && d >= 0.0
    ensures y.Floor - x.Floor <= d.Floor + 1
  {
  }

  lemma {:induction false} MulMonotone(x: real, y: real, n: real)
    requires x <= y && n >= 0.0
    ensures x * n <= y * n
  {
  }

  lemma {:induction false} SharesOrdered(c: nat, d: nat, k: nat)
    requires c <= d
    ensures Share(c, k) <= Share(d, k)
  {
    assert (Share(d, k) - Share(c, k)) * (k + 1) as real == (d - c) as real >= 0.0;
  }

  lemma {:induction false} NextShare(c: nat, k: nat)
    ensures Share(c + 1, k) - Share(c, k) == Share(1, k) > 0.0
  {
  }

  lemma {:induction false} EaseAt(f: real -> real, x: real, y: real)
    requires IsEase(f) && 0.0 <= x <= y <= 1.0
    ensures 0.0 <= x <= f(x) <= f(y) <= f(x) + 1.25 * (y - x)
  {
  }

  lemma {:induction false} LinesRise(x: real, y: real, n: nat)
    requires 0.0 <= x <= y
    ensures 0 <= Lines(x, n) <= Lines(y, n)
  {
    MulMonotone(x, y, n as real);
    MulMonotone(0.0, x, n as real);
    FloorMonotone(x * n as real, y * n as real);
    FloorMonotone(0.0, x * n as real);
  }

  lemma {:induction false} LinesGap(x: real, y: real, step: real, n: nat)
    requires x <= y <= x + step && step >= 0.0
    ensures Lines(y, n) - Lines(x, n) <= Lines(step, n) + 1
  {
    var r := n as real;
    MulMonotone(x, y, r);
    MulMonotone(y, x + step, r);
    MulMonotone(0.0, step, r);
    Distribute(x, step, r);
    FloorOfSum(x * r, step * r, y * r);
  }

  lemma {:induction false} Distribute(x: real, y: real, r: real)
    ensures (x + y) * r == x * r + y * r
  {
  }

  /** Placements do not decrease up to the one after the last. */
  lemma {:induction false} PlacesRise(f: real -> real, c: nat, d: nat, k: nat, n: nat)
    requires IsEase(f) && c <= d <= k + 1
    ensures 0 <= Offset(f, c, k, n) <= Offset(f, d, k, n)
  {
    hide IsEase, Share, Lines;
    if k < n {
      ShareBounds(c, k);
      ShareBounds(d, k);
      SharesOrdered(c, d, k);
      EaseAt(f, Share(c, k), Share(d, k));
      LinesRise(f(Share(c, k)), f(Share(d, k)), n);
    }
  }

  /** The c-th of k + 1 even shares of n lines. */
  function EvenShare(c: nat, k: nat, n: nat): nat {
    c * n / (k + 1)
  }

  /** Every placement is at least its even share of the lines. */
  lemma {:induction false} PlaceIsAhead(f: real -> real, c: nat, k: nat, n: nat)
    requires IsEase(f) && c <= k + 1
    ensures Offset(f, c, k, n) >= if k < n then EvenShare(c, k, n) else c
    ensures Offset(f, c, k, n) >= c
  {
    if k < n {
      ShareBounds(c, k);
      EaseAt(f, Share(c, k), Share(c, k));
      hide IsEase, Lines, Share, EvenShare;
      LinesRise(Share(c, k), f(Share(c, k)), n);
      LinesOfShare(c, k, n);
      ShareIsAhead(c, k, n);
    }
  }

  lemma {:induction false} LinesOfShare(c: nat, k: nat, n: nat)
    ensures Lines(Share(c, k), n) == EvenShare(c, k, n)
  {
    var m, x := (k + 1) as real, Share(c, k);
    assert x * m == c as real by { assert (c as real / m) * m == c as real; }
    hide Share;
    assert x * n as real * m == n as real * (x * m);
    AsRealProduct(c, n);
    FloorOfQuotient(x * n as real, c * n, k + 1);
  }

  lemma {:induction false} ShareIsAhead(c: nat, k: nat, n: nat)
    requires k < n
    ensures EvenShare(c, k, n) >= c
  {
    ProductRises(c, k + 1, n);
    QuotientRises(c * n, c, k + 1);
  }

  lemma {:induction false} ProductRises(c: nat, a: nat, b: nat)
    requires a <= b
    ensures c * a <= c * b
  {
  }

  lemma {:induction false} QuotientRises(a: nat, c: nat, b: nat)
    requires b > 0 && c * b <= a
    ensures a / b >= c
  {
    DivideBetween(a, b);
  }

  /** The first placement is at most 5/4 of an even share. */
  lemma {:induction false} FirstIsNear(f: real -> real, k: nat, n: nat)
    requires IsEase(f) && k < n
    ensures Offset(f, 1, k, n) <= LargestStep(k, n)
  {
    ShareBounds(1, k);
    EaseAt(f, 0.0, Share(1, k));
    assert f(0.0) == 0.0;
    hide IsEase, Share, Lines, LargestStep;
    LinesRise(f(Share(1, k)), 1.25 * Share(1, k), n);
    LinesOfStep(k, n);
  }

  /** The placement after the last is the last line to be faulted; with a checkpoint for every line,
      the c-th placement is the c-th line. */
  lemma {:induction false} PlacesCover(f: real -> real, c: nat, k: nat, n: nat)
    requires IsEase(f)
    ensures k < n ==> Offset(f, k + 1, k, n) == n
    ensures k >= n ==> Offset(f, c, k, n) == c
  {
    if k < n {
      ShareBounds(k + 1, k);
      assert Lines(1.0, n) == n;
    }
  }

  /** Two neighbouring placements are at most 5/4 of an even share apart, and one more line. */
  lemma {:induction false} GapIsBounded(f: real -> real, c: nat, k: nat, n: nat)
    requires IsEase(f) && c <= k < n
    ensures Offset(f, c + 1, k, n) - Offset(f, c, k, n) <= LargestStep(k, n) + 1
  {
    hide IsEase, Share, Lines, LargestStep;
    ShareBounds(c, k);
    ShareBounds(c + 1, k);
    NextShare(c, k);
    EaseAt(f, Share(c, k), Share(c + 1, k));
    LinesGap(f(Share(c, k)), f(Share(c + 1, k)), 1.25 * Share(1, k), n);
    LinesOfStep(k, n);
  }

  lemma {:induction false} LinesOfStep(k: nat, n: nat)
    ensures Lines(1.25 * Share(1, k), n) == LargestStep(k, n)
  {
    hide Share;
    var d := 1.25 * Share(1, k) * n as real;
    ShareScaled(n, k, d);
    FloorOfQuotient(d, 5 * n, 4 * (k + 1));
  }

  lemma {:induction false} ShareScaled(n: nat, k: nat, d: real)
    requires d == 1.25 * Share(1, k) * n as real
    ensures d * (4 * (k + 1)) as real == (5 * n) as real
  {
    var m, s := (k + 1) as real, Share(1, k);
    assert s * m == 1.0 by { assert (1.0 / m) * m == 1.0; }
    assert d * (4.0 * m) == 1.25 * 4.0 * n as real * (s * m);
  }

  lemma {:induction false} FloorOfQuotient(d: real, a: nat, b: nat)
    requires b > 0 && d * b as real == a as real
    ensures d.Floor == a / b
  {
    var q := a / b;
    DivideBetween(a, b);
    AsRealProduct(q, b);
    AsRealProduct(q + 1, b);
    Between(d, q, b as real);
  }

  lemma {:induction false} DivideBetween(a: nat, b: nat)
    requires b > 0
    ensures (a / b) * b <= a < (a / b + 1) * b
  {
  }

  lemma {:induction false} AsRealProduct(x: nat, y: nat)
    ensures x as real * y as real == (x * y) as real
  {
  }

  lemma {:induction false} CancelFactor(x: real, y: real, b: real)
    requires b > 0.0
    ensures x * b <= y * b <==> x <= y
  {
  }

  lemma {:induction false} Between(d: real, q: int, b: real)
    requires b > 0.0 && q as real * b <= d * b < (q + 1) as real * b
    ensures d.Floor == q
  {
    CancelFactor(q as real, d, b);
    CancelFactor((q + 1) as real, d, b);
  }

  // ----- the placement itself -----

  /** The placement of the c-th checkpoint is the last line its eased share of the lines reaches. */
  lemma {:induction false} PlaceIsEased(f: real -> real, c: nat, k: nat, n: nat, min: nat, m: int)
    requires 0 < c <= k < n
    ensures Place(f, c, k, n, min) - min + 1 >= m <==> f(c as real / (k + 1) as real) * n as real >= m as real
  {
    FloorReaches(f(Share(c, k)) * n as real, m);
  }

  lemma {:induction false} FloorReaches(x: real, m: int)
    ensures x.Floor >= m <==> x >= m as real
  {
  }

  /** An eased share that is larger by a line gives a later placement. */
  lemma {:induction false} LaterShareLaterPlace(f: real -> real, c: nat, d: nat, k: nat, n: nat, min: nat)
    requires 0 < c <= k < n && 0 < d <= k
    requires f(d as real / (k + 1) as real) * n as real >= f(c as real / (k + 1) as real) * n as real + 1.0
    ensures Place(f, d, k, n, min) > Place(f, c, k, n, min)
  {
    PlaceIsEased(f, c, k, n, min, Place(f, c, k, n, min) - min + 1);
    PlaceIsEased(f, d, k, n, min, Place(f, c, k, n, min) - min + 2);
  }

  // ----- the lines to be faulted -----

  datatype Range = Range(start: nat, end: nat)

  /** fault_it: the least and greatest line of the ranges, and the number of checkpoints cut down to
      the number of lines between them. */
  method FaultRange(ranges: seq<Range>, total: nat, requested: nat) returns (min: nat, max: nat, clipped: nat)
    requires ranges != [] && forall r :: r in ranges ==> r.start <= r.end
    ensures min <= max && 1 <= max
    ensures forall r :: r in ranges ==> min <= r.start && r.end <= max
    ensures min == total || exists r :: r in ranges && r.start == min
    ensures max == 1 || exists r :: r in ranges && r.end == max
    ensures clipped == if requested > max - min + 1 then max - min + 1 else requested
  {
    min, max := total, 1;
    var i := 0;
    while i < |ranges|
      invariant i <= |ranges| && 1 <= max
      invariant forall j :: 0 <= j < i ==> min <= ranges[j].start && ranges[j].end <= max
      invariant min == total || exists j :: 0 <= j < i && ranges[j].start == min
      invariant max == 1 || exists j :: 0 <= j < i && ranges[j].end == max
    {
      if ranges[i].start < min {
        min := ranges[i].start;
      }
      if ranges[i].end > max {
        max := ranges[i].end;
      }
      i := i + 1;
    }
    assert ranges[0] in ranges;
    var diff := max - min + 1;
    clipped := if requested > diff then diff else requested;
  }

  /** The placements, as the table builder calls for them.  The source's behaviour past the (k+1)-th
      is not specified; what matters is that they escape. */
  ghost predicate PlacesFor(place: nat -> nat, f: real -> real, k: nat, min: nat, max: nat) {
    min <= max && forall c: nat :: 0 < c <= k + 1 ==> place(c) == Place(f, c, k, max - min + 1, min)
  }

  /** With these placements the table has its checkpoints where they were meant: the placements rise
      from at least the first line to be faulted to at most the last, so all of them are flagged when
      the last line to be faulted exists.  The first is at least 1 if the range starts there, or if there
      are two lines to each share; it is line 0 if the range starts there and there are fewer than 8/5. */
  lemma {:induction false} PlacementsFit(place: nat -> nat, f: real -> real, k: nat, min: nat, max: nat)
    requires IsEase(f) && PlacesFor(place, f, k, min, max) && 1 <= k <= max - min + 1
    ensures RisesTo(place, k) && min <= place(1) && place(k) <= max
    ensures min >= 1 || 2 * (k + 1) <= max + 1 ==> place(1) >= 1
    ensures min == 0 && 5 * (max + 1) < 8 * (k + 1) ==> place(1) == 0
    ensures k == max - min + 1 ==> forall c: nat :: 0 < c <= k ==> place(c) == min + c - 1
  {
    var n := max - min + 1;
    forall c: nat, d: nat | 0 < c <= d <= k ensures place(c) <= place(d) {
      PlacesRise(f, c, d, k, n);
    }
    PlaceIsAhead(f, 1, k, n);
    PlacesCover(f, k, k, n);
    if k < n {
      PlacesRise(f, k, k + 1, k, n);
      FirstIsNear(f, k, n);
    }
    forall c: nat | 0 < c <= k && k == n ensures place(c) == min + c - 1 {
      PlacesCover(f, c, k, n);
    }
    hide IsEase, Offset;
    if 2 * (k + 1) <= n && k < n {
      QuotientRises(n, 2, k + 1);
    }
    if 5 * n < 8 * (k + 1) {
      LessThanTwo(5 * n, 4 * (k + 1));
    }
  }

  lemma {:induction false} LessThanTwo(a: nat, b: nat)
    requires 0 < b && a < 2 * b
    ensures a / b < 2
  {
  }
}

/** The curve that places the checkpoints, over the reals. */
module EaseOut {
  import opened Placement

  // ----- products, one law at a time -----

  function Times(x: real, y: real): real {
    x * y
  }

  lemma {:induction false} Commutes(x: real, y: real)
    ensures Times(x, y) == Times(y, x)
  {
  }

  lemma {:induction false} Associates(x: real, y: real, z: real)
    ensures Times(x, Times(y, z)) == Times(Times(x, y), z)
  {
  }

  lemma {:induction false} Exchanges(x: real, y: real, z: real)
    ensures Times(x, Times(y, z)) == Times(y, Times(x, z))
  {
    hide Times;
    Associates(x, y, z);
    Associates(y, x, z);
    Commutes(x, y);
  }

  lemma {:induction false} Swaps(x: real, y: real, p: real, q: real)
    ensures Times(Times(x, y), Times(p, q)) == Times(Times(x, p), Times(y, q))
  {
    hide Times;
    Associates(x, y, Times(p, q));
    Exchanges(y, p, q);
    Associates(x, p, Times(y, q));
  }

  lemma {:induction false} Adds(x: real, y: real, z: real)
    ensures Times(x, y + z) == Times(x, y) + Times(x, z) && Times(x, y - z) == Times(x, y) - Times(x, z)
  {
  }

  lemma {:induction false} AddsLeft(x: real, y: real, z: real)
    ensures Times(x - y, z) == Times(x, z) - Times(y, z)
  {
  }

  lemma {:induction false} OneAndZero(x: real)
    ensures Times(1.0, x) == x && Times(0.0, x) == 0.0
  {
  }

  lemma {:induction false} Rises(x: real, y: real, z: real)
    requires z >= 0.0
    ensures x <= y ==> Times(x, z) <= Times(y, z)
    ensures x < y && z > 0.0 ==> Times(x, z) < Times(y, z)
  {
    AddsLeft(y, x, z);
    NotNegative(y - x, z);
  }

  lemma {:induction false} NotNegative(x: real, y: real)
    ensures x >= 0.0 && y >= 0.0 ==> Times(x, y) >= 0.0
    ensures x > 0.0 && y > 0.0 ==> Times(x, y) > 0.0
  {
  }

  lemma {:induction false} Scales(x: real, z: real)
    ensures Times(1.25 * x, z) == 1.25 * Times(x, z)
  {
  }

  lemma {:induction false} Cancels(x: real, y: real, q: real)
    requires q > 0.0
    ensures Times(x, q) <= Times(y, q) <==> x <= y
    ensures Times(x, q) == Times(y, q) <==> x == y
  {
    hide Times;
    Rises(x, y, q);
    Rises(y, x, q);
  }

  // ----- powers -----

  function Square(x: real): real {
    Times(x, x)
  }

  function Fourth(x: real): real {
    Square(Square(x))
  }

  function Fifth(x: real): real {
    Times(x, Fourth(x))
  }

  /** ease_out(x) = 1 - (1 - x)^(5/4), on [0, 1]: the power is the root of an equation. */
  ghost predicate IsEaseOut(f: real -> real) {
    forall x: real :: 0.0 <= x <= 1.0 ==> f(x) <= 1.0 && Fourth(1.0 - f(x)) == Fifth(1.0 - x)
  }

  lemma {:induction false} Squares(x: real, y: real)
    requires x >= 0.0 && y >= 0.0
    ensures x <= y <==> Square(x) <= Square(y)
    ensures Square(x) >= 0.0 && (x > 0.0 ==> Square(x) > 0.0)
  {
    hide Times;
    NotNegative(x, x);
    Commutes(x, y);
    Rises(x, y, x);
    Rises(x, y, y);
    Rises(y, x, x);
    Rises(y, x, y);
  }

  lemma {:induction false} FourthPowers(x: real, y: real)
    requires x >= 0.0 && y >= 0.0
    ensures x <= y <==> Fourth(x) <= Fourth(y)
    ensures x > 0.0 ==> Fourth(x) > 0.0 && Fifth(x) > 0.0
  {
    Squares(x, y);
    Squares(y, x);
    Squares(Square(x), Square(y));
    NotNegative(x, Fourth(x));
    hide Times, Square;
  }

  lemma {:induction false} FourthOfProduct(x: real, y: real)
    ensures Fourth(Times(x, y)) == Times(Fourth(x), Fourth(y))
    ensures Fifth(Times(x, y)) == Times(Fifth(x), Fifth(y))
  {
    hide Times;
    Swaps(x, y, x, y);
    Swaps(Square(x), Square(y), Square(x), Square(y));
    Swaps(x, y, Fourth(x), Fourth(y));
  }

  lemma {:induction false} PowersOfOne()
    ensures Fourth(1.0) == 1.0 == Fifth(1.0) && Fourth(0.0) == 0.0 == Fifth(0.0)
  {
    hide Times;
    OneAndZero(1.0);
    OneAndZero(0.0);
  }

  /** If u^4 = a^5, then a is a fourth power s^4, and u is s^5. */
  lemma {:induction false} Root(a: real, u: real) returns (s: real)
    requires 0.0 <= a <= 1.0 && u >= 0.0 && Fourth(u) == Fifth(a)
    ensures 0.0 <= s <= 1.0 && Fourth(s) == a && Fifth(s) == u
  {
    PowersOfOne();
    hide Fourth, Fifth, Times;
    s := 0.0;
    if a == 0.0 {
      FourthPowers(u, 0.0);
    } else {
      s := u / a;
      Quotient(u, a);
      FourthOfProduct(s, a);
      FourthPowers(a, a);
      FifthIs(a);
      Cancels(Fourth(s), a, Fourth(a));
      FifthIs(s);
    }
    FourthPowers(s, 1.0);
  }

  lemma {:induction false} Quotient(u: real, a: real)
    requires a > 0.0 && u >= 0.0
    ensures Times(u / a, a) == u && u / a >= 0.0
  {
  }

  lemma {:induction false} FifthIs(x: real)
    ensures Fifth(x) == Times(x, Fourth(x))
  {
    hide Fourth, Times;
  }

  // ----- the slope -----

  /** 4 (s^5 - t^5) <= 5 (s^4 - t^4): the slope of the power is at most 5/4. */
  lemma {:induction false} Slope(s: real, t: real)
    requires 0.0 <= t <= s <= 1.0
    ensures 0.0 <= Fifth(s) - Fifth(t) <= 1.25 * (Fourth(s) - Fourth(t))
  {
    var a, b, c, d := Times(s, Square(s)), Times(t, Square(s)), Times(s, Square(t)), Times(t, Square(t));
    Squares(s, s);
    Squares(t, t);
    NotNegative(s, Square(s));
    NotNegative(t, Square(s));
    NotNegative(s, Square(t));
    NotNegative(t, Square(t));
    Terms(s, t, a, b, c, d);
    hide Fourth, Fifth, Times, Square;
    var four, five := a + b + c + d, Times(s, a) + Times(s, b) + Times(s, c) + Times(s, d) + Times(t, d);
    Weighs(s, t, a, b, c, d);
    FourthDifference(s, t, a, b, c, d);
    FifthDifference(s, t, a, b, c, d);
    Rises(five, 1.25 * four, s - t);
    NotNegative(five, s - t);
    Scales(four, s - t);
    Commutes(s - t, five);
    Commutes(s - t, four);
  }

  lemma {:induction false} Terms(s: real, t: real, a: real, b: real, c: real, d: real)
    requires a == Times(s, Square(s)) && b == Times(t, Square(s)) && c == Times(s, Square(t))
    requires d == Times(t, Square(t))
    ensures Times(t, a) == Times(s, b) && Times(t, b) == Times(s, c) && Times(t, c) == Times(s, d)
    ensures Fourth(s) == Times(s, a) && Fourth(t) == Times(t, d)
  {
    hide Times;
    Exchanges(t, s, Square(s));
    Exchanges(t, s, Square(t));
    Associates(t, t, Square(s));
    Associates(s, s, Square(t));
    Commutes(Square(t), Square(s));
    Associates(s, s, Square(s));
    Associates(t, t, Square(t));
  }

  lemma {:induction false} Smaller(s: real, a: real)
    requires 0.0 <= s <= 1.0 && a >= 0.0
    ensures 0.0 <= Times(s, a) <= a
  {
    hide Times;
    Rises(s, 1.0, a);
    OneAndZero(a);
    NotNegative(s, a);
  }

  lemma {:induction false} Weighs(s: real, t: real, a: real, b: real, c: real, d: real)
    requires 0.0 <= t <= 1.0 && 0.0 <= s <= 1.0 && a >= 0.0 && b >= 0.0 && c >= 0.0 && d >= 0.0
    requires Times(t, a) == Times(s, b) && Times(t, b) == Times(s, c) && Times(t, c) == Times(s, d)
    ensures 0.0 <= Times(s, a) + Times(s, b) + Times(s, c) + Times(s, d) + Times(t, d) <= 1.25 * (a + b + c + d)
  {
    hide Times;
    Smaller(s, a);
    Smaller(s, b);
    Smaller(s, c);
    Smaller(s, d);
    Smaller(t, a);
    Smaller(t, b);
    Smaller(t, c);
    Smaller(t, d);
  }

  lemma {:induction false} AddsFour(x: real, a: real, b: real, c: real, d: real)
    ensures Times(x, a + b + c + d) == Times(x, a) + Times(x, b) + Times(x, c) + Times(x, d)
  {
    hide Times;
    Adds(x, a + b + c, d);
    Adds(x, a + b, c);
    Adds(x, a, b);
  }

  lemma {:induction false} FourthDifference(s: real, t: real, a: real, b: real, c: real, d: real)
    requires Times(t, a) == Times(s, b) && Times(t, b) == Times(s, c) && Times(t, c) == Times(s, d)
    requires Fourth(s) == Times(s, a) && Fourth(t) == Times(t, d)
    ensures Fourth(s) - Fourth(t) == Times(s - t, a + b + c + d)
  {
    hide Times, Fourth;
    AddsFour(s, a, b, c, d);
    AddsFour(t, a, b, c, d);
    AddsLeft(s, t, a + b + c + d);
  }

  lemma {:induction false} FifthDifference(s: real, t: real, a: real, b: real, c: real, d: real)
    requires Times(t, a) == Times(s, b) && Times(t, b) == Times(s, c) && Times(t, c) == Times(s, d)
    requires Fourth(s) == Times(s, a) && Fourth(t) == Times(t, d)
    ensures Fifth(s) - Fifth(t)
         == Times(s - t, Times(s, a) + Times(s, b) + Times(s, c) + Times(s, d) + Times(t, d))
  {
    hide Times, Fourth;
    FourthDifference(s, t, a, b, c, d);
    AddsFour(s, a, b, c, d);
    var four := a + b + c + d;
    Adds(s, Fourth(s), Fourth(t));
    Exchanges(s, s - t, four);
    AddsLeft(s, t, Fourth(t));
    Adds(s - t, Times(s, four), Times(t, d));
  }

  // ----- the shape of the curve -----

  /** The curve of the source has the shape the placements need. */
  lemma {:induction false} EaseOutIsEase(f: real -> real)
    requires IsEaseOut(f)
    ensures IsEase(f)
  {
    EaseOutEnds(f);
    hide IsEaseOut;
    forall x: real, y: real | 0.0 <= x <= y <= 1.0 ensures f(x) <= f(y) <= f(x) + 1.25 * (y - x) && f(x) >= x {
      EaseOutAt(f, x, y);
    }
  }

  lemma {:induction false} EaseOutAt(f: real -> real, x: real, y: real)
    requires IsEaseOut(f) && 0.0 <= x <= y <= 1.0
    ensures f(x) <= f(y) <= f(x) + 1.25 * (y - x) && f(x) >= x
  {
    var a, b, u, v := 1.0 - x, 1.0 - y, 1.0 - f(x), 1.0 - f(y);
    EaseOutIs(f, x);
    EaseOutIs(f, y);
    hide IsEaseOut, Fourth, Fifth, Times;
    var s := Root(a, u);
    var t := Root(b, v);
    FourthPowers(t, s);
    Slope(s, t);
    FifthIs(s);
    Smaller(s, a);
  }

  lemma {:induction false} EaseOutIs(f: real -> real, x: real)
    requires IsEaseOut(f) && 0.0 <= x <= 1.0
    ensures f(x) <= 1.0 && Fourth(1.0 - f(x)) == Fifth(1.0 - x)
  {
    hide Fourth, Fifth;
  }

  lemma {:induction false} EaseOutEnds(f: real -> real)
    requires IsEaseOut(f)
    ensures f(0.0) == 0.0 && f(1.0) == 1.0
  {
    EaseOutIs(f, 0.0);
    EaseOutIs(f, 1.0);
    hide IsEaseOut, Fourth, Fifth, Times;
    OnlyRoot(1.0 - f(0.0), 1.0 - 0.0);
    OnlyRoot(1.0 - f(1.0), 1.0 - 1.0);
  }

  lemma {:induction false} OnlyRoot(u: real, a: real)
    requires u >= 0.0 && Fourth(u) == Fifth(a) && (a == 0.0 || a == 1.0)
    ensures u == a
  {
    PowersOfOne();
    hide Fourth, Fifth, Times;
    FourthPowers(u, a);
    FourthPowers(a, u);
  }

  // ----- the placement, exactly -----

  /** With ease_out the placement is known exactly, by whole numbers: it reaches line m of the n lines if
      and only if ((k + 1 - c) / (k + 1))^5 <= ((n - m) / n)^4. */
  lemma {:induction false} PlaceIsExact(f: real -> real, c: nat, k: nat, n: nat, min: nat, m: nat)
    requires IsEaseOut(f) && 0 < c <= k < n && m <= n
    ensures Place(f, c, k, n, min) - min + 1 >= m <==>
            Fifth((k + 1 - c) as real) * Fourth(n as real) <= Fourth((n - m) as real) * Fifth((k + 1) as real)
  {
    hide IsEaseOut, Fourth, Fifth, Place, Times, Share;
    PlaceIsEased(f, c, k, n, min, m);
    ShareBounds(c, k);
    IsTheShare(c, k);
    var x, y := 1.0 - f(Share(c, k)), (n - m) as real;
    EaseOutIs(f, Share(c, k));
    RestOfShare(c, k);
    Reaches(f(Share(c, k)), n as real, m as real);
    Compares(x, n as real, y, 1.0 - Share(c, k), (k + 1) as real, (k + 1 - c) as real);
    IsProduct(Fifth((k + 1 - c) as real), Fourth(n as real));
    IsProduct(Fourth(y), Fifth((k + 1) as real));
  }

  lemma {:induction false} IsTheShare(c: nat, k: nat)
    ensures Share(c, k) == c as real / (k + 1) as real
  {
  }

  /** x^4 = a^5, and a is p / q. */
  lemma {:induction false} Compares(x: real, n: real, y: real, a: real, q: real, p: real)
    requires x >= 0.0 && n >= 0.0 && y >= 0.0 && q > 0.0 && Fourth(x) == Fifth(a) && Times(a, q) == p
    ensures Times(x, n) <= y <==> Times(Fifth(p), Fourth(n)) <= Times(Fourth(y), Fifth(q))
  {
    hide Fourth, Fifth, Times;
    NotNegative(x, n);
    FourthPowers(Times(x, n), y);
    FourthPowers(q, q);
    FourthOfProduct(x, n);
    FourthOfProduct(a, q);
    Cancels(Fourth(Times(x, n)), Fourth(y), Fifth(q));
    Commutes(Times(Fourth(x), Fourth(n)), Fifth(q));
    Exchanges(Fifth(q), Fourth(x), Fourth(n));
    Associates(Fourth(x), Fifth(q), Fourth(n));
  }

  lemma {:induction false} IsProduct(x: real, y: real)
    ensures Times(x, y) == x * y
  {
  }

  lemma {:induction false} RestOfShare(c: nat, k: nat)
    requires c <= k
    ensures Times(1.0 - Share(c, k), (k + 1) as real) == (k + 1 - c) as real
  {
    var q := (k + 1) as real;
    Quotient(c as real, q);
    hide Times;
    AddsLeft(1.0, Share(c, k), q);
    OneAndZero(q);
  }

  lemma {:induction false} Reaches(y: real, n: real, m: real)
    ensures y * n >= m <==> Times(1.0 - y, n) <= n - m
  {
    IsProduct(y, n);
    hide Times;
    AddsLeft(1.0, y, n);
    OneAndZero(n);
  }

  /** One checkpoint over 100 lines from line 1 on is placed on line 57. */
  lemma {:induction false} OneOverHundred(f: real -> real)
    requires IsEaseOut(f)
    ensures Place(f, 1, 1, 100, 1) == 57
  {
    hide IsEaseOut, Fourth, Fifth, Place, Times;
    PlaceIsExact(f, 1, 1, 100, 1, 57);
    PlaceIsExact(f, 1, 1, 100, 1, 58);
    PowersOfOne();
    PowersOf(2.0, 4.0);
    PowersOf(42.0, 1764.0);
    PowersOf(43.0, 1849.0);
    PowersOf(100.0, 10000.0);
  }

  lemma {:induction false} PowersOf(x: real, square: real)
    requires x * x == square
    ensures Fourth(x) == square * square && Fifth(x) == x * (square * square)
  {
    IsProduct(x, x);
    IsProduct(square, square);
    IsProduct(x, square * square);
    hide Times;
  }
}

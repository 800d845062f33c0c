/** The slope of a straight-line fit (internal/metrics/analyze.go), over exact reals: when it is defined and in what
    sense it is best. */
module LeastSquares {

  datatype Point = Point(x: real, y: real)

  /* ---- products ---- */

  /** The product under a name, so that proofs below can use the laws they need and no others. */
  function Times(a: real, b: real): real {
    a * b
  }

  function Square(v: real): real {
    Times(v, v)
  }

  lemma Product(a: real, b: real)
    ensures Times(a, b) == a * b && Square(a) == a * a
  {
  }

  lemma Distributes(a: real, b: real, c: real)
    ensures Times(a, b + c) == Times(a, b) + Times(a, c) && Times(b + c, a) == Times(b, a) + Times(c, a)
    ensures Times(a, b - c) == Times(a, b) - Times(a, c) && Times(b - c, a) == Times(b, a) - Times(c, a)
  {
  }

  lemma Associates(a: real, b: real, c: real)
    ensures Times(Times(a, b), c) == Times(a, Times(b, c)) && Times(a, b) == Times(b, a)
  {
  }

  lemma One(a: real)
    ensures Times(1.0, a) == a && Times(a, 1.0) == a && Times(0.0, a) == 0.0 && Times(a, 0.0) == 0.0
  {
  }

  lemma SquareOfSum(a: real, b: real)
    ensures Square(a + b) == Square(a) + 2.0 * Times(a, b) + Square(b)
    ensures Square(a - b) == Square(a) - 2.0 * Times(a, b) + Square(b)
  {
  }

  lemma Positive(a: real, b: real)
    requires a > 0.0 && b > 0.0
    ensures Times(a, b) > 0.0
  {
  }

  lemma SquareSign(v: real)
    ensures Square(v) >= 0.0
    ensures Square(v) == 0.0 ==> v == 0.0
    ensures v == 0.0 ==> Square(v) == 0.0
  {
    hide *;
    if v > 0.0 {
      PositiveSquare(v);
    } else if v < 0.0 {
      PositiveSquare(-v);
      NegativeSquare(v);
    } else {
      ZeroSquare();
    }
  }

  lemma PositiveSquare(v: real)
    requires v > 0.0
    ensures Square(v) > 0.0
  {
    hide Times;
    Positive(v, v);
  }

  lemma ZeroSquare()
    ensures Square(0.0) == 0.0
  {
  }

  lemma NegativeSquare(v: real)
    ensures Square(v) == Square(-v)
  {
    assert v * v == (-v) * (-v);
  }

  lemma Cancels(n: real, v: real)
    requires n > 0.0
    ensures Times(n, v) == 0.0 ==> v == 0.0
  {
    hide *;
    if v > 0.0 {
      Positive(n, v);
    } else if v < 0.0 {
      Positive(n, -v);
      Distributes(n, 0.0, v);
      One(n);
      assert 0.0 - v == -v;
    }
  }

  function Divide(n: real, d: real): (q: real)
    ensures d == 0.0 ==> q == 0.0
    ensures d != 0.0 ==> q * d == n
  {
    if d == 0.0 then 0.0 else n / d
  }

  lemma Divided(n: real, d: real)
    requires d != 0.0
    ensures Times(Divide(n, d), d) == n && Times(d, Divide(n, d)) == n
  {
    assert Divide(n, d) * d == n;
  }

  /* ---- sums over the points ---- */

  function SumX(s: seq<Point>): real {
    if s == [] then 0.0 else SumX(s[..|s| - 1]) + s[|s| - 1].x
  }

  function SumY(s: seq<Point>): real {
    if s == [] then 0.0 else SumY(s[..|s| - 1]) + s[|s| - 1].y
  }

  function SumXY(s: seq<Point>): real {
    if s == [] then 0.0 else SumXY(s[..|s| - 1]) + Times(s[|s| - 1].x, s[|s| - 1].y)
  }

  function SumXX(s: seq<Point>): real {
    if s == [] then 0.0 else SumXX(s[..|s| - 1]) + Square(s[|s| - 1].x)
  }

  function Size(s: seq<Point>): real {
    |s| as real
  }

  function Off(p: Point, slope: real, intercept: real): real {
    p.y - Times(slope, p.x) - intercept
  }

  /** The sum of squared vertical distances from the line y = slope * x + intercept. */
  function Residual(s: seq<Point>, slope: real, intercept: real): real {
    if s == [] then 0.0
    else Residual(s[..|s| - 1], slope, intercept) + Square(Off(s[|s| - 1], slope, intercept))
  }

  ghost predicate SameX(s: seq<Point>) {
    forall i, j :: 0 <= i < j < |s| ==> s[i].x == s[j].x
  }

  function Determinant(s: seq<Point>): real {
    Times(Size(s), SumXX(s)) - Square(SumX(s))
  }

  function Numerator(s: seq<Point>): real {
    Times(Size(s), SumXY(s)) - Times(SumX(s), SumY(s))
  }

  /** The sum of squares of a * x + b. */
  function Spread(s: seq<Point>, a: real, b: real): real {
    if s == [] then 0.0 else Spread(s[..|s| - 1], a, b) + Square(Times(a, s[|s| - 1].x) + b)
  }

  function SumOff(s: seq<Point>, a: real, b: real): real {
    if s == [] then 0.0 else SumOff(s[..|s| - 1], a, b) + Off(s[|s| - 1], a, b)
  }

  function SumOffX(s: seq<Point>, a: real, b: real): real {
    if s == [] then 0.0 else SumOffX(s[..|s| - 1], a, b) + Times(Off(s[|s| - 1], a, b), s[|s| - 1].x)
  }

  /** Every sum over front + [p] in terms of the sum over front. */
  lemma Pushed(front: seq<Point>, p: Point, a: real, b: real)
    ensures var s := front + [p];
      && SumX(s) == SumX(front) + p.x && SumY(s) == SumY(front) + p.y && Size(s) == Size(front) + 1.0
      && SumXY(s) == SumXY(front) + Times(p.x, p.y) && SumXX(s) == SumXX(front) + Square(p.x)
      && SumOff(s, a, b) == SumOff(front, a, b) + Off(p, a, b)
      && SumOffX(s, a, b) == SumOffX(front, a, b) + Times(Off(p, a, b), p.x)
      && Residual(s, a, b) == Residual(front, a, b) + Square(Off(p, a, b))
      && Spread(s, a, b) == Spread(front, a, b) + Square(Times(a, p.x) + b)
  {
    hide Times, Off, Square;
    assert (front + [p])[..|front|] == front;
  }

  lemma Empty(a: real, b: real)
    ensures SumX([]) == SumY([]) == SumXY([]) == SumXX([]) == Size([]) == 0.0
    ensures SumOff([], a, b) == SumOffX([], a, b) == Residual([], a, b) == Spread([], a, b) == 0.0
  {
  }

  /* ---- the determinant ---- */

  lemma {:induction false} SpreadSums(s: seq<Point>, z: real)
    ensures Spread(s, 1.0, -z) == SumXX(s) - 2.0 * Times(SumX(s), z) + Times(Size(s), Square(z))
  {
    hide *;
    if s == [] {
      Empty(1.0, -z);
      One(z);
      One(Square(z));
    } else {
      var front, p := s[..|s| - 1], s[|s| - 1];
      assert s == front + [p];
      SpreadSums(front, z);
      Pushed(front, p, 1.0, -z);
      One(p.x);
      SquareOfSum(p.x, z);
      Distributes(z, SumX(front), p.x);
      Distributes(Square(z), Size(front), 1.0);
      One(Square(z));
      assert p.x + -z == p.x - z;
    }
  }

  lemma {:induction false} SpreadSign(s: seq<Point>, a: real, b: real)
    ensures Spread(s, a, b) >= 0.0
    ensures Spread(s, a, b) == 0.0 <==> forall i :: 0 <= i < |s| ==> Times(a, s[i].x) + b == 0.0
  {
    hide *;
    if s == [] {
      Empty(a, b);
    } else {
      var front, p := s[..|s| - 1], s[|s| - 1];
      assert s == front + [p];
      SpreadSign(front, a, b);
      Pushed(front, p, a, b);
      SquareSign(Times(a, p.x) + b);
      assert forall i :: 0 <= i < |front| ==> front[i] == s[i];
    }
  }

  /** One more point adds the squared distances of all earlier abscissas from its own. */
  lemma DeterminantGrows(front: seq<Point>, p: Point)
    ensures Determinant(front + [p]) == Determinant(front) + Spread(front, 1.0, -p.x)
  {
    hide Times, Square, SumX, SumXX, Size, Spread;
    var n, sx, sxx, z := Size(front), SumX(front), SumXX(front), p.x;
    Pushed(front, p, 0.0, 0.0);
    SpreadSums(front, z);
    SquareOfSum(sx, z);
    Distributes(n + 1.0, sxx, Square(z));
    Distributes(sxx, n, 1.0);
    Distributes(Square(z), n, 1.0);
    One(sxx);
    One(Square(z));
  }

  /** The denominator is never negative, and zero exactly when all abscissas agree. */
  lemma {:induction false} CauchySchwarz(s: seq<Point>)
    ensures Determinant(s) >= 0.0 && (Determinant(s) == 0.0 <==> SameX(s))
  {
    if s == [] {
      Empty(0.0, 0.0);
    } else {
      hide *;
      var front, p := s[..|s| - 1], s[|s| - 1];
      assert s == front + [p];
      CauchySchwarz(front);
      DeterminantGrows(front, p);
      SpreadSign(front, 1.0, -p.x);
      SameXPush(front, p);
    }
  }

  lemma SameXPush(front: seq<Point>, p: Point)
    ensures SameX(front + [p]) <==>
      SameX(front) && forall i :: 0 <= i < |front| ==> Times(1.0, front[i].x) + -p.x == 0.0
  {
    var s := front + [p];
    if SameX(s) {
      forall i | 0 <= i < |front| ensures front[i].x == p.x {
        assert s[i].x == s[|front|].x;
      }
      forall i, j | 0 <= i < j < |front| ensures front[i].x == front[j].x {
        assert s[i].x == s[j].x;
      }
    }
  }

  /* ---- the best line ---- */

  lemma {:induction false} OffSums(s: seq<Point>, a: real, b: real)
    ensures SumOff(s, a, b) == SumY(s) - Times(a, SumX(s)) - Times(Size(s), b)
    ensures SumOffX(s, a, b) == SumXY(s) - Times(a, SumXX(s)) - Times(b, SumX(s))
  {
    hide *;
    if s == [] {
      Empty(a, b);
      One(a);
      One(b);
    } else {
      var front, p := s[..|s| - 1], s[|s| - 1];
      assert s == front + [p];
      OffSums(front, a, b);
      Pushed(front, p, a, b);
      OffIs(p, a, b);
      Distributes(a, SumX(front), p.x);
      Distributes(b, Size(front), 1.0);
      One(b);
      Distributes(a, SumXX(front), Square(p.x));
      Distributes(b, SumX(front), p.x);
    }
  }

  lemma OffIs(p: Point, a: real, b: real)
    ensures Off(p, a, b) == p.y - Times(a, p.x) - b
    ensures Times(Off(p, a, b), p.x) == Times(p.x, p.y) - Times(a, Square(p.x)) - Times(b, p.x)
  {
    hide Times;
    Distributes(p.x, p.y, Times(a, p.x));
    Distributes(p.x, p.y - Times(a, p.x), b);
    Associates(p.x, p.y, 0.0);
    Associates(a, p.x, p.x);
  }

  /** Moving the line by da and db changes the residual by the squared movement and two mixed terms. */
  lemma {:induction false} ResidualMoved(s: seq<Point>, a: real, b: real, da: real, db: real)
    ensures Residual(s, a + da, b + db)
         == Residual(s, a, b) - 2.0 * Times(da, SumOffX(s, a, b)) - 2.0 * Times(db, SumOff(s, a, b)) + Spread(s, da, db)
  {
    hide *;
    if s == [] {
      Empty(a, b);
      Empty(a + da, b + db);
      Empty(da, db);
      One(da);
      One(db);
    } else {
      var front, p := s[..|s| - 1], s[|s| - 1];
      var r, m := Off(p, a, b), Times(da, p.x) + db;
      assert s == front + [p];
      ResidualMoved(front, a, b, da, db);
      Pushed(front, p, a, b);
      Pushed(front, p, a + da, b + db);
      Pushed(front, p, da, db);
      OffIs(p, a, b);
      OffIs(p, a + da, b + db);
      Distributes(p.x, a, da);
      assert Off(p, a + da, b + db) == r - m;
      SquareOfSum(r, m);
      Distributes(da, SumOffX(front, a, b), Times(r, p.x));
      Distributes(db, SumOff(front, a, b), r);
      Distributes(r, Times(da, p.x), db);
      Associates(da, p.x, r);
      Associates(r, p.x, 0.0);
      Associates(r, m, 0.0);
      Associates(r, db, 0.0);
    }
  }

  /** The intercept that goes with a slope: the line through the mean point. */
  function Intercept(s: seq<Point>, slope: real): real {
    Divide(SumY(s) - Times(slope, SumX(s)), Size(s))
  }

  /** The line of this slope through the mean point leaves a smaller squared residual than any other line. */
  ghost predicate Best(s: seq<Point>, slope: real) {
    var intercept := Intercept(s, slope);
    forall a, b :: Residual(s, slope, intercept) <= Residual(s, a, b)
      && (Residual(s, slope, intercept) == Residual(s, a, b) ==> a == slope && b == intercept)
  }

  /** With the slope the fit computes, the mixed terms vanish. */
  lemma NormalEquations(s: seq<Point>, slope: real)
    requires s != [] && Times(slope, Determinant(s)) == Numerator(s)
    ensures var intercept := Intercept(s, slope);
      SumOff(s, slope, intercept) == 0.0 && SumOffX(s, slope, intercept) == 0.0
  {
    hide Times, Square, SumX, SumY, SumXX, SumXY, SumOff, SumOffX, Residual, Divide;
    var n, sx, sy, sxy, sxx, b := Size(s), SumX(s), SumY(s), SumXY(s), SumXX(s), Intercept(s, slope);
    hide *;
    OffSums(s, slope, b);
    MeanPoint(s, slope);
    var v := sxy - Times(slope, sxx) - Times(b, sx);
    Distributes(n, sxy - Times(slope, sxx), Times(b, sx));
    Distributes(n, sxy, Times(slope, sxx));
    Associates(n, b, sx);
    Distributes(sx, sy, Times(slope, sx));
    Associates(slope, sx, sx);
    Associates(sx, sy, 0.0);
    Distributes(slope, Times(n, sxx), Square(sx));
    Associates(slope, n, sxx);
    Associates(n, slope, sxx);
    Definitions(s);
    assert Times(n, v) == 0.0;
    Cancels(n, v);
  }

  lemma MeanPoint(s: seq<Point>, slope: real)
    requires s != []
    ensures Size(s) > 0.0 && Times(Size(s), Intercept(s, slope)) == SumY(s) - Times(slope, SumX(s))
  {
    hide Times, SumX, SumY;
    Divided(SumY(s) - Times(slope, SumX(s)), Size(s));
  }

  lemma Definitions(s: seq<Point>)
    ensures Determinant(s) == Times(Size(s), SumXX(s)) - Square(SumX(s))
    ensures Numerator(s) == Times(Size(s), SumXY(s)) - Times(SumX(s), SumY(s))
    ensures Square(SumX(s)) == Times(SumX(s), SumX(s))
  {
    hide Times, SumX, SumY, SumXX, SumXY;
  }

  lemma SlopeIsBest(s: seq<Point>, slope: real)
    requires !SameX(s) && Times(slope, Determinant(s)) == Numerator(s)
    ensures Best(s, slope)
  {
    var intercept := Intercept(s, slope);
    NormalEquations(s, slope);
    forall a, b
      ensures Residual(s, slope, intercept) <= Residual(s, a, b)
      ensures Residual(s, slope, intercept) == Residual(s, a, b) ==> a == slope && b == intercept
    {
      hide *;
      var da, db := a - slope, b - intercept;
      ResidualMoved(s, slope, intercept, da, db);
      assert slope + da == a && intercept + db == b;
      One(da);
      One(db);
      StillMoves(s, da, db);
    }
  }

  lemma StillMoves(s: seq<Point>, da: real, db: real)
    requires !SameX(s)
    ensures Spread(s, da, db) >= 0.0
    ensures Spread(s, da, db) == 0.0 ==> da == 0.0 && db == 0.0
  {
    var i, j :| 0 <= i < j < |s| && s[i].x != s[j].x;
    hide *;
    SpreadSign(s, da, db);
    if Spread(s, da, db) == 0.0 {
      var d := s[i].x - s[j].x;
      assert Times(da, s[i].x) + db == 0.0 && Times(da, s[j].x) + db == 0.0;
      Distributes(da, s[i].x, s[j].x);
      Distributes(da, s[j].x, s[i].x);
      Associates(da, d, 0.0);
      Associates(da, -d, 0.0);
      assert -d == s[j].x - s[i].x;
      if d > 0.0 {
        Cancels(d, da);
      } else {
        Cancels(-d, da);
      }
      One(s[i].x);
    }
  }

  /** The fit: accumulates the four sums in one pass. */
  method Fit(s: seq<Point>) returns (slope: real)
    ensures SameX(s) ==> slope == 0.0
    ensures !SameX(s) ==> Best(s, slope)
  {
    hide *;
    var sx, sy, sxy, sxx := 0.0, 0.0, 0.0, 0.0;
    Empty(0.0, 0.0);
    for i := 0 to |s|
      invariant sx == SumX(s[..i]) && sy == SumY(s[..i]) && sxy == SumXY(s[..i]) && sxx == SumXX(s[..i])
    {
      var x, y := s[i].x, s[i].y;
      assert s[..i + 1] == s[..i] + [s[i]];
      Pushed(s[..i], s[i], 0.0, 0.0);
      Product(x, y);
      sx, sy, sxy, sxx := sx + x, sy + y, sxy + x * y, sxx + x * x;
    }
    assert s[..|s|] == s;
    var n := |s| as real;
    Quotient(s);
    slope := Divide(n * sxy - sx * sy, n * sxx - sx * sx);
    CauchySchwarz(s);
    if !SameX(s) {
      assert slope == Divide(Numerator(s), Determinant(s));
      Divided(Numerator(s), Determinant(s));
      SlopeIsBest(s, slope);
    }
  }

  lemma Quotient(s: seq<Point>)
    ensures Numerator(s) == (|s| as real) * SumXY(s) - SumX(s) * SumY(s)
    ensures Determinant(s) == (|s| as real) * SumXX(s) - SumX(s) * SumX(s)
  {
    hide SumX, SumY, SumXX, SumXY;
  }

  lemma {:induction false} ResidualSign(s: seq<Point>, a: real, b: real)
    ensures Residual(s, a, b) >= 0.0
    ensures (forall i :: 0 <= i < |s| ==> s[i].y == Times(a, s[i].x) + b) ==> Residual(s, a, b) == 0.0
  {
    hide *;
    if s == [] {
      Empty(a, b);
    } else {
      var front, p := s[..|s| - 1], s[|s| - 1];
      assert s == front + [p];
      assert forall i :: 0 <= i < |front| ==> front[i] == s[i];
      ResidualSign(front, a, b);
      Pushed(front, p, a, b);
      OffIs(p, a, b);
      SquareSign(Off(p, a, b));
    }
  }

  /** Points on a line have that line's slope as their only best slope. */
  lemma CollinearSlope(s: seq<Point>, slope: real, a: real, b: real)
    requires Best(s, slope) && forall i :: 0 <= i < |s| ==> s[i].y == Times(a, s[i].x) + b
    ensures slope == a && Intercept(s, slope) == b
  {
    hide Intercept, Residual, Times;
    ResidualSign(s, a, b);
    ResidualSign(s, slope, Intercept(s, slope));
    assert Residual(s, slope, Intercept(s, slope)) <= Residual(s, a, b);
  }
}

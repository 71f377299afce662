/** The least-squares line through a set of points. */
module LineFit {
  import opened Wrappers
  import RealFacts

  datatype Point = Point(x: real, y: real)

  datatype Line = Line(slope: real, intercept: real)

  function Times(a: real, b: real): real { a * b }

  lemma QuotientBack(a: real, d: real)
    requires d != 0.0
    ensures Times(RealFacts.Quotient(a, d), d) == a
  {
    RealFacts.DivideBack(a, d);
  }

  function Square(a: real): real { Times(a, a) }

  function SumX(ps: seq<Point>): real { if ps == [] then 0.0 else ps[0].x + SumX(ps[1..]) }
  function SumY(ps: seq<Point>): real { if ps == [] then 0.0 else ps[0].y + SumY(ps[1..]) }
  function SumXX(ps: seq<Point>): real { if ps == [] then 0.0 else Square(ps[0].x) + SumXX(ps[1..]) }
  function SumXY(ps: seq<Point>): real { if ps == [] then 0.0 else Times(ps[0].x, ps[0].y) + SumXY(ps[1..]) }

  /** The number of points. */
  function Count(ps: seq<Point>): (n: real)
    ensures n >= 0.0 && (ps != [] ==> n >= 1.0)
  {
    if ps == [] then 0.0 else 1.0 + Count(ps[1..])
  }

  lemma {:induction false} CountIsLength(ps: seq<Point>)
    ensures Count(ps) == |ps| as real
  {
    if ps == [] {
    } else {
      CountIsLength(ps[1..]);
    }
  }

  /** The determinant of the normal equations. */
  function Denominator(ps: seq<Point>): real {
    Times(Count(ps), SumXX(ps)) - Square(SumX(ps))
  }

  function Xs(ps: seq<Point>): set<real> { set p <- ps :: p.x }

  function Fit(ps: seq<Point>): Option<Line> {
    if |Xs(ps)| < 2 then None
    else
      var denominator := Denominator(ps);
      if denominator == 0.0 then None
      else
        var slope := RealFacts.Quotient(Times(Count(ps), SumXY(ps)) - Times(SumX(ps), SumY(ps)), denominator);
        Some(Line(slope, RealFacts.Quotient(SumY(ps) - Times(slope, SumX(ps)), Count(ps))))
  }

  // ----- The determinant is zero only when there is nothing to fit -----

  /** The squared distances of the points from `x`. */
  function Spread(ps: seq<Point>, x: real): real {
    if ps == [] then 0.0 else Square(ps[0].x - x) + Spread(ps[1..], x)
  }

  function Expanded(sxx: real, sx: real, n: real, x: real): real {
    sxx - 2.0 * Times(x, sx) + Times(n, Square(x))
  }

  lemma {:induction false} SpreadExpands(ps: seq<Point>, x: real)
    ensures Spread(ps, x) == Expanded(SumXX(ps), SumX(ps), Count(ps), x)
  {
    if ps == [] {
    } else {
      SpreadExpands(ps[1..], x);
      SpreadStep(ps[0].x, x, SumXX(ps[1..]), SumX(ps[1..]), Count(ps[1..]));
    }
  }

  lemma SpreadStep(a: real, x: real, sxx: real, sx: real, n: real)
    ensures Expanded(Square(a) + sxx, a + sx, 1.0 + n, x) == Square(a - x) + Expanded(sxx, sx, n, x)
  {
    RealFacts.Distribute(x, a, sx);
    RealFacts.Distribute(x * x, 1.0, n);
    SquareOfDifference(a, x);
  }

  lemma SquareOfDifference(a: real, b: real)
    ensures Square(a - b) == Square(a) - 2.0 * Times(b, a) + Square(b)
    ensures Square(a + b) == Square(a) + 2.0 * Times(b, a) + Square(b)
  {
  }

  lemma {:induction false} SpreadPositive(ps: seq<Point>, x: real)
    ensures Spread(ps, x) >= 0.0
    ensures Spread(ps, x) == 0.0 <==> forall p <- ps :: p.x == x
  {
    if ps == [] {
    } else {
      SpreadPositive(ps[1..], x);
      SquareSign(ps[0].x - x);
      forall p <- ps | Spread(ps, x) == 0.0 ensures p.x == x {
        if p != ps[0] { assert p in ps[1..]; }
      }
      if forall p <- ps :: p.x == x {
        assert forall p <- ps[1..] :: p in ps;
        assert ps[0] in ps;
      }
    }
  }

  lemma TimesPositive(a: real, b: real)
    requires a > 0.0 && b > 0.0
    ensures Times(a, b) > 0.0
  {
  }

  lemma SquareSign(a: real)
    ensures Square(a) >= 0.0 && (Square(a) == 0.0 <==> a == 0.0)
  {
    if a > 0.0 {
      TimesPositive(a, a);
    } else if a < 0.0 {
      TimesPositive(-a, -a);
      assert Times(-a, -a) == Times(a, a);
    } else {
      assert a == 0.0;
    }
  }

  /** Each point adds its squared distances from the others. */
  lemma DenominatorAdds(ps: seq<Point>)
    requires ps != []
    ensures Denominator(ps) == Denominator(ps[1..]) + Spread(ps[1..], ps[0].x)
  {
    SpreadExpands(ps[1..], ps[0].x);
    DenominatorStep(Count(ps[1..]), SumX(ps[1..]), SumXX(ps[1..]), ps[0].x);
  }

  lemma DenominatorStep(n: real, sx: real, sxx: real, x: real)
    ensures Times(1.0 + n, Square(x) + sxx) - Square(x + sx)
         == Times(n, sxx) - Square(sx) + Expanded(sxx, sx, n, x)
  {
    RealFacts.Distribute(1.0 + n, x * x, sxx);
    RealFacts.Distribute(x * x, 1.0, n);
    RealFacts.Distribute(sxx, 1.0, n);
    SquareOfDifference(sx, x);
  }

  ghost predicate Distinct(ps: seq<Point>) {
    exists i, j :: 0 <= i < j < |ps| && ps[i].x != ps[j].x
  }

  /** Points that differ in x do so beside the first one, or among the rest. */
  lemma DistinctSplits(ps: seq<Point>)
    requires ps != []
    ensures Distinct(ps) <==> Distinct(ps[1..]) || exists p <- ps[1..] :: p.x != ps[0].x
  {
    if Distinct(ps) {
      var i, j :| 0 <= i < j < |ps| && ps[i].x != ps[j].x;
      if i == 0 {
        assert ps[j] in ps[1..];
      } else {
        assert ps[1..][i - 1].x != ps[1..][j - 1].x;
      }
    }
    if Distinct(ps[1..]) {
      var i, j :| 0 <= i < j < |ps[1..]| && ps[1..][i].x != ps[1..][j].x;
      assert ps[i + 1].x != ps[j + 1].x;
    }
    if p :| p in ps[1..] && p.x != ps[0].x {
      var j :| 0 <= j < |ps[1..]| && ps[1..][j] == p;
      assert ps[0].x != ps[j + 1].x;
    }
  }

  /** The determinant is positive exactly when two points differ in x. */
  lemma {:induction false} DenominatorPositive(ps: seq<Point>)
    ensures Denominator(ps) >= 0.0
    ensures Denominator(ps) > 0.0 <==> Distinct(ps)
  {
    if ps == [] {
    } else {
      DenominatorAdds(ps);
      DenominatorPositive(ps[1..]);
      SpreadPositive(ps[1..], ps[0].x);
      DistinctSplits(ps);
    }
  }

  lemma TwoOf(xs: set<real>, a: real, b: real)
    requires a in xs && b in xs && a != b
    ensures |xs| >= 2
  {
    assert |xs - {a}| == |xs| - 1 && b in xs - {a};
  }

  lemma DistinctXs(ps: seq<Point>)
    ensures |Xs(ps)| >= 2 <==> Distinct(ps)
  {
    if Distinct(ps) {
      var i, j :| 0 <= i < j < |ps| && ps[i].x != ps[j].x;
      assert ps[i] in ps && ps[j] in ps;
      TwoOf(Xs(ps), ps[i].x, ps[j].x);
    } else {
      if ps != [] {
        assert ps[0] in ps;
        forall b <- Xs(ps) ensures b == ps[0].x {
          var j :| 0 <= j < |ps| && ps[j].x == b;
          if j > 0 { assert ps[0].x == ps[j].x; }
        }
        assert Xs(ps) == {ps[0].x};
      } else {
        assert Xs(ps) == {};
      }
    }
  }

  /** The fit is refused exactly for fewer than two distinct x; the zero determinant never arises. */
  lemma FitRefuses(ps: seq<Point>)
    ensures Fit(ps).None? <==> !Distinct(ps)
    ensures |Xs(ps)| >= 2 ==> Denominator(ps) > 0.0
  {
    DistinctXs(ps);
    DenominatorPositive(ps);
  }

  // ----- The fit is the best line -----

  function Residual(p: Point, l: Line): real { p.y - (Times(l.slope, p.x) + l.intercept) }

  function SquaredError(ps: seq<Point>, l: Line): real {
    if ps == [] then 0.0 else Square(Residual(ps[0], l)) + SquaredError(ps[1..], l)
  }

  function ResidualSum(ps: seq<Point>, l: Line): real {
    if ps == [] then 0.0 else Residual(ps[0], l) + ResidualSum(ps[1..], l)
  }

  function ResidualMoment(ps: seq<Point>, l: Line): real {
    if ps == [] then 0.0 else Times(Residual(ps[0], l), ps[0].x) + ResidualMoment(ps[1..], l)
  }

  /** How far apart two lines are over the points. */
  function Apart(ps: seq<Point>, d: Line): real {
    if ps == [] then 0.0 else Square(Times(d.slope, ps[0].x) + d.intercept) + Apart(ps[1..], d)
  }

  lemma {:induction false} ResidualsAddUp(ps: seq<Point>, l: Line)
    ensures ResidualSum(ps, l) == SumY(ps) - Times(l.slope, SumX(ps)) - Times(l.intercept, Count(ps))
  {
    if ps == [] {
    } else {
      ResidualsAddUp(ps[1..], l);
      RealFacts.Distribute(l.slope, ps[0].x, SumX(ps[1..]));
      RealFacts.Distribute(l.intercept, 1.0, Count(ps[1..]));
    }
  }

  lemma {:induction false} MomentsAddUp(ps: seq<Point>, l: Line)
    ensures ResidualMoment(ps, l) == SumXY(ps) - Times(l.slope, SumXX(ps)) - Times(l.intercept, SumX(ps))
  {
    if ps == [] {
    } else {
      MomentsAddUp(ps[1..], l);
      MomentStep(ps[0], l, SumXX(ps[1..]), SumX(ps[1..]));
    }
  }

  lemma MomentStep(p: Point, l: Line, sxx: real, sx: real)
    ensures Times(Residual(p, l), p.x)
         == Times(p.x, p.y) - (Times(l.slope, Square(p.x) + sxx) - Times(l.slope, sxx))
           - (Times(l.intercept, p.x + sx) - Times(l.intercept, sx))
  {
    RealFacts.Distribute(l.slope, Square(p.x), sxx);
    RealFacts.Distribute(l.intercept, p.x, sx);
    RealFacts.Distribute(p.x, p.y, Times(l.slope, p.x) + l.intercept);
    RealFacts.Distribute(p.x, Times(l.slope, p.x), l.intercept);
    assert p.x * (l.slope * p.x) == l.slope * (p.x * p.x);
  }

  /** The slope and intercept as solutions of two equations. */
  lemma FitSolves(ps: seq<Point>)
    requires Distinct(ps)
    ensures Fit(ps).Some?
    ensures var l := Fit(ps).value;
      && Times(l.intercept, Count(ps)) == SumY(ps) - Times(l.slope, SumX(ps))
      && Times(l.slope, Denominator(ps)) == Times(Count(ps), SumXY(ps)) - Times(SumX(ps), SumY(ps))
      && Count(ps) > 0.0
  {
    FitRefuses(ps);
    QuotientBack(SumY(ps) - Times(Fit(ps).value.slope, SumX(ps)), Count(ps));
    QuotientBack(Times(Count(ps), SumXY(ps)) - Times(SumX(ps), SumY(ps)), Denominator(ps));
  }

  /** The fitted line solves the normal equations. */
  lemma FitIsNormal(ps: seq<Point>)
    requires Distinct(ps)
    ensures Fit(ps).Some?
    ensures ResidualSum(ps, Fit(ps).value) == 0.0 && ResidualMoment(ps, Fit(ps).value) == 0.0
  {
    FitSolves(ps);
    ResidualsAddUp(ps, Fit(ps).value);
    MomentsAddUp(ps, Fit(ps).value);
    SolvesMoment(Count(ps), SumX(ps), SumY(ps), SumXX(ps), SumXY(ps), Fit(ps).value);
  }

  lemma SolvesMoment(n: real, sx: real, sy: real, sxx: real, sxy: real, l: Line)
    requires n > 0.0
    requires Times(l.intercept, n) == sy - Times(l.slope, sx)
    requires Times(l.slope, Times(n, sxx) - Square(sx)) == Times(n, sxy) - Times(sx, sy)
    ensures sxy - Times(l.slope, sxx) - Times(l.intercept, sx) == 0.0
  {
    var m, b := l.slope, l.intercept;
    var moment := sxy - m * sxx - b * sx;
    assert n * (m * sxx) == m * (n * sxx);
    assert n * (b * sx) == (n * b) * sx;
    assert (sy - m * sx) * sx == sx * sy - m * (sx * sx) by {
      RealFacts.Distribute(sx, sy, m * sx);
      assert sx * (m * sx) == m * (sx * sx);
    }
    RealFacts.Distribute(m, n * sxx, sx * sx);
    RealFacts.Distribute(n, sxy, m * sxx);
    RealFacts.Distribute(n, sxy - m * sxx, b * sx);
    assert n * moment == 0.0;
    RealFacts.Cancel(moment, 0.0, n);
  }

  /** What the residuals pull a line towards `d` by. */
  function Pull(ps: seq<Point>, l: Line, d: Line): real {
    if ps == [] then 0.0 else Times(Residual(ps[0], l), Times(d.slope, ps[0].x) + d.intercept) + Pull(ps[1..], l, d)
  }

  lemma {:induction false} PullIsMoments(ps: seq<Point>, l: Line, d: Line)
    ensures Pull(ps, l, d) == Times(d.slope, ResidualMoment(ps, l)) + Times(d.intercept, ResidualSum(ps, l))
  {
    if ps == [] {
    } else {
      PullIsMoments(ps[1..], l, d);
      PullStep(Residual(ps[0], l), ps[0].x, d, ResidualMoment(ps[1..], l), ResidualSum(ps[1..], l));
    }
  }

  lemma PullStep(r: real, x: real, d: Line, moment: real, sum: real)
    ensures Times(r, Times(d.slope, x) + d.intercept) + Times(d.slope, moment) + Times(d.intercept, sum)
         == Times(d.slope, Times(r, x) + moment) + Times(d.intercept, r + sum)
  {
    RealFacts.Distribute(r, d.slope * x, d.intercept);
    RealFacts.Distribute(d.slope, r * x, moment);
    RealFacts.Distribute(d.intercept, r, sum);
    assert r * (d.slope * x) == d.slope * (r * x);
  }

  /** Moving a line away by `d` adds the distance and takes off twice the residuals along it. */
  lemma {:induction false} ErrorOfOther(ps: seq<Point>, l: Line, d: Line)
    ensures SquaredError(ps, Line(l.slope + d.slope, l.intercept + d.intercept))
         == SquaredError(ps, l) - 2.0 * Pull(ps, l, d) + Apart(ps, d)
  {
    if ps == [] {
    } else {
      ErrorOfOther(ps[1..], l, d);
      ErrorOfOne(ps[0], l, d);
    }
  }

  lemma ErrorOfOne(p: Point, l: Line, d: Line)
    ensures Square(Residual(p, Line(l.slope + d.slope, l.intercept + d.intercept)))
         == Square(Residual(p, l)) - 2.0 * Times(Residual(p, l), Times(d.slope, p.x) + d.intercept)
            + Square(Times(d.slope, p.x) + d.intercept)
  {
    RealFacts.Distribute(p.x, l.slope, d.slope);
    SquareOfDifference(Residual(p, l), Times(d.slope, p.x) + d.intercept);
  }

  lemma {:induction false} ApartPositive(ps: seq<Point>, d: Line)
    ensures Apart(ps, d) >= 0.0
    ensures Apart(ps, d) == 0.0 ==> forall p <- ps :: Times(d.slope, p.x) + d.intercept == 0.0
  {
    if ps == [] {
    } else {
      ApartPositive(ps[1..], d);
      SquareSign(Times(d.slope, ps[0].x) + d.intercept);
      forall p <- ps | Apart(ps, d) == 0.0 ensures Times(d.slope, p.x) + d.intercept == 0.0 {
        if p != ps[0] { assert p in ps[1..]; }
      }
    }
  }

  /** Two lines that agree at two different x are the same. */
  lemma AgreeTwice(d: Line, a: real, b: real)
    requires Times(d.slope, a) + d.intercept == 0.0 && Times(d.slope, b) + d.intercept == 0.0 && a != b
    ensures d == Line(0.0, 0.0)
  {
    RealFacts.Distribute(d.slope, a, b);
    if a > b {
      RealFacts.Cancel(d.slope, 0.0, a - b);
    } else {
      RealFacts.Cancel(d.slope, 0.0, b - a);
    }
  }

  /** No line has a smaller sum of squared errors than the fit, and every other line has a larger one. */
  lemma FitIsBest(ps: seq<Point>, other: Line)
    requires Distinct(ps)
    ensures Fit(ps).Some?
    ensures SquaredError(ps, Fit(ps).value) <= SquaredError(ps, other)
    ensures other != Fit(ps).value ==> SquaredError(ps, Fit(ps).value) < SquaredError(ps, other)
  {
    FitIsNormal(ps);
    var l := Fit(ps).value;
    var d := Line(other.slope - l.slope, other.intercept - l.intercept);
    ErrorOfOther(ps, l, d);
    PullIsMoments(ps, l, d);
    ApartPositive(ps, d);
    if Apart(ps, d) == 0.0 {
      var i, j :| 0 <= i < j < |ps| && ps[i].x != ps[j].x;
      assert ps[i] in ps && ps[j] in ps;
      AgreeTwice(d, ps[i].x, ps[j].x);
    }
  }
}

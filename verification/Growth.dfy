/**
 Ordinary least squares over a PVC's usage samples.

 float64 is modelled by `real`: rounding, NaN and infinities are not part of the model.
 A timestamp is a number of nanoseconds; the regression only sees whole seconds of it.
 */
module Growth {

  import opened Options
  import opened Times

  const SECONDS_PER_DAY := 86400.0

  datatype Sample = Sample(timestamp: int, usedBytes: int)

  datatype GrowthResult = GrowthResult(
    growthBytesPerDay: real, daysUntilFull: Option<real>, confidenceR2: real)

  const NO_GROWTH := GrowthResult(0.0, None, 0.0)

  /** time.Time.Unix: the second a timestamp falls in. */
  function UnixSeconds(timestamp: int): int { timestamp / SECOND }

  // ---------------------------------------------------------------------------
  // Points, their moments, and the quantities the regression is made of
  // ---------------------------------------------------------------------------

  function Product(a: real, b: real): (r: real)
    ensures a > 0.0 && b > 0.0 ==> r > 0.0
    ensures a < 0.0 && b < 0.0 ==> r > 0.0
    ensures a == 0.0 || b == 0.0 ==> r == 0.0
  {
    a * b
  }

  function Square(r: real): (s: real)
    ensures s >= 0.0
    ensures s == 0.0 <==> r == 0.0
  {
    Product(r, r)
  }

  datatype Point = Point(x: real, y: real)

  /** A sample as the regression sees it: days since the anchor second, bytes used. */
  function ToPoint(s: Sample, anchor: int): Point {
    Point((UnixSeconds(s.timestamp) - anchor) as real / SECONDS_PER_DAY, s.usedBytes as real)
  }

  function Points(samples: seq<Sample>, anchor: int): (p: seq<Point>)
    ensures |p| == |samples|
  {
    seq(|samples|, i requires 0 <= i < |samples| => ToPoint(samples[i], anchor))
  }

  datatype Moments = Moments(n: real, x: real, y: real, xx: real, xy: real, yy: real) {
    function Add(p: Point): Moments {
      Moments(n + 1.0, x + p.x, y + p.y, xx + p.x * p.x, xy + p.x * p.y, yy + p.y * p.y)
    }

    /** The denominator of the slope: n * sum(x^2) - (sum x)^2. */
    function XSpread(): real { n * xx - x * x }

    function XYSpread(): real { n * xy - x * y }

    function Slope(): real
      requires XSpread() != 0.0
    {
      XYSpread() / XSpread()
    }

    function Intercept(): real
      requires XSpread() != 0.0 && n != 0.0
    {
      (y - Slope() * x) / n
    }
  }

  const ZERO_MOMENTS := Moments(0.0, 0.0, 0.0, 0.0, 0.0, 0.0)

  function MomentsOf(p: seq<Point>): (m: Moments)
    ensures m.n == |p| as real
  {
    if p == [] then ZERO_MOMENTS else MomentsOf(p[..|p| - 1]).Add(p[|p| - 1])
  }

  function SquaredDistance(q: Point, a: real, b: real): (r: real) {
    Square(q.y - (a * q.x + b))
  }

  function Sum(s: seq<real>): real {
    if s == [] then 0.0 else Sum(s[..|s| - 1]) + s[|s| - 1]
  }

  lemma {:induction false} SumNonnegative(s: seq<real>)
    requires forall i :: 0 <= i < |s| ==> s[i] >= 0.0
    ensures Sum(s) >= 0.0
    ensures Sum(s) == 0.0 ==> forall i :: 0 <= i < |s| ==> s[i] == 0.0
  {
    if s != [] {
      SumNonnegative(s[..|s| - 1]);
    }
  }

  lemma SumStep(s: seq<real>, i: nat)
    requires i < |s|
    ensures Sum(s[..i + 1]) == Sum(s[..i]) + s[i]
  {
    assert s[..i + 1][..i] == s[..i];
  }

  function SquaredDistances(p: seq<Point>, a: real, b: real): (d: seq<real>)
    ensures |d| == |p|
  {
    seq(|p|, i requires 0 <= i < |p| => SquaredDistance(p[i], a, b))
  }

  /** Sum of squared distances of the points from the line y = a*x + b. */
  function SquaredResiduals(p: seq<Point>, a: real, b: real): (r: real)
    ensures r >= 0.0
  {
    SumNonnegative(SquaredDistances(p, a, b));
    Sum(SquaredDistances(p, a, b))
  }

  function MeanY(p: seq<Point>): real
    requires p != []
  {
    MomentsOf(p).y / |p| as real
  }

  /** Distance of the points from their mean level: the residuals of a flat line. */
  function TotalVariation(p: seq<Point>): (r: real)
    requires p != []
    ensures r >= 0.0
  {
    SquaredResiduals(p, 0.0, MeanY(p))
  }

  function RSquared(p: seq<Point>): real
    requires p != [] && MomentsOf(p).XSpread() != 0.0
  {
    var m := MomentsOf(p);
    if TotalVariation(p) > 0.0
    then 1.0 - SquaredResiduals(p, m.Slope(), m.Intercept()) / TotalVariation(p)
    else 0.0
  }

  /** Days until `capacity` is reached from `lastUsed` at `slope` bytes a day. */
  function DaysToFill(slope: real, lastUsed: int, capacity: int): Option<real> {
    if slope > 0.0 && capacity > 0 then
      if capacity - lastUsed <= 0 then Some(0.0) else Some((capacity - lastUsed) as real / slope)
    else None
  }

  /** What CalculateGrowth returns. */
  function Regression(samples: seq<Sample>, capacity: int): GrowthResult {
    if |samples| < 2 then NO_GROWTH
    else
      var p := Points(samples, UnixSeconds(samples[0].timestamp));
      var m := MomentsOf(p);
      if m.XSpread() == 0.0 then NO_GROWTH
      else GrowthResult(
        m.Slope(), DaysToFill(m.Slope(), samples[|samples| - 1].usedBytes, capacity), RSquared(p))
  }

  // ---------------------------------------------------------------------------
  // The two accumulation loops
  // ---------------------------------------------------------------------------

  lemma AddFields(m: Moments, x: real, y: real)
    ensures var next := m.Add(Point(x, y));
            && next.n == m.n + 1.0 && next.x == m.x + x && next.y == m.y + y
            && next.xx == m.xx + x * x && next.xy == m.xy + x * y && next.yy == m.yy + y * y
  {
  }

  lemma AddIs(m: Moments, x: real, y: real)
    ensures m.Add(Point(x, y))
            == Moments(m.n + 1.0, m.x + x, m.y + y, m.xx + x * x, m.xy + x * y, m.yy + y * y)
  {
    AddFields(m, x, y);
    hide Moments.Add;
    var next := m.Add(Point(x, y));
    assert next == Moments(next.n, next.x, next.y, next.xx, next.xy, next.yy);
  }

  lemma NextMoments(p: seq<Point>, i: nat, x: real, y: real)
    requires i < |p| && p[i] == Point(x, y)
    ensures var m, next := MomentsOf(p[..i]), MomentsOf(p[..i + 1]);
            && next.x == m.x + x && next.y == m.y + y
            && next.xx == m.xx + x * x && next.xy == m.xy + x * y && next.yy == m.yy + y * y
  {
    hide Moments.Add;
    assert p[..i + 1][..i] == p[..i];
    assert MomentsOf(p[..i + 1]) == MomentsOf(p[..i]).Add(Point(x, y));
    AddFields(MomentsOf(p[..i]), x, y);
  }

  lemma DistanceIs(x: real, y: real, slope: real, intercept: real, yHat: real)
    requires yHat == slope * x + intercept
    ensures SquaredDistance(Point(x, y), slope, intercept) == (y - yHat) * (y - yHat)
  {
  }

  lemma NextDistance(p: seq<Point>, i: nat, slope: real, intercept: real, x: real, y: real, yHat: real)
    requires i < |p| && p[i] == Point(x, y)
    requires yHat == slope * x + intercept
    ensures var d := SquaredDistances(p, slope, intercept);
            Sum(d[..i + 1]) == Sum(d[..i]) + (y - yHat) * (y - yHat)
  {
    hide SquaredDistance;
    SumStep(SquaredDistances(p, slope, intercept), i);
    DistanceIs(x, y, slope, intercept, yHat);
  }

  lemma LineFromSums(n: real, x: real, y: real, xx: real, xy: real, yy: real,
                     denom: real, slope: real, intercept: real)
    requires n != 0.0 && denom != 0.0
    requires denom == n * xx - x * x
    requires slope == (n * xy - x * y) / denom
    requires intercept == (y - slope * x) / n
    ensures var m := Moments(n, x, y, xx, xy, yy);
            m.XSpread() == denom && m.Slope() == slope && m.Intercept() == intercept
  {
  }

  lemma SpreadFromSums(n: real, x: real, y: real, xx: real, xy: real, yy: real)
    ensures Moments(n, x, y, xx, xy, yy).XSpread() == n * xx - x * x
  {
  }

  /** The second loop of CalculateGrowth: the total and the residual sum of squares. */
  method SumsOfSquares(samples: seq<Sample>, t0: int, slope: real, intercept: real, meanY: real)
    returns (ssTot: real, ssRes: real)
    ensures ssTot == SquaredResiduals(Points(samples, t0), 0.0, meanY)
    ensures ssRes == SquaredResiduals(Points(samples, t0), slope, intercept)
  {
    hide Square;
    ghost var p := Points(samples, t0);
    ghost var total, residual := SquaredDistances(p, 0.0, meanY), SquaredDistances(p, slope, intercept);
    ssTot, ssRes := 0.0, 0.0;
    for i := 0 to |samples|
      invariant ssTot == Sum(total[..i]) && ssRes == Sum(residual[..i])
    {
      var x := (UnixSeconds(samples[i].timestamp) - t0) as real / SECONDS_PER_DAY;
      var yHat := slope * x + intercept;
      var y := samples[i].usedBytes as real;
      NextDistance(p, i, 0.0, meanY, x, y, meanY);
      NextDistance(p, i, slope, intercept, x, y, yHat);
      ssTot := ssTot + (y - meanY) * (y - meanY);
      ssRes := ssRes + (y - yHat) * (y - yHat);
    }
    assert total[..|samples|] == total && residual[..|samples|] == residual;
  }

  /** CalculateGrowth. */
  method CalculateGrowth(samples: seq<Sample>, capacityBytes: int) returns (result: GrowthResult)
    ensures result == Regression(samples, capacityBytes)
  {
    hide Moments.Add, Moments.XSpread, Moments.Slope, Moments.Intercept, MeanY, TotalVariation, SquaredResiduals;
    var n := |samples|;
    if n < 2 {
      return NO_GROWTH;
    }
    var t0 := UnixSeconds(samples[0].timestamp);
    ghost var p := Points(samples, t0);
    var sumX, sumY, sumXY, sumX2 := 0.0, 0.0, 0.0, 0.0;
    for i := 0 to n
      invariant var m := MomentsOf(p[..i]); sumX == m.x && sumY == m.y && sumXY == m.xy && sumX2 == m.xx
    {
      var x := (UnixSeconds(samples[i].timestamp) - t0) as real / SECONDS_PER_DAY;
      var y := samples[i].usedBytes as real;
      NextMoments(p, i, x, y);
      sumX := sumX + x;
      sumY := sumY + y;
      sumXY := sumXY + x * y;
      sumX2 := sumX2 + x * x;
    }
    assert p[..n] == p;

    var fn := n as real;
    var denom := fn * sumX2 - sumX * sumX;
    SpreadFromSums(fn, sumX, sumY, sumX2, sumXY, MomentsOf(p).yy);
    if denom == 0.0 {
      return NO_GROWTH;
    }
    var slope := (fn * sumXY - sumX * sumY) / denom;
    var intercept := (sumY - slope * sumX) / fn;
    LineFromSums(fn, sumX, sumY, sumX2, sumXY, MomentsOf(p).yy, denom, slope, intercept);

    var meanY := sumY / fn;
    var ssTot, ssRes := SumsOfSquares(samples, t0, slope, intercept, meanY);
    VariationIs(p, meanY);

    var r2 := 0.0;
    if ssTot > 0.0 {
      r2 := 1.0 - ssRes / ssTot;
    }
    assert r2 == RSquared(p);
    result := GrowthResult(slope, None, r2);
    if slope > 0.0 && capacityBytes > 0 {
      var lastUsed := samples[n - 1].usedBytes as real;
      var remaining := capacityBytes as real - lastUsed;
      if remaining <= 0.0 {
        result := result.(daysUntilFull := Some(0.0));
      } else {
        result := result.(daysUntilFull := Some(remaining / slope));
      }
    }
  }

  lemma VariationIs(p: seq<Point>, mean: real)
    requires p != [] && mean == MomentsOf(p).y / |p| as real
    ensures TotalVariation(p) == SquaredResiduals(p, 0.0, mean)
  {
  }

  // ---------------------------------------------------------------------------
  // Residuals as a quadratic form in the moments
  // ---------------------------------------------------------------------------

  function Loss(m: Moments, a: real, b: real): real {
    m.yy - 2.0 * (a * m.xy) - 2.0 * (b * m.y) + a * a * m.xx + 2.0 * (a * b * m.x) + b * b * m.n
  }

  lemma LossOfAdd(n: real, x: real, y: real, xx: real, xy: real, yy: real, qx: real, qy: real, a: real, b: real)
    ensures var m, q := Moments(n, x, y, xx, xy, yy), Point(qx, qy);
            Loss(m.Add(q), a, b) == Loss(m, a, b) + SquaredDistance(q, a, b)
  {
  }

  lemma {:induction false} ResidualsAreLoss(p: seq<Point>, a: real, b: real)
    ensures SquaredResiduals(p, a, b) == Loss(MomentsOf(p), a, b)
  {
    if p != [] {
      hide Square, Loss, SquaredDistance, Moments.Add;
      var q := p[..|p| - 1];
      ResidualsAreLoss(q, a, b);
      var m, last := MomentsOf(q), p[|p| - 1];
      LossOfAdd(m.n, m.x, m.y, m.xx, m.xy, m.yy, last.x, last.y, a, b);
      assert SquaredDistances(p, a, b)[..|p| - 1] == SquaredDistances(q, a, b);
    } else {
      assert MomentsOf(p) == ZERO_MOMENTS;
    }
  }

  /** The two equations a least-squares line solves. */
  ghost predicate NormalEquations(m: Moments, slope: real, intercept: real) {
    m.y == slope * m.x + intercept * m.n && m.xy == slope * m.xx + intercept * m.x
  }

  /** Sum of (da * x + db)^2 over the points. */
  function Tilt(m: Moments, da: real, db: real): real {
    da * da * m.xx + 2.0 * (da * db * m.x) + db * db * m.n
  }

  /** Any line is worse than one that solves the normal equations, by exactly the tilt between them. */
  lemma LossOfTilted(m: Moments, slope: real, intercept: real, da: real, db: real)
    requires NormalEquations(m, slope, intercept)
    ensures Loss(m, slope + da, intercept + db) == Loss(m, slope, intercept) + Tilt(m, da, db)
  {
  }

  lemma Cancel(k: real, u: real)
    requires k != 0.0 && k * u == 0.0
    ensures u == 0.0
  {
  }

  lemma SolveNormalEquations(n: real, x: real, y: real, xx: real, xy: real, yy: real)
    requires n != 0.0 && n * xx - x * x != 0.0
    ensures var m := Moments(n, x, y, xx, xy, yy); NormalEquations(m, m.Slope(), m.Intercept())
  {
    var m := Moments(n, x, y, xx, xy, yy);
    var slope, intercept := m.Slope(), m.Intercept();
    assert slope * (n * xx - x * x) == n * xy - x * y;
    assert n * intercept == y - slope * x;
    assert n * (xy - (slope * xx + intercept * x)) == 0.0;
    Cancel(n, xy - (slope * xx + intercept * x));
  }

  /** The points with their usage dropped. */
  function Ground(p: seq<Point>): (q: seq<Point>)
    ensures |q| == |p|
  {
    seq(|p|, i requires 0 <= i < |p| => Point(p[i].x, 0.0))
  }

  lemma {:induction false} TiltIsResiduals(p: seq<Point>, da: real, db: real)
    ensures Tilt(MomentsOf(p), da, db) == SquaredResiduals(Ground(p), da, db)
  {
    ResidualsAreLoss(Ground(p), da, db);
    GroundMoments(p);
    var m := MomentsOf(p);
    GroundLoss(m.n, m.x, m.xx, da, db);
  }

  lemma GroundLoss(n: real, x: real, xx: real, da: real, db: real)
    ensures Loss(Moments(n, x, 0.0, xx, 0.0, 0.0), da, db) == Tilt(Moments(n, x, 0.0, xx, 0.0, 0.0), da, db)
  {
  }

  lemma {:induction false} GroundMoments(p: seq<Point>)
    ensures var m := MomentsOf(p);
            MomentsOf(Ground(p)) == Moments(m.n, m.x, 0.0, m.xx, 0.0, 0.0)
  {
    if p != [] {
      hide Moments.Add;
      var q, last := p[..|p| - 1], p[|p| - 1];
      GroundMoments(q);
      assert Ground(p)[..|p| - 1] == Ground(q);
      AddIs(MomentsOf(q), last.x, last.y);
      AddIs(MomentsOf(Ground(q)), last.x, 0.0);
    }
  }

  lemma {:induction false} SumOfZeros(s: seq<real>)
    requires forall i :: 0 <= i < |s| ==> s[i] == 0.0
    ensures Sum(s) == 0.0
  {
    if s != [] {
      SumOfZeros(s[..|s| - 1]);
    }
  }

  ghost predicate OnLine(p: seq<Point>, a: real, b: real) {
    forall i :: 0 <= i < |p| ==> p[i].y - (a * p[i].x + b) == 0.0
  }

  /** A line has no residuals exactly when every point is on it. */
  lemma LineFits(p: seq<Point>, a: real, b: real)
    ensures SquaredResiduals(p, a, b) == 0.0 <==> OnLine(p, a, b)
  {
    hide Square;
    var d := SquaredDistances(p, a, b);
    SumNonnegative(d);
    if OnLine(p, a, b) {
      SumOfZeros(d);
    }
    if SquaredResiduals(p, a, b) == 0.0 {
      forall i | 0 <= i < |p| ensures p[i].y - (a * p[i].x + b) == 0.0 {
        assert d[i] == 0.0;
      }
    }
  }

  // ---------------------------------------------------------------------------
  // What the regression promises
  // ---------------------------------------------------------------------------

  ghost predicate SameSecond(samples: seq<Sample>) {
    forall i, j :: 0 <= i < |samples| && 0 <= j < |samples| ==>
      UnixSeconds(samples[i].timestamp) == UnixSeconds(samples[j].timestamp)
  }

  ghost predicate SameTime(p: seq<Point>) {
    forall i, j :: 0 <= i < |p| && 0 <= j < |p| ==> p[i].x == p[j].x
  }

  lemma SameTimeIsSameSecond(samples: seq<Sample>, anchor: int)
    ensures SameTime(Points(samples, anchor)) <==> SameSecond(samples)
  {
    var p := Points(samples, anchor);
    forall i, j | 0 <= i < |p| && 0 <= j < |p|
      ensures p[i].x == p[j].x <==> UnixSeconds(samples[i].timestamp) == UnixSeconds(samples[j].timestamp)
    {
      assert p[i].x * SECONDS_PER_DAY == (UnixSeconds(samples[i].timestamp) - anchor) as real;
      assert p[j].x * SECONDS_PER_DAY == (UnixSeconds(samples[j].timestamp) - anchor) as real;
    }
  }

  function MeanX(p: seq<Point>): real
    requires p != []
  {
    MomentsOf(p).x / |p| as real
  }

  /** Sum of (x - mean x)^2. */
  function TimeVariation(p: seq<Point>): (r: real)
    requires p != []
    ensures r >= 0.0
  {
    SquaredResiduals(Ground(p), 1.0, -MeanX(p))
  }

  lemma SpreadIsTilt(n: real, x: real, y: real, xx: real, xy: real, yy: real, mean: real)
    requires Product(n, mean) == x
    ensures var m := Moments(n, x, y, xx, xy, yy); m.XSpread() == Product(n, Tilt(m, 1.0, -mean))
  {
    assert n * mean == x;
    assert n * (xx - 2.0 * (mean * x) + mean * mean * n) == n * xx - x * x;
  }

  lemma XSpreadIsVariation(p: seq<Point>)
    requires p != []
    ensures MomentsOf(p).XSpread() == Product(|p| as real, TimeVariation(p))
  {
    hide Moments.XSpread, Tilt, Product, SquaredResiduals;
    var m, mean := MomentsOf(p), MeanX(p);
    Quotient(m.x, |p| as real, mean);
    SpreadIsTilt(m.n, m.x, m.y, m.xx, m.xy, m.yy, mean);
    TiltIsResiduals(p, 1.0, -mean);
  }

  lemma Quotient(x: real, n: real, mean: real)
    requires n != 0.0 && mean == x / n
    ensures Product(n, mean) == x
  {
  }

  lemma TimeVariationZero(p: seq<Point>)
    requires p != []
    ensures TimeVariation(p) == 0.0 <==> SameTime(p)
  {
    var mean := MeanX(p);
    LineFits(Ground(p), 1.0, -mean);
    if TimeVariation(p) == 0.0 {
      forall i | 0 <= i < |p| ensures p[i].x == mean {
        assert Ground(p)[i] == Point(p[i].x, 0.0);
      }
    }
    if SameTime(p) {
      MeanOfEqual(p, p[0].x);
      assert mean == p[0].x;
    }
  }

  lemma {:induction false} MeanOfEqual(p: seq<Point>, x: real)
    requires forall i :: 0 <= i < |p| ==> p[i].x == x
    ensures MomentsOf(p).x == Product(|p| as real, x)
  {
    if p != [] {
      MeanOfEqual(p[..|p| - 1], x);
    }
  }

  /** The guard `denom == 0` fires exactly when no second has elapsed; `denom` is never negative. */
  lemma DenominatorGuard(samples: seq<Sample>, anchor: int)
    requires samples != []
    ensures var denom := MomentsOf(Points(samples, anchor)).XSpread();
            denom >= 0.0 && (denom == 0.0 <==> SameSecond(samples))
  {
    hide Moments.XSpread, Product, TimeVariation;
    var p := Points(samples, anchor);
    XSpreadIsVariation(p);
    TimeVariationZero(p);
    SameTimeIsSameSecond(samples, anchor);
  }

  /** Every line is worse than the computed one by the tilt between them. */
  lemma ResidualsOfTilted(p: seq<Point>, a: real, b: real)
    requires p != [] && MomentsOf(p).XSpread() != 0.0
    ensures var m := MomentsOf(p);
            SquaredResiduals(p, a, b)
            == SquaredResiduals(p, m.Slope(), m.Intercept())
               + SquaredResiduals(Ground(p), a - m.Slope(), b - m.Intercept())
  {
    hide Moments.XSpread, Moments.Slope, Moments.Intercept, Loss, Tilt, SquaredResiduals, NormalEquations;
    var m := MomentsOf(p);
    var slope, intercept := m.Slope(), m.Intercept();
    SolveFor(m);
    LossOfTilted(m, slope, intercept, a - slope, b - intercept);
    assert slope + (a - slope) == a && intercept + (b - intercept) == b;
    ResidualsAreLoss(p, a, b);
    ResidualsAreLoss(p, slope, intercept);
    TiltIsResiduals(p, a - slope, b - intercept);
  }

  lemma SolveFor(m: Moments)
    requires m.n != 0.0 && m.XSpread() != 0.0
    ensures NormalEquations(m, m.Slope(), m.Intercept())
  {
    hide Moments.Slope, Moments.Intercept, NormalEquations;
    SolveNormalEquations(m.n, m.x, m.y, m.xx, m.xy, m.yy);
  }

  lemma TiltPositive(p: seq<Point>, da: real, db: real)
    requires !SameTime(p)
    requires da != 0.0 || db != 0.0
    ensures SquaredResiduals(Ground(p), da, db) > 0.0
  {
    hide Square, SquaredResiduals;
    var i, j :| 0 <= i < |p| && 0 <= j < |p| && p[i].x != p[j].x;
    LineFits(Ground(p), da, db);
    if SquaredResiduals(Ground(p), da, db) == 0.0 {
      assert Ground(p)[i] == Point(p[i].x, 0.0) && Ground(p)[j] == Point(p[j].x, 0.0);
      TwoZeros(da, db, p[i].x, p[j].x);
    }
  }

  /**
   The computed slope and intercept are the unique minimiser of the squared residuals:
   every other line has strictly larger residuals.
   */
  lemma LeastSquares(samples: seq<Sample>, capacity: int, a: real, b: real)
    requires !SameSecond(samples)
    ensures var p := Points(samples, UnixSeconds(samples[0].timestamp));
            var m := MomentsOf(p);
            && m.XSpread() != 0.0
            && Regression(samples, capacity).growthBytesPerDay == m.Slope()
            && ((a, b) != (m.Slope(), m.Intercept()) ==>
                  SquaredResiduals(p, a, b) > SquaredResiduals(p, m.Slope(), m.Intercept()))
  {
    hide Moments.XSpread, Moments.Slope, Moments.Intercept, SquaredResiduals;
    var anchor := UnixSeconds(samples[0].timestamp);
    var p := Points(samples, anchor);
    var m := MomentsOf(p);
    DenominatorGuard(samples, anchor);
    ResidualsOfTilted(p, a, b);
    SameTimeIsSameSecond(samples, anchor);
    if (a, b) != (m.Slope(), m.Intercept()) {
      TiltPositive(p, a - m.Slope(), b - m.Intercept());
    }
  }

  lemma TwoZeros(a: real, b: real, x: real, z: real)
    requires a * x + b == 0.0 && a * z + b == 0.0 && x != z
    ensures a == 0.0 && b == 0.0
  {
    assert (x - z) * a == 0.0;
    Cancel(x - z, a);
  }

  /** The total sum of squares splits into the residual one and the part the slope explains. */
  lemma VariationSplits(p: seq<Point>)
    requires p != [] && MomentsOf(p).XSpread() != 0.0
    ensures var m := MomentsOf(p);
            TotalVariation(p)
            == SquaredResiduals(p, m.Slope(), m.Intercept()) + Product(Square(m.Slope()), TimeVariation(p))
  {
    hide Moments.XSpread, Moments.Slope, Moments.Intercept, SquaredResiduals, Square, Product, Tilt;
    var m := MomentsOf(p);
    var slope, intercept := m.Slope(), m.Intercept();
    ResidualsOfTilted(p, 0.0, MeanY(p));
    MeanOnLine(p);
    var offset := MeanY(p) - intercept;
    TiltIsResiduals(p, 0.0 - slope, offset);
    TiltIsResiduals(p, 1.0, -MeanX(p));
    TiltScales(m, slope, MeanX(p), offset);
  }

  lemma TiltScales(m: Moments, slope: real, mean: real, offset: real)
    requires offset == Product(slope, mean)
    ensures Tilt(m, 0.0 - slope, offset) == Product(Square(slope), Tilt(m, 1.0, -mean))
  {
    var (xx, xm, mm) := (m.xx, mean * m.x, mean * mean * m.n);
    TiltIs(m, 1.0, -mean, xx, -xm, mm);
    ScaledTerms(slope, m.xx, m.x, m.n, mean);
    TiltIs(m, 0.0 - slope, offset, slope * slope * xx, -(slope * slope * xm), slope * slope * mm);
    Distribute(slope * slope, xx, xm, mm);
    assert Square(slope) == slope * slope;
  }

  lemma TiltIs(m: Moments, da: real, db: real, aa: real, ab: real, bb: real)
    requires da * da * m.xx == aa && da * db * m.x == ab && db * db * m.n == bb
    ensures Tilt(m, da, db) == aa + 2.0 * ab + bb
  {
  }

  lemma ScaledTerms(slope: real, xx: real, x: real, n: real, mean: real)
    ensures (0.0 - slope) * (0.0 - slope) * xx == slope * slope * xx
    ensures (0.0 - slope) * Product(slope, mean) * x == -(slope * slope * (mean * x))
    ensures Product(slope, mean) * Product(slope, mean) * n == slope * slope * (mean * mean * n)
  {
  }

  lemma Distribute(k: real, a: real, b: real, c: real)
    ensures k * a + 2.0 * -(k * b) + k * c == Product(k, a + 2.0 * -b + c)
  {
  }

  /** The regression line passes through the point of means. */
  lemma MeanOnLine(p: seq<Point>)
    requires p != [] && MomentsOf(p).XSpread() != 0.0
    ensures MeanY(p) - MomentsOf(p).Intercept() == Product(MomentsOf(p).Slope(), MeanX(p))
  {
    hide Moments.XSpread, Moments.Slope, Product;
    var m := MomentsOf(p);
    MeanGap(m, m.Slope(), m.Intercept(), MeanX(p), MeanY(p));
  }

  lemma MeanGap(m: Moments, slope: real, intercept: real, meanX: real, meanY: real)
    requires m.n != 0.0
    requires intercept == (m.y - slope * m.x) / m.n
    requires meanX == m.x / m.n && meanY == m.y / m.n
    ensures meanY - intercept == Product(slope, meanX)
  {
  }

  lemma Ratios(part: real, whole: real)
    requires 0.0 <= part <= whole && whole > 0.0
    ensures 0.0 <= 1.0 - part / whole <= 1.0
    ensures 1.0 - part / whole == 1.0 <==> part == 0.0
  {
    assert part / whole * whole == part;
  }

  /** R^2 lies in [0, 1]; when usage varies at all it is 1 exactly when one line carries every sample. */
  lemma RSquaredRange(samples: seq<Sample>, capacity: int)
    ensures 0.0 <= Regression(samples, capacity).confidenceR2 <= 1.0
    ensures !SameSecond(samples) ==>
              var p := Points(samples, UnixSeconds(samples[0].timestamp));
              TotalVariation(p) > 0.0 ==>
                (Regression(samples, capacity).confidenceR2 == 1.0 <==> exists a, b :: OnLine(p, a, b))
  {
    hide Moments.XSpread, Moments.Slope, Moments.Intercept, SquaredResiduals, Square, Product, TotalVariation, OnLine;
    if |samples| >= 2 {
      var anchor := UnixSeconds(samples[0].timestamp);
      var p := Points(samples, anchor);
      var m := MomentsOf(p);
      DenominatorGuard(samples, anchor);
      if m.XSpread() != 0.0 {
        var slope, intercept := m.Slope(), m.Intercept();
        VariationSplits(p);
        assert Product(Square(slope), TimeVariation(p)) >= 0.0;
        if TotalVariation(p) > 0.0 {
          Ratios(SquaredResiduals(p, slope, intercept), TotalVariation(p));
          LineFits(p, slope, intercept);
          forall a, b | OnLine(p, a, b) ensures SquaredResiduals(p, slope, intercept) == 0.0 {
            LineFits(p, a, b);
            ResidualsOfTilted(p, a, b);
          }
        }
      }
    }
  }

  ghost predicate SameLevel(samples: seq<Sample>) {
    forall i, j :: 0 <= i < |samples| && 0 <= j < |samples| ==> samples[i].usedBytes == samples[j].usedBytes
  }

  lemma {:induction false} SumOfEqual(p: seq<Point>, y: real)
    requires forall i :: 0 <= i < |p| ==> p[i].y == y
    ensures MomentsOf(p).y == Product(|p| as real, y)
  {
    if p != [] {
      SumOfEqual(p[..|p| - 1], y);
    }
  }

  /** Usage varies exactly when some two samples differ. */
  lemma VariationZero(samples: seq<Sample>, anchor: int)
    requires samples != []
    ensures TotalVariation(Points(samples, anchor)) == 0.0 <==> SameLevel(samples)
  {
    var p := Points(samples, anchor);
    var mean := MeanY(p);
    LineFits(p, 0.0, mean);
    if SameLevel(samples) {
      SumOfEqual(p, samples[0].usedBytes as real);
      assert mean == samples[0].usedBytes as real;
    }
    hide SquaredResiduals;
    if TotalVariation(p) == 0.0 {
      forall i, j | 0 <= i < |samples| && 0 <= j < |samples| ensures samples[i].usedBytes == samples[j].usedBytes {
        assert p[i].y - (0.0 * p[i].x + mean) == 0.0 && p[j].y - (0.0 * p[j].x + mean) == 0.0;
      }
    }
  }

  lemma ShareOfWhole(part: real, whole: real)
    requires whole > 0.0
    ensures Product(1.0 - part / whole, whole) == whole - part
  {
    assert part / whole * whole == part;
  }

  /**
   R^2 is the share of the variation that the line explains: it times the total sum of squares is
   what the residuals leave of it, and the spread of the times scaled by the slope. It is zero for
   usage that does not vary and for samples of one second.
   */
  lemma RSquaredIsExplainedShare(samples: seq<Sample>, capacity: int)
    requires samples != []
    ensures var r2 := Regression(samples, capacity).confidenceR2;
            var p := Points(samples, UnixSeconds(samples[0].timestamp));
            if SameSecond(samples) then r2 == 0.0
            else
              var m := MomentsOf(p);
              && m.XSpread() != 0.0
              && Product(r2, TotalVariation(p)) == TotalVariation(p) - SquaredResiduals(p, m.Slope(), m.Intercept())
              && Product(r2, TotalVariation(p)) == Product(Square(m.Slope()), TimeVariation(p))
    ensures SameLevel(samples) ==> Regression(samples, capacity).confidenceR2 == 0.0
  {
    hide Moments.XSpread, Moments.Slope, Moments.Intercept, SquaredResiduals, Square, Product, TotalVariation;
    hide TimeVariation, SameLevel, SameSecond, DaysToFill;
    var anchor := UnixSeconds(samples[0].timestamp);
    var p := Points(samples, anchor);
    DenominatorGuard(samples, anchor);
    VariationZero(samples, anchor);
    if !SameSecond(samples) {
      OneSample(samples);
      VariationSplits(p);
      var residual := SquaredResiduals(p, MomentsOf(p).Slope(), MomentsOf(p).Intercept());
      assert Product(Square(MomentsOf(p).Slope()), TimeVariation(p)) >= 0.0;
      if TotalVariation(p) > 0.0 {
        ShareOfWhole(residual, TotalVariation(p));
      }
    }
  }

  lemma OneSample(samples: seq<Sample>)
    ensures SameSecond(samples) || |samples| >= 2
  {
  }

  /** Samples taken within the given seconds, each `perDay` bytes a day above the first. */
  ghost predicate GrowsSteadily(samples: seq<Sample>, seconds: seq<int>, perDay: int) {
    && |seconds| == |samples|
    && (forall i :: 0 <= i < |samples| ==> 1_000_000_000 * seconds[i] <= samples[i].timestamp < 1_000_000_000 * (seconds[i] + 1))
    && (forall i :: 0 <= i < |samples| ==>
          86_400 * (samples[i].usedBytes - samples[0].usedBytes) == perDay * (seconds[i] - seconds[0]))
  }

  lemma SteadyPoint(x: real, seconds: int, used: int, first: int, perDay: int)
    requires x == seconds as real / 86400.0 && 86_400 * (used - first) == perDay * seconds
    ensures used as real - (perDay as real * x + first as real) == 0.0
  {
    assert x * 86400.0 == seconds as real;
    assert (perDay * seconds) as real == perDay as real * seconds as real;
    assert 86400.0 * (perDay as real * x) == perDay as real * seconds as real;
  }

  lemma SteadyOnLine(samples: seq<Sample>, seconds: seq<int>, perDay: int)
    requires samples != [] && GrowsSteadily(samples, seconds, perDay)
    ensures OnLine(Points(samples, UnixSeconds(samples[0].timestamp)), perDay as real, samples[0].usedBytes as real)
  {
    var p := Points(samples, UnixSeconds(samples[0].timestamp));
    forall i | 0 <= i < |p| ensures p[i].y - (perDay as real * p[i].x + samples[0].usedBytes as real) == 0.0 {
      assert UnixSeconds(samples[i].timestamp) == seconds[i] && UnixSeconds(samples[0].timestamp) == seconds[0];
      SteadyPoint(p[i].x, seconds[i] - seconds[0], samples[i].usedBytes, samples[0].usedBytes, perDay);
    }
  }

  /** Usage that grows by the same number of bytes each day is given exactly that growth, with full confidence. */
  lemma SteadyGrowthIsFound(samples: seq<Sample>, seconds: seq<int>, perDay: int, capacity: int)
    requires GrowsSteadily(samples, seconds, perDay) && !SameSecond(samples)
    ensures Regression(samples, capacity).growthBytesPerDay == perDay as real
    ensures Regression(samples, capacity).confidenceR2 == if perDay == 0 then 0.0 else 1.0
  {
    hide Moments.XSpread, Moments.Slope, Moments.Intercept, SquaredResiduals, Regression;
    var p := Points(samples, UnixSeconds(samples[0].timestamp));
    var a, b := perDay as real, samples[0].usedBytes as real;
    SteadyOnLine(samples, seconds, perDay);
    LineFits(p, a, b);
    LeastSquares(samples, capacity, a, b);
    RSquaredRange(samples, capacity);
    RSquaredIsExplainedShare(samples, capacity);
    VariationZero(samples, UnixSeconds(samples[0].timestamp));
    SteadyLevels(samples, seconds, perDay);
  }

  lemma SteadyLevels(samples: seq<Sample>, seconds: seq<int>, perDay: int)
    requires GrowsSteadily(samples, seconds, perDay) && !SameSecond(samples)
    ensures SameLevel(samples) <==> perDay == 0
  {
    var i, j :| 0 <= i < |samples| && 0 <= j < |samples| &&
      UnixSeconds(samples[i].timestamp) != UnixSeconds(samples[j].timestamp);
    assert seconds[i] != seconds[j];
    var used := seq(|samples|, k requires 0 <= k < |samples| => samples[k].usedBytes - samples[0].usedBytes);
    assert forall k :: 0 <= k < |samples| ==> 86_400 * used[k] == perDay * (seconds[k] - seconds[0]);
    hide GrowsSteadily, SameSecond, UnixSeconds;
    if perDay == 0 {
      forall k | 0 <= k < |samples| ensures samples[k].usedBytes == samples[0].usedBytes {
        assert 86_400 * used[k] == 0 by { NoGrowth(used[k], perDay, seconds[k] - seconds[0]); }
      }
    } else {
      DifferentLevels(used[i], used[j], seconds[i] - seconds[0], seconds[j] - seconds[0], perDay);
    }
  }

  lemma NoGrowth(used: int, perDay: int, seconds: int)
    requires 86_400 * used == perDay * seconds && perDay == 0
    ensures 86_400 * used == 0
  {
  }

  lemma DifferentLevels(used: int, used': int, seconds: int, seconds': int, perDay: int)
    requires 86_400 * used == perDay * seconds && 86_400 * used' == perDay * seconds'
    requires perDay != 0 && seconds != seconds'
    ensures used != used'
  {
    assert perDay * seconds - perDay * seconds' == perDay * (seconds - seconds');
  }

  /** The fill prediction is the day the last usage, growing at the slope, meets the capacity. */
  lemma DaysUntilFullMeaning(samples: seq<Sample>, capacity: int)
    requires samples != []
    ensures var g := Regression(samples, capacity);
            var lastUsed := samples[|samples| - 1].usedBytes;
            && (g.daysUntilFull.Some? <==> g.growthBytesPerDay > 0.0 && capacity > 0)
            && (g.daysUntilFull.Some? ==>
                  && g.daysUntilFull.value >= 0.0
                  && (g.daysUntilFull.value == 0.0 <==> lastUsed >= capacity)
                  && (lastUsed < capacity ==>
                        lastUsed as real + Product(g.growthBytesPerDay, g.daysUntilFull.value) == capacity as real))
  {
    var g := Regression(samples, capacity);
    var lastUsed := samples[|samples| - 1].usedBytes;
    if g.growthBytesPerDay > 0.0 && lastUsed < capacity {
      FillTime((capacity - lastUsed) as real, g.growthBytesPerDay);
    }
  }

  lemma FillTime(room: real, slope: real)
    requires room > 0.0 && slope > 0.0
    ensures room / slope > 0.0
    ensures Product(slope, room / slope) == room
  {
  }
}

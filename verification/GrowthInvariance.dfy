/** What the growth trend does not depend on: the anchor sample, the clock's origin, the sample order. */
module GrowthInvariance {

  import opened Growth
  import opened Ordering
  import opened Times

  // ---------------------------------------------------------------------------
  // Moving every point along the time axis
  // ---------------------------------------------------------------------------

  function Shift(m: Moments, k: real): Moments {
    Moments(m.n, m.x + k * m.n, m.y, m.xx + 2.0 * (k * m.x) + k * k * m.n, m.xy + k * m.y, m.yy)
  }

  ghost predicate Translated(p: seq<Point>, q: seq<Point>, k: real) {
    |p| == |q| && forall i :: 0 <= i < |p| ==> q[i] == Point(p[i].x + k, p[i].y)
  }

  lemma ShiftIs(n: real, x: real, y: real, xx: real, xy: real, yy: real, k: real)
    ensures Shift(Moments(n, x, y, xx, xy, yy), k)
            == Moments(n, x + k * n, y, xx + 2.0 * (k * x) + k * k * n, xy + k * y, yy)
  {
    var m := Moments(n, x, y, xx, xy, yy);
    assert m.n == n && m.x == x && m.y == y;
    assert k * m.n == k * n && k * m.x == k * x && k * m.y == k * y && k * k * m.n == k * k * n;
  }

  lemma ShiftOfAdd(n: real, x: real, y: real, xx: real, xy: real, yy: real, qx: real, qy: real, k: real)
    ensures var m := Moments(n, x, y, xx, xy, yy);
            Shift(m.Add(Point(qx, qy)), k) == Shift(m, k).Add(Point(qx + k, qy))
  {
    hide Shift, Moments.Add;
    var m := Moments(n, x, y, xx, xy, yy);
    AddIs(m, qx, qy);
    ShiftIs(n, x, y, xx, xy, yy, k);
    ShiftIs(n + 1.0, x + qx, y + qy, xx + qx * qx, xy + qx * qy, yy + qy * qy, k);
    AddIs(Shift(m, k), qx + k, qy);
  }

  lemma ShiftOfZero(k: real)
    ensures Shift(ZERO_MOMENTS, k) == ZERO_MOMENTS
  {
  }

  lemma {:induction false} TranslatedMoments(p: seq<Point>, q: seq<Point>, k: real)
    requires Translated(p, q, k)
    ensures MomentsOf(q) == Shift(MomentsOf(p), k)
  {
    hide Shift, Moments.Add;
    if p == [] {
      ShiftOfZero(k);
    } else {
      var last, m := p[|p| - 1], MomentsOf(p[..|p| - 1]);
      TranslatedMoments(p[..|p| - 1], q[..|q| - 1], k);
      ShiftOfAdd(m.n, m.x, m.y, m.xx, m.xy, m.yy, last.x, last.y, k);
    }
  }

  lemma ShiftedSpreads(n: real, x: real, y: real, xx: real, xy: real, yy: real, k: real)
    ensures var m := Moments(n, x, y, xx, xy, yy);
            && Shift(m, k).XSpread() == m.XSpread()
            && Shift(m, k).XYSpread() == m.XYSpread()
  {
    var x', xx', xy' := x + k * n, xx + 2.0 * (k * x) + k * k * n, xy + k * y;
    assert n * xx' - x' * x' == n * xx - x * x;
    assert n * xy' - x' * y == n * xy - x * y;
  }

  lemma ShiftedIntercept(n: real, x: real, y: real, slope: real, k: real)
    requires n != 0.0
    ensures (y - slope * (x + k * n)) / n == (y - slope * x) / n - Product(slope, k)
  {
    assert (y - slope * (x + k * n)) == ((y - slope * x) / n - slope * k) * n;
  }

  lemma ShiftedLine(m: Moments, k: real)
    requires m.n != 0.0 && m.XSpread() != 0.0
    ensures Shift(m, k).XSpread() == m.XSpread()
    ensures Shift(m, k).Slope() == m.Slope()
    ensures Shift(m, k).Intercept() == m.Intercept() - Product(m.Slope(), k)
  {
    hide Moments.XSpread, Moments.XYSpread;
    ShiftedSpreads(m.n, m.x, m.y, m.xx, m.xy, m.yy, k);
    ShiftedIntercept(m.n, m.x, m.y, m.Slope(), k);
  }

  /** A line followed along the time axis stays equally far from the points. */
  lemma TranslatedResiduals(p: seq<Point>, q: seq<Point>, k: real, slope: real, intercept: real)
    requires Translated(p, q, k)
    ensures SquaredResiduals(q, slope, intercept - Product(slope, k)) == SquaredResiduals(p, slope, intercept)
  {
    hide SquaredDistance, Product;
    forall i | 0 <= i < |p|
      ensures SquaredDistances(q, slope, intercept - Product(slope, k))[i]
              == SquaredDistances(p, slope, intercept)[i]
    {
      SameDistance(p[i].x, p[i].y, slope, intercept, k);
    }
    assert SquaredDistances(q, slope, intercept - Product(slope, k)) == SquaredDistances(p, slope, intercept);
  }

  lemma SameDistance(x: real, y: real, slope: real, intercept: real, k: real)
    ensures SquaredDistance(Point(x + k, y), slope, intercept - Product(slope, k))
            == SquaredDistance(Point(x, y), slope, intercept)
  {
  }

  lemma TranslatedVariation(p: seq<Point>, q: seq<Point>, k: real)
    requires p != [] && Translated(p, q, k)
    requires MomentsOf(q).y == MomentsOf(p).y
    ensures TotalVariation(q) == TotalVariation(p)
  {
    hide SquaredResiduals, Product;
    TranslatedResiduals(p, q, k, 0.0, MeanY(p));
    assert MeanY(p) - Product(0.0, k) == MeanY(p);
  }

  lemma TranslationInvariance(p: seq<Point>, q: seq<Point>, k: real)
    requires p != [] && Translated(p, q, k)
    ensures MomentsOf(q).XSpread() == MomentsOf(p).XSpread()
    ensures MomentsOf(p).XSpread() != 0.0 ==>
              MomentsOf(q).Slope() == MomentsOf(p).Slope() && RSquared(q) == RSquared(p)
  {
    hide Moments.XSpread, Moments.Slope, Moments.Intercept, SquaredResiduals, TotalVariation, Shift, Product;
    var m := MomentsOf(p);
    TranslatedMoments(p, q, k);
    ShiftedSpreads(m.n, m.x, m.y, m.xx, m.xy, m.yy, k);
    if m.XSpread() != 0.0 {
      ShiftedLine(m, k);
      TranslatedResiduals(p, q, k, m.Slope(), m.Intercept());
      SameMean(m, k);
      TranslatedVariation(p, q, k);
      assert SquaredResiduals(q, MomentsOf(q).Slope(), MomentsOf(q).Intercept())
        == SquaredResiduals(p, m.Slope(), m.Intercept());
    }
  }

  lemma SameMean(m: Moments, k: real)
    ensures Shift(m, k).y == m.y
  {
  }

  /** Which sample anchors the time axis does not matter. */
  lemma AnchorInvariance(samples: seq<Sample>, anchor: int, other: int)
    requires samples != []
    ensures var p, q := Points(samples, anchor), Points(samples, other);
            && MomentsOf(q).XSpread() == MomentsOf(p).XSpread()
            && (MomentsOf(p).XSpread() != 0.0 ==>
                  MomentsOf(q).Slope() == MomentsOf(p).Slope() && RSquared(q) == RSquared(p))
  {
    hide Moments.XSpread, Moments.Slope, RSquared;
    var p, q := Points(samples, anchor), Points(samples, other);
    var k := (anchor - other) as real / SECONDS_PER_DAY;
    forall i | 0 <= i < |p| ensures q[i] == Point(p[i].x + k, p[i].y) {
      var s := UnixSeconds(samples[i].timestamp);
      assert (s - other) as real == (s - anchor) as real + (anchor - other) as real;
    }
    TranslationInvariance(p, q, k);
  }

  /** Moving every timestamp by the same number of seconds changes nothing. */
  lemma ClockInvariance(samples: seq<Sample>, moved: seq<Sample>, seconds: int, capacity: int)
    requires |moved| == |samples|
    requires forall i :: 0 <= i < |samples| ==>
               moved[i] == samples[i].(timestamp := samples[i].timestamp + seconds * SECOND)
    ensures Regression(moved, capacity) == Regression(samples, capacity)
  {
    if |samples| >= 2 {
      var anchor := UnixSeconds(samples[0].timestamp);
      forall i | 0 <= i < |samples|
        ensures ToPoint(moved[i], anchor + seconds) == ToPoint(samples[i], anchor)
      {
        WholeSeconds(samples[i].timestamp, seconds);
      }
      WholeSeconds(samples[0].timestamp, seconds);
      assert Points(moved, anchor + seconds) == Points(samples, anchor);
    }
  }

  lemma WholeSeconds(timestamp: int, seconds: int)
    ensures UnixSeconds(timestamp + seconds * SECOND) == UnixSeconds(timestamp) + seconds
  {
  }

  // ---------------------------------------------------------------------------
  // Reordering the samples
  // ---------------------------------------------------------------------------

  lemma AddCommutes(m: Moments, p: Point, q: Point)
    ensures m.Add(p).Add(q) == m.Add(q).Add(p)
  {
  }

  lemma {:induction false} MomentsWithout(p: seq<Point>, i: nat)
    requires i < |p|
    ensures MomentsOf(p) == MomentsOf(p[..i] + p[i + 1..]).Add(p[i])
  {
    hide Moments.Add;
    var q := p[..i] + p[i + 1..];
    if i == |p| - 1 {
      assert q == p[..|p| - 1];
    } else {
      var front := p[..|p| - 1];
      MomentsWithout(front, i);
      assert front[..i] + front[i + 1..] == q[..|q| - 1];
      AddCommutes(MomentsOf(q[..|q| - 1]), p[i], p[|p| - 1]);
    }
  }

  lemma {:induction false} MomentsPermute(s: seq<Sample>, r: seq<Sample>, anchor: int)
    requires Permutation(s, r)
    ensures MomentsOf(Points(s, anchor)) == MomentsOf(Points(r, anchor))
    decreases |s|
  {
    PermutationLength(s, r);
    if s != [] {
      hide Moments.Add, ToPoint;
      var i := TakeOutLast(s, r);
      var front, rest := s[..|s| - 1], r[..i] + r[i + 1..];
      MomentsPermute(front, rest, anchor);
      MomentsWithout(Points(r, anchor), i);
      assert Points(rest, anchor) == Points(r, anchor)[..i] + Points(r, anchor)[i + 1..];
      assert Points(s, anchor)[..|s| - 1] == Points(front, anchor);
    }
  }

  lemma SameMomentsSameFit(p: seq<Point>, q: seq<Point>)
    requires p != [] && |p| == |q| && MomentsOf(p) == MomentsOf(q) && MomentsOf(p).XSpread() != 0.0
    ensures RSquared(p) == RSquared(q)
  {
    hide Moments.XSpread, Moments.Slope, Moments.Intercept, Loss, SquaredResiduals;
    var m := MomentsOf(p);
    ResidualsAreLoss(p, 0.0, MeanY(p));
    ResidualsAreLoss(q, 0.0, MeanY(q));
    ResidualsAreLoss(p, m.Slope(), m.Intercept());
    ResidualsAreLoss(q, m.Slope(), m.Intercept());
  }

  /**
   The trend and its confidence are functions of the set of samples, not of their order; the
   fill prediction also looks at which sample comes last.
   */
  lemma OrderInvariance(s: seq<Sample>, r: seq<Sample>, capacity: int)
    requires Permutation(s, r)
    ensures Regression(s, capacity).growthBytesPerDay == Regression(r, capacity).growthBytesPerDay
    ensures Regression(s, capacity).confidenceR2 == Regression(r, capacity).confidenceR2
    ensures s != [] && r != [] && s[|s| - 1].usedBytes == r[|r| - 1].usedBytes ==>
              Regression(s, capacity) == Regression(r, capacity)
  {
    PermutationLength(s, r);
    if |s| >= 2 {
      hide Moments.XSpread, Moments.Slope, RSquared;
      var anchor, other := UnixSeconds(s[0].timestamp), UnixSeconds(r[0].timestamp);
      AnchorInvariance(r, other, anchor);
      MomentsPermute(s, r, anchor);
      if MomentsOf(Points(s, anchor)).XSpread() != 0.0 {
        SameMomentsSameFit(Points(s, anchor), Points(r, anchor));
      }
    }
  }
}

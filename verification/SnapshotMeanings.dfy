/** When the text behind the risk snapshot hash changes, in terms of the risks themselves. */
module SnapshotMeanings {

  import opened Decimals
  import opened Options
  import opened Ordering
  import opened PlanTypes
  import opened RiskSnapshot

  /** `n` millionths is what six decimals show of the size of `x`: the nearest number, the even one of two. */
  ghost predicate ShowsAs(x: real, negative: bool, n: nat) {
    var size := (if x < 0.0 then -x else x) * 1000000.0;
    && (negative <==> x < 0.0)
    && -0.5 <= n as real - size <= 0.5
    && (n as real - size == 0.5 || n as real - size == -0.5 ==> n % 2 == 0)
  }

  /** Six decimals show the same of both numbers. */
  ghost predicate SameDigits(x: real, y: real) {
    exists negative, n: nat :: ShowsAs(x, negative, n) && ShowsAs(y, negative, n)
  }

  lemma RoundedShows(x: real)
    ensures ShowsAs(x, Rounded(x).negative, Rounded(x).micros)
  {
    var size := (if x < 0.0 then -x else x) * 1000000.0;
    assert size == (if x < 0.0 then -x else x) * MILLION as real;
    RoundsToEven(size);
    hide RoundHalfEven;
  }

  lemma RoundsToEven(size: real)
    requires size >= 0.0
    ensures var n := RoundHalfEven(size);
            && -0.5 <= n as real - size <= 0.5
            && (n as real - size == 0.5 || n as real - size == -0.5 ==> n % 2 == 0)
  {
  }

  lemma ShowsOnce(x: real, negative: bool, n: nat, negative': bool, n': nat)
    requires ShowsAs(x, negative, n) && ShowsAs(x, negative', n')
    ensures negative == negative' && n == n'
  {
  }

  lemma SameDigitsRounded(x: real, y: real)
    ensures SameDigits(x, y) <==> Rounded(x) == Rounded(y)
  {
    RoundedShows(x);
    RoundedShows(y);
    hide ShowsAs, Rounded;
    if negative, n: nat :| ShowsAs(x, negative, n) && ShowsAs(y, negative, n) {
      ShowsOnce(x, negative, n, Rounded(x).negative, Rounded(x).micros);
      ShowsOnce(y, negative, n, Rounded(y).negative, Rounded(y).micros);
    }
  }

  ghost predicate SameSecondOf(t: Option<int>, u: Option<int>) {
    && (t.Some? <==> u.Some?)
    && (t.Some? && u.Some? ==> t.value / 1_000_000_000 == u.value / 1_000_000_000)
  }

  /** Same PVC, weekly growth and acceleration to six decimals, alert, and second of the date. */
  ghost predicate LooksLike(r: RiskSummary, s: RiskSummary) {
    && r.namespace == s.namespace && r.name == s.name
    && SameDigits(r.weeklyGrowthBytesPerDay, s.weeklyGrowthBytesPerDay)
    && SameDigits(r.growthAcceleration, s.growthAcceleration)
    && r.alertFiring == s.alertFiring && SameSecondOf(r.projectedFullAt, s.projectedFullAt)
  }

  lemma ShownAlike(r: RiskSummary, s: RiskSummary)
    ensures Show(r) == Show(s) <==> LooksLike(r, s)
  {
    SameDigitsRounded(r.weeklyGrowthBytesPerDay, s.weeklyGrowthBytesPerDay);
    SameDigitsRounded(r.growthAcceleration, s.growthAcceleration);
    hide Rounded, SameDigits;
  }

  /** Every risk of one list looks like some risk of the other. */
  ghost predicate AllLookLike(risks: seq<RiskSummary>, others: seq<RiskSummary>) {
    forall r :: r in risks ==> exists s :: s in others && LooksLike(r, s)
  }

  lemma ShownAmong(risks: seq<RiskSummary>, others: seq<RiskSummary>)
    ensures AllLookLike(risks, others) <==> forall x :: x in ShowAll(risks) ==> x in ShowAll(others)
  {
    hide Show, LooksLike;
    forall r, s ensures Show(r) == Show(s) <==> LooksLike(r, s) {
      ShownAlike(r, s);
    }
    if AllLookLike(risks, others) {
      forall x | x in ShowAll(risks) ensures x in ShowAll(others) {
        var i :| 0 <= i < |risks| && ShowAll(risks)[i] == x;
        assert risks[i] in risks;
        var s :| s in others && LooksLike(risks[i], s);
        ShownIn(others, s);
      }
    }
    if forall x :: x in ShowAll(risks) ==> x in ShowAll(others) {
      forall r | r in risks ensures exists s :: s in others && LooksLike(r, s) {
        ShownIn(risks, r);
        var j :| 0 <= j < |others| && ShowAll(others)[j] == Show(r);
        assert others[j] in others && LooksLike(r, others[j]);
      }
    }
  }

  lemma ShownIn(risks: seq<RiskSummary>, r: RiskSummary)
    requires r in risks
    ensures Show(r) in ShowAll(risks)
  {
    hide Show;
    var i :| 0 <= i < |risks| && risks[i] == r;
    assert ShowAll(risks)[i] == Show(r);
  }

  ghost predicate NoneTwice<T>(s: seq<T>) {
    forall i, j :: 0 <= i < j < |s| ==> s[i] != s[j]
  }

  lemma {:induction false} CountOnce<T>(s: seq<T>, x: T)
    requires NoneTwice(s)
    ensures multiset(s)[x] == if x in s then 1 else 0
  {
    if s != [] {
      var front, last := s[..|s| - 1], s[|s| - 1];
      assert s == front + [last];
      CountOnce(front, x);
      assert last !in front;
    }
  }

  lemma SameMembers<T(!new)>(s: seq<T>, t: seq<T>)
    requires NoneTwice(s) && NoneTwice(t)
    ensures Permutation(s, t) <==> forall x :: x in s <==> x in t
  {
    if forall x :: x in s <==> x in t {
      forall x ensures multiset(s)[x] == multiset(t)[x] {
        CountOnce(s, x);
        CountOnce(t, x);
      }
    }
    if Permutation(s, t) {
      forall x ensures x in s <==> x in t {
        assert x in s <==> x in multiset(s);
        assert x in t <==> x in multiset(t);
      }
    }
  }

  lemma ShownOnce(risks: seq<RiskSummary>)
    requires DistinctRisks(risks)
    ensures NoneTwice(ShowAll(risks))
  {
    hide Rounded;
  }

  /**
   For distinct PVCs the text changes exactly when some risk looks different: another PVC, growth
   or acceleration that differ in six decimals, another alert, another second of the date.
   Nothing else about the risks, and not their order, changes it.
   */
  lemma SnapshotChangesExactly(risks: seq<RiskSummary>, risks': seq<RiskSummary>, text: string, text': string)
    requires DistinctRisks(risks) && DistinctRisks(risks')
    requires CleanRisks(risks) && CleanRisks(risks')
    requires SnapshotText(risks, text) && SnapshotText(risks', text')
    ensures text == text' <==> AllLookLike(risks, risks') && AllLookLike(risks', risks)
  {
    SnapshotTextCanonical(risks, risks', text, text');
    ShownOnce(risks);
    ShownOnce(risks');
    hide CleanRisks, DistinctRisks, SnapshotText, AllLookLike, NoneTwice, Show;
    SameMembers(ShowAll(risks), ShowAll(risks'));
    ShownAmong(risks, risks');
    ShownAmong(risks', risks);
  }
}

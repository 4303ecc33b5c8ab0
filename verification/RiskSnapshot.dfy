/** The text of the top risks that computeRiskSnapshotHash feeds to SHA-256. */
module RiskSnapshot {

  import opened Calendar
  import opened Decimals
  import opened Options
  import opened Ordering
  import opened PlanTypes
  import opened Text
  import opened Times

  /** What the text shows of a risk. */
  datatype Shown = Shown(
    namespace: string, name: string, growth: Decimal, acceleration: Decimal, firing: bool, fullAtSecond: Option<int>)

  function Show(r: RiskSummary): Shown {
    Shown(r.namespace, r.name, Rounded(r.weeklyGrowthBytesPerDay), Rounded(r.growthAcceleration), r.alertFiring,
          if r.projectedFullAt.Some? then Some(r.projectedFullAt.value / SECOND) else None)
  }

  function ShowAll(risks: seq<RiskSummary>): (r: seq<Shown>)
    ensures |r| == |risks|
  {
    seq(|risks|, i requires 0 <= i < |risks| => Show(risks[i]))
  }

  function TimeText(second: Option<int>): string {
    if second.Some? then Rfc3339(second.value) else ""
  }

  function FiringOn(s: Shown): string { BoolText(s.firing) + "|" + TimeText(s.fullAtSecond) }
  function AccelerationOn(s: Shown): string { DecimalText(s.acceleration) + "|" + FiringOn(s) }
  function GrowthOn(s: Shown): string { DecimalText(s.growth) + "|" + AccelerationOn(s) }
  function NameOn(s: Shown): string { s.name + "|" + GrowthOn(s) }
  function Line(s: Shown): string { s.namespace + "/" + NameOn(s) }

  function LinesText(rows: seq<Shown>): string {
    if rows == [] then "" else Line(rows[0]) + "\n" + LinesText(rows[1..])
  }

  // ---------------------------------------------------------------------------
  // The text
  // ---------------------------------------------------------------------------

  predicate RowLess(a: Shown, b: Shown) {
    if a.namespace == b.namespace then StringLess(a.name, b.name) else StringLess(a.namespace, b.namespace)
  }

  predicate RiskKeyLess(a: RiskSummary, b: RiskSummary) {
    if a.namespace == b.namespace then StringLess(a.name, b.name) else StringLess(a.namespace, b.namespace)
  }

  /** The text is the lines of the risks in some order that the sort can produce. */
  ghost predicate SnapshotText(risks: seq<RiskSummary>, text: string) {
    exists rows :: Permutation(rows, ShowAll(risks)) && Sorted(RowLess, rows) && text == LinesText(rows)
  }

  lemma {:induction false} LinesTextAppend(rows: seq<Shown>, last: Shown)
    ensures LinesText(rows + [last]) == LinesText(rows) + Line(last) + "\n"
  {
    hide Line;
    if rows == [] {
      assert rows + [last] == [last] && [last][1..] == [];
    } else {
      LinesTextAppend(rows[1..], last);
      assert (rows + [last])[1..] == rows[1..] + [last];
    }
  }

  lemma {:induction false} ShowingPermutes(s: seq<RiskSummary>, t: seq<RiskSummary>)
    requires Permutation(s, t)
    ensures Permutation(ShowAll(s), ShowAll(t))
  {
    if s == [] {
      PermutationLength(s, t);
    } else {
      var i := TakeOutLast(s, t);
      var front, last := s[..|s| - 1], s[|s| - 1];
      ShowingPermutes(front, t[..i] + t[i + 1..]);
      hide Show;
      assert ShowAll(s) == ShowAll(front) + [Show(last)];
      assert ShowAll(t[..i] + t[i + 1..]) == ShowAll(t[..i]) + ShowAll(t[i + 1..]);
      assert ShowAll(t) == ShowAll(t[..i]) + [Show(last)] + ShowAll(t[i + 1..]);
    }
  }

  lemma RiskKeyLessIsStrictWeak()
    ensures StrictWeak(RiskKeyLess)
  {
    StringOrder();
  }

  lemma ShowingKeepsSorted(risks: seq<RiskSummary>)
    requires Sorted(RiskKeyLess, risks)
    ensures Sorted(RowLess, ShowAll(risks))
  {
    var rows := ShowAll(risks);
    forall i, j | 0 <= i < j < |rows| ensures !RowLess(rows[j], rows[i]) {
      assert !RiskKeyLess(risks[j], risks[i]);
    }
  }

  /** The text hashed; the empty list gives the empty string and no hash. */
  method ComputeRiskSnapshotText(topRisks: seq<RiskSummary>) returns (text: string)
    ensures SnapshotText(topRisks, text)
    ensures text == "" <==> topRisks == []
  {
    hide Rounded, DecimalText, Rfc3339, RiskKeyLess;
    if |topRisks| == 0 {
      assert Permutation([], ShowAll(topRisks)) && LinesText([]) == "";
      return "";
    }
    RiskKeyLessIsStrictWeak();
    var normalized := SortSlice(topRisks, RiskKeyLess);
    PermutationLength(normalized, topRisks);
    text := "";
    for i := 0 to |normalized|
      invariant text == LinesText(ShowAll(normalized[..i]))
      invariant text == "" <==> i == 0
    {
      var r := normalized[i];
      LinesTextAppend(ShowAll(normalized[..i]), Show(r));
      assert ShowAll(normalized[..i + 1]) == ShowAll(normalized[..i]) + [Show(r)];
      var line := r.namespace + "/" + (r.name + "|" + (Fixed6(r.weeklyGrowthBytesPerDay) + "|"
        + (Fixed6(r.growthAcceleration) + "|" + (BoolText(r.alertFiring) + "|"))));
      ghost var begun := line;
      if r.projectedFullAt.Some? {
        line := line + Rfc3339(r.projectedFullAt.value / SECOND);
      }
      assert line == Line(Show(r)) by {
        LineFromFront(Show(r));
        assert line == begun + TimeText(Show(r).fullAtSecond);
      }
      text := text + line + "\n";
    }
    assert normalized[..|normalized|] == normalized;
    ShowingPermutes(normalized, topRisks);
    ShowingKeepsSorted(normalized);
  }

  lemma LineFromFront(s: Shown)
    ensures Line(s) == s.namespace + "/" + (s.name + "|" + (DecimalText(s.growth) + "|"
        + (DecimalText(s.acceleration) + "|" + (BoolText(s.firing) + "|")))) + TimeText(s.fullAtSecond)
  {
    hide DecimalText, TimeText, BoolText;
  }

  // ---------------------------------------------------------------------------
  // Equal texts show equal risks
  // ---------------------------------------------------------------------------

  /** No name holds the separator that ends it, or a newline. Kubernetes names satisfy this. */
  predicate Clean(s: Shown) {
    && '/' !in s.namespace && '\n' !in s.namespace
    && '|' !in s.name && '\n' !in s.name
  }

  lemma TimeTextInjective(t: Option<int>, u: Option<int>)
    requires TimeText(t) == TimeText(u)
    ensures t == u
  {
    if t.Some? {
      Rfc3339Visible(t.value);
    }
    if u.Some? {
      Rfc3339Visible(u.value);
    }
    if t.Some? && u.Some? {
      Rfc3339Injective(t.value, u.value);
    }
  }

  lemma Rfc3339Visible(second: int)
    ensures Rfc3339(second) != ""
  {
    hide DateOf;
    ClockLength(second % Calendar.SECONDS_PER_DAY);
  }

  lemma FieldCharacters(s: Shown)
    ensures '|' !in BoolText(s.firing) && '|' !in DecimalText(s.growth) && '|' !in DecimalText(s.acceleration)
  {
    hide DecimalText;
    DecimalCharacters(s.growth);
    DecimalCharacters(s.acceleration);
  }

  lemma LineInjective(s: Shown, t: Shown)
    requires Clean(s) && Clean(t)
    requires Line(s) == Line(t)
    ensures s == t
  {
    hide DecimalText, TimeText, BoolText;
    FieldCharacters(s);
    FieldCharacters(t);
    CutUnique(s.namespace, NameOn(s), t.namespace, NameOn(t), '/');
    CutUnique(s.name, GrowthOn(s), t.name, GrowthOn(t), '|');
    CutUnique(DecimalText(s.growth), AccelerationOn(s), DecimalText(t.growth), AccelerationOn(t), '|');
    CutUnique(DecimalText(s.acceleration), FiringOn(s), DecimalText(t.acceleration), FiringOn(t), '|');
    CutUnique(BoolText(s.firing), TimeText(s.fullAtSecond), BoolText(t.firing), TimeText(t.fullAtSecond), '|');
    DecimalInjective(s.growth, t.growth);
    DecimalInjective(s.acceleration, t.acceleration);
    TimeTextInjective(s.fullAtSecond, t.fullAtSecond);
    BoolTextInjective(s.firing, t.firing);
  }

  lemma LineHasNoNewline(s: Shown)
    requires Clean(s)
    ensures '\n' !in Line(s)
  {
    hide DecimalText, Rfc3339;
    DecimalCharacters(s.growth);
    DecimalCharacters(s.acceleration);
    if s.fullAtSecond.Some? {
      Rfc3339Characters(s.fullAtSecond.value);
    }
  }

  lemma {:induction false} LinesTextInjective(rows: seq<Shown>, rows': seq<Shown>)
    requires (forall r :: r in rows ==> Clean(r)) && (forall r :: r in rows' ==> Clean(r))
    requires LinesText(rows) == LinesText(rows')
    ensures rows == rows'
  {
    hide Line, Clean;
    if rows != [] && rows' != [] {
      LineHasNoNewline(rows[0]);
      LineHasNoNewline(rows'[0]);
      CutUnique(Line(rows[0]), LinesText(rows[1..]), Line(rows'[0]), LinesText(rows'[1..]), '\n');
      LineInjective(rows[0], rows'[0]);
      LinesTextInjective(rows[1..], rows'[1..]);
      assert rows == [rows[0]] + rows[1..] && rows' == [rows'[0]] + rows'[1..];
    }
  }

  ghost predicate CleanRisks(risks: seq<RiskSummary>) {
    forall r :: r in risks ==> Clean(Show(r))
  }

  lemma RowsAreClean(risks: seq<RiskSummary>, rows: seq<Shown>)
    requires CleanRisks(risks) && Permutation(rows, ShowAll(risks))
    ensures forall r :: r in rows ==> Clean(r)
  {
    hide Show, Clean;
    forall r | r in rows ensures Clean(r) {
      assert r in multiset(rows);
      assert r in ShowAll(risks);
    }
  }

  /** Equal texts, and so equal hashes up to collisions of SHA-256, mean equal risks to the digits shown. */
  lemma SnapshotTextInjective(risks: seq<RiskSummary>, risks': seq<RiskSummary>, text: string)
    requires CleanRisks(risks) && CleanRisks(risks')
    requires SnapshotText(risks, text) && SnapshotText(risks', text)
    ensures Permutation(ShowAll(risks), ShowAll(risks'))
  {
    hide CleanRisks, SnapshotText, Line, LinesText, RowLess, Show;
    var rows := RowsOf(risks, text);
    var rows' := RowsOf(risks', text);
    LinesTextInjective(rows, rows');
  }

  /** The rows behind a text. */
  lemma RowsOf(risks: seq<RiskSummary>, text: string) returns (rows: seq<Shown>)
    requires CleanRisks(risks) && SnapshotText(risks, text)
    ensures Permutation(rows, ShowAll(risks)) && text == LinesText(rows)
    ensures forall r :: r in rows ==> Clean(r)
  {
    hide CleanRisks, LinesText, RowLess, Show, Clean;
    rows :| Permutation(rows, ShowAll(risks)) && Sorted(RowLess, rows) && text == LinesText(rows);
    RowsAreClean(risks, rows);
  }

  // ---------------------------------------------------------------------------
  // Equal risks have equal texts
  // ---------------------------------------------------------------------------

  ghost predicate DistinctRisks(risks: seq<RiskSummary>) {
    forall i, j :: 0 <= i < j < |risks| ==> (risks[i].namespace, risks[i].name) != (risks[j].namespace, risks[j].name)
  }

  lemma DistinctRowsSeparate(risks: seq<RiskSummary>)
    requires DistinctRisks(risks)
    ensures Separated(RowLess, ShowAll(risks))
  {
    StringOrder();
    hide Rounded, StringLess;
  }

  /** For distinct PVCs, the text is the same exactly when the same things are shown, in whatever order they came. */
  lemma SnapshotTextCanonical(risks: seq<RiskSummary>, risks': seq<RiskSummary>, text: string, text': string)
    requires DistinctRisks(risks) && DistinctRisks(risks')
    requires CleanRisks(risks) && CleanRisks(risks')
    requires SnapshotText(risks, text) && SnapshotText(risks', text')
    ensures text == text' <==> Permutation(ShowAll(risks), ShowAll(risks'))
  {
    hide CleanRisks, DistinctRisks, LinesText, RowLess;
    if text == text' {
      SnapshotTextInjective(risks, risks', text);
    }
    if Permutation(ShowAll(risks), ShowAll(risks')) {
      DistinctRowsSeparate(risks);
      TextDetermined(ShowAll(risks), ShowAll(risks'), text, text');
    }
  }

  lemma TextDetermined(shown: seq<Shown>, shown': seq<Shown>, text: string, text': string)
    requires Separated(RowLess, shown) && Permutation(shown, shown')
    requires exists rows :: Permutation(rows, shown) && Sorted(RowLess, rows) && text == LinesText(rows)
    requires exists rows :: Permutation(rows, shown') && Sorted(RowLess, rows) && text' == LinesText(rows)
    ensures text == text'
  {
    hide Line, LinesText, RowLess;
    var rows :| Permutation(rows, shown) && Sorted(RowLess, rows) && text == LinesText(rows);
    var rows' :| Permutation(rows', shown') && Sorted(RowLess, rows') && text' == LinesText(rows');
    SeparatedPermutes(RowLess, shown, rows);
    SortUnique(RowLess, rows, rows');
  }

  /** In particular the order in which the top risks are listed does not matter. */
  lemma SnapshotIgnoresOrder(risks: seq<RiskSummary>, risks': seq<RiskSummary>, text: string, text': string)
    requires DistinctRisks(risks) && DistinctRisks(risks') && CleanRisks(risks) && CleanRisks(risks')
    requires Permutation(risks, risks')
    requires SnapshotText(risks, text) && SnapshotText(risks', text')
    ensures text == text'
  {
    ShowingPermutes(risks, risks');
    SnapshotTextCanonical(risks, risks', text, text');
  }
}

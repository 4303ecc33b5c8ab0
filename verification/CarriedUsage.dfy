/** What a summary shows as the usage of a PVC that has no samples, over runs of reconciles. */
module CarriedUsage {

  import opened Growth
  import opened Insights
  import opened Options
  import opened RiskSignals
  import opened Times

  /** What the stored status holds of a PVC's usage. */
  datatype Carried = Carried(usedBytes: int, lastSampleTime: Option<int>)

  const NOTHING_CARRIED := Carried(0, None)

  function CarriedAfter(stored: Carried, step: Step): Carried {
    if !step.updated then stored
    else if step.Cleared? then NOTHING_CARRIED
    else
      var s := Summary(step.i);
      Carried(s.usedBytes, StoredTime(s.lastSampleTime))
  }

  predicate FindsUsage(stored: Carried, i: SummaryInput) {
    i.prev.usedBytes == stored.usedBytes && i.prev.lastSampleTime == stored.lastSampleTime
  }

  /** The usage stored after a run that starts with nothing stored. */
  function CarriedAfterRun(run: seq<Step>): Carried {
    if run == [] then NOTHING_CARRIED else CarriedAfter(CarriedAfterRun(run[..|run| - 1]), run[|run| - 1])
  }

  ghost predicate IsUsageRun(run: seq<Step>) {
    forall k :: 0 <= k < |run| && run[k].Active? ==> FindsUsage(CarriedAfterRun(run[..k]), run[k].i)
  }

  predicate StoresUsage(step: Step) {
    step.Active? && step.updated && step.i.samples != []
  }

  /** Step `j` was the last to store a usage of its own samples, and nothing was cleared since. */
  ghost predicate LastStored(run: seq<Step>, j: int) {
    && 0 <= j < |run| && StoresUsage(run[j])
    && forall m :: j < m < |run| ==> !StoresUsage(run[m]) && !StoresClearing(run[m])
  }

  /** The usage and the second of a step's last sample. */
  ghost predicate IsOfLastSample(step: Step, c: Carried)
    requires step.Active? && step.i.samples != []
  {
    var last := step.i.samples[|step.i.samples| - 1];
    c.usedBytes == last.usedBytes && c.lastSampleTime == Some(last.timestamp / 1_000_000_000 * 1_000_000_000)
  }

  predicate Whole(c: Carried) {
    c.lastSampleTime.Some? ==> Stored(c.lastSampleTime.value) == c.lastSampleTime.value
  }

  lemma StepCarries(stored: Carried, step: Step)
    requires Whole(stored) && (step.Active? ==> FindsUsage(stored, step.i))
    ensures StoresUsage(step) ==> IsOfLastSample(step, CarriedAfter(stored, step))
    ensures StoresClearing(step) ==> CarriedAfter(stored, step) == NOTHING_CARRIED
    ensures !StoresUsage(step) && !StoresClearing(step) ==> CarriedAfter(stored, step) == stored
    ensures Whole(CarriedAfter(stored, step))
  {
    hide Regression, Asks;
    if StoresUsage(step) {
      StoredTwice(step.i.samples[|step.i.samples| - 1].timestamp);
    }
  }

  lemma LastStoredAfter(front: seq<Step>, last: Step, j: int)
    ensures LastStored(front + [last], j) <==>
            if j == |front| then StoresUsage(last)
            else LastStored(front, j) && !StoresUsage(last) && !StoresClearing(last)
  {
    var run := front + [last];
    if 0 <= j < |front| {
      assert run[j] == front[j] && run[|front|] == last;
      assert forall m :: 0 <= m < |front| ==> run[m] == front[m];
    }
  }

  lemma UsageRunFront(front: seq<Step>, last: Step)
    requires IsUsageRun(front + [last])
    ensures IsUsageRun(front)
    ensures CarriedAfterRun(front + [last]) == CarriedAfter(CarriedAfterRun(front), last)
    ensures last.Active? ==> FindsUsage(CarriedAfterRun(front), last.i)
  {
    var run := front + [last];
    assert run[..|front|] == front && run[|front|] == last;
    hide CarriedAfter, FindsUsage;
    forall k | 0 <= k < |front| && front[k].Active? ensures FindsUsage(CarriedAfterRun(front[..k]), front[k].i) {
      assert run[k] == front[k] && run[..k] == front[..k];
    }
  }

  lemma {:induction false} CarriedIsLastStored(run: seq<Step>)
    requires IsUsageRun(run)
    ensures Whole(CarriedAfterRun(run))
    ensures forall j :: LastStored(run, j) ==> IsOfLastSample(run[j], CarriedAfterRun(run))
    ensures (forall j :: !LastStored(run, j)) ==> CarriedAfterRun(run) == NOTHING_CARRIED
  {
    if run != [] {
      var front, last := run[..|run| - 1], run[|run| - 1];
      assert run == front + [last];
      UsageRunFront(front, last);
      CarriedIsLastStored(front);
      StepCarries(CarriedAfterRun(front), last);
      forall j ensures LastStored(run, j) <==>
          if j == |front| then StoresUsage(last)
          else LastStored(front, j) && !StoresUsage(last) && !StoresClearing(last) {
        LastStoredAfter(front, last, j);
      }
      hide IsUsageRun, FindsUsage, CarriedAfter, CarriedAfterRun, Whole;
      forall j | LastStored(run, j) ensures IsOfLastSample(run[j], CarriedAfterRun(run)) {
        if j != |front| {
          assert LastStored(front, j);
          assert front[j] == run[j];
        }
      }
      if forall j :: !LastStored(run, j) {
        assert !LastStored(run, |front|);
        if !StoresClearing(last) {
          forall j ensures !LastStored(front, j) {
            assert !LastStored(run, j);
          }
        }
      }
    }
  }

  /**
   Over every run with failed status updates and clearings: a PVC without samples is shown with the
   usage of the last sample that was stored, unless a clearing was stored since, and then with
   none.
   */
  lemma UsageWithoutSamples(run: seq<Step>, i: SummaryInput)
    requires IsUsageRun(run) && FindsUsage(CarriedAfterRun(run), i) && i.samples == []
    ensures
      var shown := Carried(Summary(i).usedBytes, Summary(i).lastSampleTime);
      && (forall j :: LastStored(run, j) ==> IsOfLastSample(run[j], shown))
      && ((forall j :: !LastStored(run, j)) ==> shown == NOTHING_CARRIED)
  {
    CarriedIsLastStored(run);
    hide CarriedAfterRun, IsUsageRun, LastStored, IsOfLastSample, Regression;
    assert Carried(Summary(i).usedBytes, Summary(i).lastSampleTime) == CarriedAfterRun(run);
  }
}

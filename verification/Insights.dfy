/**
 How often a PVC's LLM insight is asked for, over runs of reconciles that share nothing but the
 plan's stored status. A reconcile whose status update fails leaves that status as it was, and a
 plan that goes inactive clears it.
 */
module Insights {

  import opened Options
  import opened RiskSignals
  import opened Times

  /** What the stored status holds of a PVC's insight. */
  datatype Memory = Memory(insight: string, time: Option<int>)

  const NOTHING := Memory("", None)

  /** One reconcile that reached its status update, as one PVC meets it. */
  datatype Step =
    | Active(i: SummaryInput, updated: bool)
    | Cleared(updated: bool) // the plan is not the active one, or the PVC is not in its scope

  predicate Wanted(i: SummaryInput) {
    i.llm.enabled && !(i.llm.onlyAlertingPVCs && !Summary(i).alertFiring)
  }

  predicate Asked(i: SummaryInput) {
    Asks(i.llm, Summary(i).alertFiring, i.prev.lastLLMTime)
  }

  /** The reconcile puts a new insight into the summary. */
  predicate Refreshes(i: SummaryInput) {
    Asked(i) && i.llm.answer.Some?
  }

  function MemoryAfter(stored: Memory, step: Step): Memory {
    if !step.updated then stored
    else if step.Cleared? then NOTHING
    else
      var s := Summary(step.i);
      Memory(s.llmInsight, StoredTime(s.lastLLMTime))
  }

  /** The reconcile starts from what is stored. */
  predicate Finds(stored: Memory, i: SummaryInput) {
    i.prev.llmInsight == stored.insight && i.prev.lastLLMTime == stored.time
  }

  /** The memory after a run that starts with nothing stored. */
  function MemoryAfterRun(run: seq<Step>): Memory {
    if run == [] then NOTHING else MemoryAfter(MemoryAfterRun(run[..|run| - 1]), run[|run| - 1])
  }

  ghost predicate IsRun(run: seq<Step>) {
    forall k :: 0 <= k < |run| && run[k].Active? ==> Finds(MemoryAfterRun(run[..k]), run[k].i)
  }

  predicate StoresInsight(step: Step) {
    step.Active? && step.updated && Refreshes(step.i)
  }

  predicate StoresClearing(step: Step) {
    step.Cleared? && step.updated
  }

  /** The insight the status holds is the one of step `j`: none was stored later, nor was it cleared. */
  ghost predicate Current(run: seq<Step>, j: int) {
    && 0 <= j < |run| && StoresInsight(run[j])
    && forall m :: j < m < |run| ==> !StoresInsight(run[m]) && !StoresClearing(run[m])
  }

  function InsightOf(step: Step): Memory
    requires step.Active? && step.i.llm.answer.Some?
  {
    Memory(step.i.llm.answer.value, Some(Stored(step.i.llm.answeredAt)))
  }

  lemma StoredTwice(t: int)
    ensures Stored(Stored(t)) == Stored(t)
  {
    assert Stored(t) == t / SECOND * SECOND;
  }

  /** A stored time is stored again as it is. */
  predicate Settled(m: Memory) {
    m.time.Some? ==> Stored(m.time.value) == m.time.value
  }

  lemma StepMemory(stored: Memory, step: Step)
    requires Settled(stored) && (step.Active? ==> Finds(stored, step.i))
    ensures StoresInsight(step) ==> MemoryAfter(stored, step) == InsightOf(step)
    ensures StoresClearing(step) ==> MemoryAfter(stored, step) == NOTHING
    ensures !StoresInsight(step) && !StoresClearing(step) ==> MemoryAfter(stored, step) == stored
    ensures Settled(MemoryAfter(stored, step))
  {
    if StoresInsight(step) {
      StoredTwice(step.i.llm.answeredAt);
    }
    hide Stored;
  }

  /** What one more step does to which insight is current. */
  lemma CurrentAfter(front: seq<Step>, last: Step, j: int)
    ensures Current(front + [last], j) <==>
            if j == |front| then StoresInsight(last)
            else Current(front, j) && !StoresInsight(last) && !StoresClearing(last)
  {
    hide Refreshes;
    var run := front + [last];
    if 0 <= j < |front| {
      assert run[j] == front[j] && run[|front|] == last;
      assert forall m :: 0 <= m < |front| ==> run[m] == front[m];
    }
  }

  lemma RunFront(front: seq<Step>, last: Step)
    requires IsRun(front + [last])
    ensures IsRun(front)
    ensures MemoryAfterRun(front + [last]) == MemoryAfter(MemoryAfterRun(front), last)
    ensures last.Active? ==> Finds(MemoryAfterRun(front), last.i)
  {
    var run := front + [last];
    assert run[..|front|] == front && run[|front|] == last;
    hide MemoryAfter, Finds;
    forall k | 0 <= k < |front| && front[k].Active? ensures Finds(MemoryAfterRun(front[..k]), front[k].i) {
      assert run[k] == front[k] && run[..k] == front[..k];
    }
  }

  /** The status holds the last stored insight unless it was cleared since. */
  lemma {:induction false} MemoryIsCurrent(run: seq<Step>)
    requires IsRun(run)
    ensures Settled(MemoryAfterRun(run))
    ensures forall j :: Current(run, j) ==> MemoryAfterRun(run) == InsightOf(run[j])
    ensures (forall j :: !Current(run, j)) ==> MemoryAfterRun(run) == NOTHING
  {
    if run != [] {
      var front, last := run[..|run| - 1], run[|run| - 1];
      assert run == front + [last];
      RunFront(front, last);
      MemoryIsCurrent(front);
      StepMemory(MemoryAfterRun(front), last);
      forall j ensures Current(run, j) <==>
          if j == |front| then StoresInsight(last)
          else Current(front, j) && !StoresInsight(last) && !StoresClearing(last) {
        CurrentAfter(front, last, j);
      }
      hide IsRun, Finds, MemoryAfter, MemoryAfterRun, Refreshes, InsightOf, Settled;
      forall j | Current(run, j) ensures MemoryAfterRun(run) == InsightOf(run[j]) {
        if j != |front| {
          assert Current(front, j);
          assert front[j] == run[j];
        }
      }
      if forall j :: !Current(run, j) {
        assert !Current(run, |front|);
        if !StoresClearing(last) {
          forall j ensures !Current(front, j) {
            assert !Current(run, j);
          }
        }
      }
    }
  }

  /**
   When the LLM is asked, over every run: the insight is wanted, and the one that is still stored,
   if there is one, is an interval old.
   */
  lemma AskedExactly(run: seq<Step>, i: SummaryInput)
    requires IsRun(run) && Finds(MemoryAfterRun(run), i)
    ensures Asked(i) <==>
            Wanted(i) && forall j :: Current(run, j) ==> i.llm.now - Stored(run[j].i.llm.answeredAt) >= i.llm.interval
  {
    MemoryIsCurrent(run);
    hide Summary, MemoryAfterRun, IsRun, Current, Stored;
    if j :| Current(run, j) {
      assert MemoryAfterRun(run) == InsightOf(run[j]);
      assert forall k :: Current(run, k) ==> InsightOf(run[k]) == InsightOf(run[j]);
    }
  }

  /** A stored insight that is not cleared is at least its interval older, by its stored time, than the next one. */
  lemma InsightsAreSpaced(run: seq<Step>, j: nat, k: nat)
    requires IsRun(run) && j < k < |run|
    requires StoresInsight(run[j]) && run[k].Active? && Asked(run[k].i)
    requires forall m :: j < m < k ==> !StoresInsight(run[m]) && !StoresClearing(run[m])
    ensures run[k].i.llm.now - Stored(run[j].i.llm.answeredAt) >= run[k].i.llm.interval
  {
    var before := run[..k];
    assert forall m :: 0 <= m < k ==> before[..m] == run[..m];
    AskedExactly(before, run[k].i);
    assert Current(before, j);
    assert before[j] == run[j];
  }

  /** An answer that could not be stored is forgotten, and the LLM is asked again at once. */
  lemma UnstoredIsAskedAgain(run: seq<Step>, i: SummaryInput, again: SummaryInput)
    requires IsRun(run + [Active(i, false)]) && Finds(MemoryAfterRun(run + [Active(i, false)]), again)
    requires Asked(i) && Wanted(again) && again.llm.now >= i.llm.now && again.llm.interval == i.llm.interval
    ensures Asked(again)
  {
    var longer := run + [Active(i, false)];
    assert longer[..|run|] == run && longer[|run|] == Active(i, false);
    hide Summary;
  }

  /** Once the status was cleared the LLM is asked at the first chance, however young the last insight is. */
  lemma ClearedIsAskedAgain(run: seq<Step>, i: SummaryInput)
    requires IsRun(run) && Finds(MemoryAfterRun(run), i)
    requires exists c :: 0 <= c < |run| && StoresClearing(run[c]) &&
               forall m :: c < m < |run| ==> !StoresInsight(run[m])
    ensures Asked(i) <==> Wanted(i)
  {
    AskedExactly(run, i);
    hide Asked, Wanted, MemoryAfterRun, IsRun, Stored;
  }
}

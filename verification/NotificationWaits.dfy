/** Which reconciles send, told from the specs and plans of the run alone. */
module NotificationWaits {

  import opened Notification
  import opened Options
  import opened Text
  import opened Times

  /** The plan stands for this hash: the one in its status, or the one computed where that is blank. */
  ghost predicate StandsFor(plan: PlanLookup, hash: string) {
    && plan.PlanFound?
    && (TrimSpace(plan.statusHash) != "" ==> hash == TrimSpace(plan.statusHash))
    && (TrimSpace(plan.statusHash) == "" ==> hash == plan.computedHash)
  }

  /** `later` asks for changes only, and shows the risks of `earlier`. */
  ghost predicate Repeats(earlier: Input, later: Input) {
    later.spec.onChangeOnly && exists hash :: hash != "" && StandsFor(earlier.plan, hash) && StandsFor(later.plan, hash)
  }

  /** Nothing but the notifications sent before can keep this one back. */
  ghost predicate Presentable(i: Input) {
    i.self.Present? && TrimSpace(i.spec.planRefName) != "" && i.plan.PlanFound?
  }

  ghost predicate HasChannel(i: Input) { i.spec.slackEnabled || i.spec.emailEnabled }

  lemma HashStandsFor(plan: PlanLookup, hash: string)
    ensures StandsFor(plan, hash) <==> plan.PlanFound? && hash == HashOf(plan)
  {
    hide TrimSpace;
  }

  lemma RepeatsByHash(earlier: Input, later: Input)
    requires earlier.plan.PlanFound?
    ensures Repeats(earlier, later) <==>
              later.spec.onChangeOnly && later.plan.PlanFound? && HashOf(later.plan) != ""
              && HashOf(later.plan) == HashOf(earlier.plan)
  {
    hide HashOf, StandsFor;
    forall hash ensures StandsFor(earlier.plan, hash) <==> hash == HashOf(earlier.plan) {
      HashStandsFor(earlier.plan, hash);
    }
    forall hash ensures StandsFor(later.plan, hash) <==> later.plan.PlanFound? && hash == HashOf(later.plan) {
      HashStandsFor(later.plan, hash);
    }
    assert StandsFor(earlier.plan, HashOf(earlier.plan));
  }

  lemma WaitedByStatus(stored: Status, earlier: Input, later: Input)
    requires stored.lastSentTime == Some(Stored(earlier.now))
    ensures Waited(earlier, later) <==> later.now - stored.lastSentTime.value >= EffectiveCooldown(later.spec)
  {
    assert Stored(earlier.now) == earlier.now / 1_000_000_000 * 1_000_000_000;
    hide Stored;
  }

  /** The way of a reconcile whose status shows `sent`. */
  lemma DecideAfter(stored: Status, sent: seq<Input>, i: Input)
    requires ShowsLast(stored, sent) && Presentable(i)
    ensures
      var repeats := sent != [] && Repeats(sent[|sent| - 1], i);
      var waited := sent == [] || Waited(sent[|sent| - 1], i);
      Decide(stored, i) ==
        if repeats then NoChange else if !waited then Cooldown else if HasChannel(i) then Sent else NoChannels
  {
    if sent != [] {
      RepeatsByHash(sent[|sent| - 1], i);
      WaitedByStatus(stored, sent[|sent| - 1], i);
    }
    hide HashOf, TrimSpace, Repeats, Waited, EffectiveCooldown;
  }

  lemma NotPresentable(stored: Status, i: Input)
    requires !Presentable(i)
    ensures Decide(stored, i) in {Gone, InvalidSpec, PlanNotFound, LookupFailed}
  {
    hide TrimSpace;
  }

  /**
   The way of the next reconcile, over every run, in terms of the last notification recorded: an
   unchanged one is skipped where changes are asked for, one before its wait is over is held back,
   and every other one is sent if it has a channel.
   */
  lemma NextOutcome(inputs: seq<Input>, i: Input)
    requires Presentable(i)
    ensures
      var sent, outcome := Recorded(inputs), Decide(Run(inputs), i);
      && (outcome == NoChange <==> sent != [] && Repeats(sent[|sent| - 1], i))
      && (outcome == Cooldown <==> sent != [] && !Repeats(sent[|sent| - 1], i) && !Waited(sent[|sent| - 1], i))
      && (outcome == Sent <==>
            HasChannel(i) && (sent == [] || (Waited(sent[|sent| - 1], i) && !Repeats(sent[|sent| - 1], i))))
      && outcome in {NoChange, Cooldown, Sent, NoChannels}
  {
    RunShowsLast(inputs);
    hide ShowsLast, Decide, Waited, Repeats, Presentable, HasChannel;
    DecideAfter(Run(inputs), Recorded(inputs), i);
  }

  /**
   A notification is recorded exactly when it can be shown, has a channel and a status update that
   succeeds, and the wait after the one before it is over and its risks are not the same.
   */
  lemma RecordedExactly(inputs: seq<Input>, i: Input)
    ensures
      var sent := Recorded(inputs);
      Recorded(inputs + [i]) ==
        if Presentable(i) && HasChannel(i) && !i.updateFails
           && (sent == [] || (Waited(sent[|sent| - 1], i) && !Repeats(sent[|sent| - 1], i)))
        then sent + [i] else sent
  {
    assert (inputs + [i])[..|inputs|] == inputs;
    if Presentable(i) {
      NextOutcome(inputs, i);
    } else {
      NotPresentable(Run(inputs), i);
    }
    hide Presentable, HasChannel, Waited, Repeats, Decide;
  }

  /** Two notifications in a row are as far apart as the later one's spec says. */
  lemma {:induction false} RecordedWaited(inputs: seq<Input>, k: nat)
    requires 0 < k < |Recorded(inputs)|
    ensures Waited(Recorded(inputs)[k - 1], Recorded(inputs)[k])
    ensures !Repeats(Recorded(inputs)[k - 1], Recorded(inputs)[k])
  {
    hide Waited, Repeats, Presentable, HasChannel;
    var front, last := inputs[..|inputs| - 1], inputs[|inputs| - 1];
    assert inputs == front + [last];
    RecordedExactly(front, last);
    if k < |Recorded(front)| {
      RecordedWaited(front, k);
    }
  }

  // ---------------------------------------------------------------------------
  // What the status says
  // ---------------------------------------------------------------------------

  /** The error that a channel answered with, where it was tried. */
  ghost predicate ChannelFails(i: Input) {
    !i.spec.dryRun && ((i.spec.slackEnabled && i.slackError.Some?) || (i.spec.emailEnabled && i.emailError.Some?))
  }

  /** A recorded notification names the channels it tried, and is Ready unless one of them failed; the errors are shown. */
  lemma RecordedStatus(stored: Status, i: Input)
    requires Records(stored, i)
    ensures
      var next := Next(stored, i);
      && next.lastSentChannels ==
           (if !i.spec.emailEnabled then ["slack"] else if !i.spec.slackEnabled then ["email"] else ["slack", "email"])
      && next.condition.Some? && (next.condition.value.ready <==> !ChannelFails(i))
      && (next.condition.value.reason ==
            if i.spec.dryRun then "DryRun" else if ChannelFails(i) then "DeliveryFailed" else "Delivered")
      && (!ChannelFails(i) && !i.spec.dryRun ==>
            next.lastMessage == "Notification sent to " +
              if !i.spec.emailEnabled then "slack" else if !i.spec.slackEnabled then "email" else "slack,email")
      && (ChannelFails(i) ==>
            var slack, email := i.spec.slackEnabled && i.slackError.Some?, i.spec.emailEnabled && i.emailError.Some?;
            next.lastMessage ==
              if slack && email then "slack: " + i.slackError.value + "; " + "email: " + i.emailError.value
              else if slack then "slack: " + i.slackError.value
              else "email: " + i.emailError.value)
  {
    hide TrimSpace, HashOf;
    if ChannelFails(i) {
      ErrorsShown(i);
    }
    ChannelsShown(i.spec);
    assert Next(stored, i) == StoredStatus(Attempted(stored, i));
    hide Decide, StoredStatus, Join;
    SentFields(stored, i);
  }

  lemma ChannelsShown(spec: Spec)
    requires Channels(spec) != []
    ensures Join(Channels(spec), ",") ==
              if !spec.emailEnabled then "slack" else if !spec.slackEnabled then "email" else "slack,email"
  {
    var both := ["slack", "email"];
    assert both[1..] == ["email"];
    assert "slack" + "," + "email" == "slack,email";
  }

  lemma ErrorsShown(i: Input)
    requires ChannelFails(i)
    ensures
      var slack, email := i.spec.slackEnabled && i.slackError.Some?, i.spec.emailEnabled && i.emailError.Some?;
      Join(DeliveryErrors(i), "; ") ==
        if slack && email then "slack: " + i.slackError.value + "; " + "email: " + i.emailError.value
        else if slack then "slack: " + i.slackError.value
        else "email: " + i.emailError.value
  {
    var slack, email := i.spec.slackEnabled && i.slackError.Some?, i.spec.emailEnabled && i.emailError.Some?;
    if slack && email {
      var first, second := "slack: " + i.slackError.value, "email: " + i.emailError.value;
      assert DeliveryErrors(i) == [first, second];
      assert [first, second][1..] == [second];
    } else if slack {
      assert DeliveryErrors(i) == ["slack: " + i.slackError.value];
    } else {
      assert DeliveryErrors(i) == ["email: " + i.emailError.value];
    }
  }

  lemma SentFields(stored: Status, i: Input)
    requires Channels(i.spec) != []
    ensures
      var next := StoredStatus(Attempted(stored, i));
      && next.lastSentChannels == Channels(i.spec)
      && next.lastMessage == SentMessage(i) && next.condition == Some(SentCondition(i))
  {
    hide Channels, SentMessage, SentCondition, HashOf;
  }

  /** A reconcile that sends nothing leaves its reason; only skipping an unchanged or early one counts as Ready. */
  lemma SkipStatus(stored: Status, i: Input)
    requires !Decide(stored, i).Sent? && !i.updateFails
    requires !Decide(stored, i).Gone? && !Decide(stored, i).LookupFailed?
    ensures
      var outcome, condition := Decide(stored, i), Next(stored, i).condition;
      && condition.Some? && (condition.value.ready <==> outcome in {NoChange, Cooldown})
      && condition.value.reason == match outcome
         case NoChange => "NoChange"
         case Cooldown => "Cooldown"
         case InvalidSpec => "InvalidSpec"
         case PlanNotFound => "PlanNotFound"
         case _ => "NoChannelsConfigured"
  {
    hide TrimSpace, HashOf;
  }
}

/** What the whole history of a manager looks like: shutdown, reported losses, and the Renew as a
    stack of retries. */
module ManagerHistory {
  import opened Wrappers
  import opened Retry
  import opened ManagerModel
  import opened ManagerInvariants
  import opened ManagerRate

  // ------------------------------------------------------------------ shutdown

  /** After shutdown a step says nothing but that a cancelled Renew ended, and arms a timer only
      for resume(). */
  lemma StepAfterShutdown(s: State, e: Event)
    requires Inv(s) && s.shutdown && Enabled(s, e)
    ensures var n := Step(s, e);
            && n.shutdown
            && s.log <= n.log
            && (forall i :: |s.log| <= i < |n.log| ==> n.log[i].RenewEnded? && n.log[i].error == Some(Cancelled))
            && n.loop.nextTimer == s.loop.nextTimer + Resumes([e])
            && (s.loop.timers == map[] && !e.ConsumerResume? ==> n.loop.timers == map[])
  {
    match e
    case Resolve(t, d) =>
      SegmentFrame(s, t, s.loop.tasks[t].at, d);
      if s.loop.tasks[t].cancelled {
        CancelledStops(s, t, d);
      }
    case _ =>
  }

  lemma {:induction false} RunAfterShutdown(s: State, es: seq<Event>)
    requires Inv(s) && s.shutdown && Runs(s, es)
    ensures var n := Ran(s, es);
            && s.log <= n.log
            && (forall i :: |s.log| <= i < |n.log| ==> n.log[i].RenewEnded? && n.log[i].error == Some(Cancelled))
            && n.loop.nextTimer == s.loop.nextTimer + Resumes(es)
            && (s.loop.timers == map[] && Resumes(es) == 0 ==> n.loop.timers == map[])
    decreases |es|
  {
    if es != [] {
      StepKeeps(s, es[0]);
      StepAfterShutdown(s, es[0]);
      RunAfterShutdown(Step(s, es[0]), es[1..]);
      assert Resumes(es) == Resumes([es[0]]) + Resumes(es[1..]);
    }
  }

  /** shutdown() is final. Whatever the task was doing, and whatever comes after, no Renew and no
      subscribe request is posted any more, no loss is reported and no restart begins; timers are
      armed by resume() alone, so firing them arms nothing. */
  lemma ShutdownIsFinal(config: Config, o: StartOutcome, before: seq<Event>, after: seq<Event>)
    requires Runs(AfterStart(config, o), before)
    requires Runs(Step(Ran(AfterStart(config, o), before), ConsumerShutdown), after)
    ensures var live := Ran(AfterStart(config, o), before);
            var s := Step(live, ConsumerShutdown);
            var n := Ran(s, after);
            && s.loop.timers == map[]
            && live.log <= n.log
            && (forall i :: |live.log| <= i < |n.log| ==> n.log[i].RenewEnded? && n.log[i].error == Some(Cancelled))
            && n.loop.nextTimer == live.loop.nextTimer + Resumes(after)
            && (Resumes(after) == 0 ==> n.loop.timers == map[])
  {
    StartEstablishes(config, o);
    RunKeeps(AfterStart(config, o), before);
    var live := Ran(AfterStart(config, o), before);
    StepKeeps(live, ConsumerShutdown);
    RunAfterShutdown(Step(live, ConsumerShutdown), after);
  }

  // ------------------------------------------------------------------ what a segment can say

  /** The task has not finished its Renew, nor begun a restart. */
  predicate Early(at: Point) {
    at.Fresh? || at.Renewing? || at.RenewYield? || at.Backoff?
  }

  predicate FailedRenew(a: Action) {
    a.RenewEnded? && a.error.Some? && IsRenewError(a.error.value)
  }

  /** Everything a segment can say in one go. */
  ghost predicate Speech(said: seq<Action>, t: nat, early: bool) {
    || said == []
    || (|said| == 1 && said[0].Posted? && said[0].task == t)
    || said == [BrokenTimeFound, Posted(t, Renew, true)]
    || (early && |said| == 1 && said[0].RenewEnded? && said[0].task == t && !FailedRenew(said[0]))
    || (early && said == [RestartBegun(t)])
    || (early && |said| == 3 && FailedRenew(said[0]) && said[0].task == t && said[1..] == [LostReported(t), RestartBegun(t)])
  }

  /** What a segment says, that it leaves the early part exactly when it says so, and that
      brokenTime is set exactly when it says so. */
  ghost predicate Speaks(s: State, t: nat, early: bool, n: Next) {
    && Speech(n.said, t, early)
    && (n.Await? && Early(n.point) ==> early && (n.said == [] || n.said[0].Posted?))
    && n.state.device.brokenTime == (s.device.brokenTime || BrokenTimeFound in n.said)
  }

  lemma OpenSubscriptionSpeaks(s: State, t: nat, granted: Response, early: bool)
    ensures Speaks(s, t, early, OpenSubscription(s, t, granted))
  {
  }

  lemma ProceedSpeaks(s: State, t: nat, at: Point)
    requires !at.Renewing?
    ensures Speaks(s, t, Early(at), ProceedAt(s, t, at))
  {
  }

  lemma SegmentSpeaks(s: State, t: nat, d: Delivery)
    requires t in s.loop.tasks && Accepts(s.loop.tasks[t], s.loop.now, d)
    ensures var at := s.loop.tasks[t].at; Speaks(s, t, Early(at), Segment(s, t, at, d))
  {
    var at := s.loop.tasks[t].at;
    match d
    case Failed(e) =>
    case Reply(r, address) =>
      OpenSubscriptionSpeaks(s.(device := s.device.(xaddr := address)), t, r, Early(at));
    case Proceed => ProceedSpeaks(s, t, at);
  }

  // ------------------------------------------------------------------ losses

  predicate IsLoss(a: Action) {
    a.LostReported?
  }

  /** The task that said this is past its early part. */
  predicate Milestone(a: Action) {
    a.RenewEnded? || a.RestartBegun? || a.LostReported?
  }

  /** A loss is reported right where a Renew ended in one of RENEW_ERRORS, and a restart by the
      same task follows at once; no other Renew reports one. */
  ghost predicate LossesPaired(log: seq<Action>) {
    && (forall i {:trigger log[i].LostReported?} :: 0 <= i < |log| && log[i].LostReported? ==>
          && 1 <= i < |log| - 1
          && FailedRenew(log[i - 1]) && log[i - 1].task == log[i].task
          && log[i + 1] == RestartBegun(log[i].task))
    && (forall i {:trigger FailedRenew(log[i])} :: 0 <= i < |log| && FailedRenew(log[i]) ==>
          i + 1 < |log| && log[i + 1] == LostReported(log[i].task))
  }

  /** Each task ends at most one Renew and begins at most one restart. */
  ghost predicate OncePerTask(log: seq<Action>) {
    forall i, j :: 0 <= i < j < |log| ==>
      && !(log[i].RenewEnded? && log[j].RenewEnded? && log[i].task == log[j].task)
      && !(log[i].RestartBegun? && log[j].RestartBegun? && log[i].task == log[j].task)
  }

  /** The log so far fits the tasks: one still in its early part has ended and restarted nothing. */
  ghost predicate Recorded(s: State) {
    && LossesPaired(s.log)
    && OncePerTask(s.log)
    && (forall i {:trigger Milestone(s.log[i])} :: 0 <= i < |s.log| && Milestone(s.log[i]) ==> Fits(s.loop, s.log[i].task))
  }

  predicate Fits(loop: Loop, t: nat) {
    t < loop.nextTask && (t in loop.tasks ==> !Early(loop.tasks[t].at))
  }

  lemma SpeechPairs(log: seq<Action>, said: seq<Action>, t: nat, early: bool)
    requires LossesPaired(log) && Speech(said, t, early)
    ensures LossesPaired(log + said)
  {
  }

  lemma SpeechOnce(log: seq<Action>, said: seq<Action>, t: nat, early: bool)
    requires OncePerTask(log) && Speech(said, t, early)
    requires early ==> forall i :: 0 <= i < |log| && Milestone(log[i]) ==> log[i].task != t
    ensures OncePerTask(log + said)
    ensures forall i :: 0 <= i < |said| && Milestone(said[i]) ==> said[i].task == t && early
  {
  }

  lemma SpeechFits(before: Loop, after: Loop, log: seq<Action>, said: seq<Action>, t: nat)
    requires forall i :: 0 <= i < |log| && Milestone(log[i]) ==> Fits(before, log[i].task)
    requires t in before.tasks && t < before.nextTask && before.nextTask == after.nextTask
    requires forall i :: 0 <= i < |said| && Milestone(said[i]) ==> said[i].task == t && Early(before.tasks[t].at)
    requires forall u :: u in after.tasks ==> u == t
    requires t in after.tasks && Early(after.tasks[t].at) ==>
               Early(before.tasks[t].at) && forall i :: 0 <= i < |said| ==> !Milestone(said[i])
    ensures forall i :: 0 <= i < |log + said| && Milestone((log + said)[i]) ==> Fits(after, (log + said)[i].task)
  {
  }

  lemma DeliverRecords(s: State, t: nat, d: Delivery)
    requires Inv(s) && Recorded(s) && t in s.loop.tasks && Accepts(s.loop.tasks[t], s.loop.now, d)
    ensures Recorded(Deliver(s, t, d))
  {
    var early := Early(s.loop.tasks[t].at);
    var said := Segment(s, t, s.loop.tasks[t].at, d).said;
    DeliverResult(s, t, d);
    SegmentSpeaks(s, t, d);
    SpeechPairs(s.log, said, t, early);
    SpeechOnce(s.log, said, t, early);
    SpeechFits(s.loop, Deliver(s, t, d).loop, s.log, said, t);
  }

  lemma {:induction false} RunRecords(s: State, es: seq<Event>)
    requires Inv(s) && Recorded(s) && Runs(s, es)
    ensures Recorded(Ran(s, es))
    decreases |es|
  {
    if es != [] {
      if es[0].Resolve? {
        DeliverRecords(s, es[0].task, es[0].delivery);
      } else {
        OtherStepsAreSilent(s, es[0]);
        var n := Step(s, es[0]);
        forall i | 0 <= i < |n.log| && Milestone(n.log[i])
          ensures Fits(n.loop, n.log[i].task)
        {
          assert Milestone(s.log[i]);
        }
      }
      StepKeeps(s, es[0]);
      RunRecords(Step(s, es[0]), es[1..]);
    }
  }

  function Count(log: seq<Action>, what: Action -> bool): nat {
    if log == [] then 0 else (if what(log[0]) then 1 else 0) + Count(log[1..], what)
  }

  lemma ThreeMore(log: seq<Action>, what: Action -> bool)
    requires |log| >= 3
    ensures Count(log, what) == Count(log[3..], what)
              + (if what(log[0]) then 1 else 0) + (if what(log[1]) then 1 else 0) + (if what(log[2]) then 1 else 0)
  {
    assert log[1..][1..] == log[2..] && log[2..][1..] == log[3..];
    assert Count(log[1..], what) == (if what(log[1]) then 1 else 0) + Count(log[2..], what);
    assert Count(log[2..], what) == (if what(log[2]) then 1 else 0) + Count(log[3..], what);
  }

  /** Paired losses are counted alike. */
  lemma {:induction false} PairedCounts(log: seq<Action>)
    requires LossesPaired(log)
    ensures Count(log, IsLoss) == Count(log, FailedRenew)
    decreases |log|
  {
    if log == [] {
    } else if FailedRenew(log[0]) {
      assert LossesPaired(log) && 0 <= 0 < |log|;
      assert IsLoss(log[1]) && log[2].RestartBegun?;
      PairedTail(log, 3);
      PairedCounts(log[3..]);
      ThreeMore(log, IsLoss);
      ThreeMore(log, FailedRenew);
    } else {
      PairedTail(log, 1);
      PairedCounts(log[1..]);
    }
  }

  lemma PairedTail(log: seq<Action>, k: nat)
    requires LossesPaired(log) && k <= |log|
    requires k < |log| && log[k].LostReported? ==> !FailedRenew(log[k - 1])
    ensures LossesPaired(log[k..])
  {
  }

  /** Over any run, the lost callback is called exactly once for each task whose Renew ended in one
      of RENEW_ERRORS, right then, and that same task begins exactly one restart at once. Shutdown,
      a closed session, a missing subscription or a failed restart never add a call. */
  lemma LossesReportedExactlyOnce(config: Config, o: StartOutcome, es: seq<Event>)
    requires Runs(AfterStart(config, o), es)
    ensures var log := Ran(AfterStart(config, o), es).log;
            && LossesPaired(log)
            && OncePerTask(log)
            && Count(log, IsLoss) == Count(log, FailedRenew)
  {
    StartEstablishes(config, o);
    RunRecords(AfterStart(config, o), es);
    PairedCounts(Ran(AfterStart(config, o), es).log);
  }

  // ------------------------------------------------------------------ the Renew as stacked retries

  /** Drive a task through a Renew, handing it the script's outcomes and letting every sleep end. */
  function RenewByMachine(s: State, t: nat, at: Point, script: nat -> Outcome<Response>, i: nat): (Outcome<Response>, nat)
    requires at.Renewing? && WellPlaced(at)
    decreases Remaining(at)
  {
    var o := script(i);
    if !o.Raise? then (o, i + 1) else
    var n := RaiseAt(s, t, at, o.error);
    if n.Await? && (n.point.RenewYield? || n.point.Backoff?) then
      var again := ProceedAt(s, t, n.point);
      RenewByMachine(s, t, again.point, script, i + 1)
    else (o, i + 1)
  }

  /** The machine's Renew is the two stacked retries: same requests, same outcome. */
  lemma MachineRenewIsStackedRetry(s: State, t: nat, absolute: bool, script: nat -> Outcome<Response>, i: nat)
    ensures var r := RenewRun(script, i);
            RenewByMachine(s, t, Renewing(0, 0, absolute), script, i) == (r.outcome, r.next)
  {
    TransportRun(script, i);
    TransportRun(script, i + 1);
    TransportRun(script, i + 2);
    var func := Layer(2, IsDisconnect, 0.0, script);
    var first := func(i);
    assert Retried(1, IsClientError, BACKOFF_TIME, func, first.next) == func(first.next);
    SecondAttempt(s, t, s.device.brokenTime, script, i + 1);
    SecondAttempt(s, t, s.device.brokenTime, script, i + 2);
  }

  lemma SecondAttempt(s: State, t: nat, absolute: bool, script: nat -> Outcome<Response>, i: nat)
    ensures RenewByMachine(s, t, Renewing(1, 0, absolute), script, i)
         == if script(i).Raise? && IsDisconnect(script(i).error) then (script(i + 1), i + 2) else (script(i), i + 1)
  {
  }
}

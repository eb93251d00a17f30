/** What every step of the manager keeps, and so what holds in every state of every run. */
module ManagerInvariants {
  import opened Wrappers
  import opened Retry
  import opened ManagerModel

  /** Every handle the loop still holds is the one the manager remembers. */
  ghost predicate OneTimer(s: State) {
    && (forall h :: h in s.loop.timers ==> s.renewTimer == Some(h))
    && (s.renewTimer.Some? ==> s.renewTimer.value < s.loop.nextTimer)
  }

  /** Every task not done is the one the manager remembers. */
  ghost predicate OneTask(s: State) {
    && (forall t :: t in s.loop.tasks ==> s.renewTask == Some(t))
    && (s.renewTask.Some? ==> s.renewTask.value < s.loop.nextTask)
  }

  /** Nothing will ever run again unless the consumer asks. */
  predicate Dead(s: State) {
    s.loop.timers == map[] && s.loop.tasks == map[]
  }

  /** The renewal loop goes on unless something that is meant to end it has happened. */
  ghost predicate KeepsGoing(s: State) {
    !s.shutdown && !s.SessionClosed() && !s.disarmed ==> !Dead(s)
  }

  /** Only shutdown() cancels, and it leaves no task running that could post. */
  ghost predicate ShutdownCancels(s: State) {
    forall t :: t in s.loop.tasks ==>
      && (s.loop.tasks[t].cancelled ==> s.shutdown)
      && (s.shutdown ==> s.loop.tasks[t].cancelled || s.loop.tasks[t].at.Fresh?)
  }

  ghost predicate Inv(s: State) {
    OneTimer(s) && OneTask(s) && KeepsGoing(s) && ShutdownCancels(s)
  }

  lemma StartEstablishes(config: Config, o: StartOutcome)
    ensures Inv(AfterStart(config, o))
  {
  }

  lemma ScheduleArms(s: State, at: real)
    requires OneTimer(s)
    ensures var a := Schedule(s, at);
            a.loop.timers == map[s.loop.nextTimer := at] && OneTimer(a) && !Dead(a)
  {
  }

  /** What no segment of the task body touches, and what it leaves behind. */
  ghost predicate Framed(s: State, n: Next) {
    var m := n.state;
    && m.config == s.config && m.log == s.log && m.renewTask == s.renewTask
    && m.shutdown == s.shutdown && m.disarmed == s.disarmed
    && (|| (m.loop == s.loop && m.renewTimer == s.renewTimer)
        || (m.loop == s.loop.(timers := map[]) && m.renewTimer == None))
    && (n.Await? ==> !n.point.Fresh?)
    && (n.Leave? && n.callAt.Some? ==> n.callAt.value >= s.loop.now + 48.0)
  }

  lemma RenewRaisedFrame(s: State, t: nat, e: Error)
    requires OneTimer(s)
    ensures Framed(s, RenewRaised(s, t, e)) && !RenewRaised(s, t, e).Guarded?
  {
  }

  lemma RaiseFrame(s: State, t: nat, at: Point, e: Error)
    requires OneTimer(s)
    ensures Framed(s, RaiseAt(s, t, at, e))
    ensures RaiseAt(s, t, at, e).Guarded? ==> at.Fresh? && RaiseAt(s, t, at, e).state == s
  {
    RenewRaisedFrame(s, t, e);
  }

  lemma ReplyFrame(s: State, t: nat, at: Point, r: Response, address: string)
    requires OneTimer(s)
    ensures Framed(s, ReplyAt(s, t, at, r, address)) && !ReplyAt(s, t, at, r, address).Guarded?
  {
  }

  lemma ProceedFrame(s: State, t: nat, at: Point)
    requires OneTimer(s)
    ensures Framed(s, ProceedAt(s, t, at))
    ensures ProceedAt(s, t, at).Guarded? ==> at.Fresh? && ProceedAt(s, t, at).state == s
  {
  }

  lemma SegmentFrame(s: State, t: nat, at: Point, d: Delivery)
    requires OneTimer(s)
    ensures Framed(s, Segment(s, t, at, d))
    ensures Segment(s, t, at, d).Guarded? ==> at.Fresh? && Segment(s, t, at, d).state == s
  {
    match d
    case Failed(e) => RaiseFrame(s, t, at, e);
    case Reply(r, address) => ReplyFrame(s, t, at, r, address);
    case Proceed => ProceedFrame(s, t, at);
  }

  /** A task ends re-arming the timer, 40 s ahead or more, exactly when neither guard of the
      finally block holds. */
  lemma FinallyArms(s: State, callAt: Option<real>)
    requires OneTimer(s)
    requires callAt.Some? ==> callAt.value >= s.loop.now + 48.0
    ensures var f := Finally(s, callAt);
            && OneTimer(f)
            && (f.loop.nextTimer == s.loop.nextTimer + 1 <==> !s.shutdown && !s.SessionClosed())
            && (s.shutdown || s.SessionClosed() ==> f == s)
            && (!s.shutdown && !s.SessionClosed() ==>
                  && f.loop.timers.Keys == {s.loop.nextTimer}
                  && f.loop.timers[s.loop.nextTimer] >= s.loop.now + RESTART_INTERVAL_ON_ERROR)
  {
  }

  lemma DeliverKeeps(s: State, t: nat, d: Delivery)
    requires Inv(s) && t in s.loop.tasks && Accepts(s.loop.tasks[t], s.loop.now, d)
    ensures Inv(Deliver(s, t, d))
  {
    var at := s.loop.tasks[t].at;
    SegmentFrame(s, t, at, d);
    var n := Segment(s, t, at, d);
    var m := n.state.(log := s.log + n.said);
    match n
    case Await(_, point, _) =>
      assert t in Deliver(s, t, d).loop.tasks;
      if s.loop.tasks[t].cancelled {
        CancelledStops(s, t, d);
      }
    case Leave(_, callAt, _) =>
      FinallyArms(m.WithTasks(m.loop.tasks - {t}), callAt);
    case Guarded(_, _) =>
  }

  /** What a delivery does outside the segment it runs. */
  lemma DeliverResult(s: State, t: nat, d: Delivery)
    requires Inv(s) && t in s.loop.tasks
    ensures var n, after := Segment(s, t, s.loop.tasks[t].at, d), Deliver(s, t, d);
            && after.log == s.log + n.said
            && after.device == n.state.device && after.shutdown == s.shutdown
            && after.loop.now == s.loop.now && after.loop.nextTask == s.loop.nextTask && after.renewTask == s.renewTask
            && after.loop.tasks == if n.Await? then map[t := Task(n.point, false)] else map[]
  {
    SegmentFrame(s, t, s.loop.tasks[t].at, d);
    var n := Segment(s, t, s.loop.tasks[t].at, d);
    assert s.loop.tasks.Keys == {t};
    if n.Leave? {
      var m := n.state.(log := s.log + n.said);
      FinallyFrame(m.WithTasks(m.loop.tasks - {t}), n.callAt);
    }
  }

  /** The finally block touches nothing but the timer. */
  lemma FinallyFrame(s: State, callAt: Option<real>)
    ensures var f := Finally(s, callAt);
            && f.log == s.log && f.device == s.device && f.shutdown == s.shutdown && f.renewTask == s.renewTask
            && f.loop.now == s.loop.now && f.loop.nextTask == s.loop.nextTask && f.loop.tasks == s.loop.tasks
  {
  }

  /** A cancelled task ends at its next step. */
  lemma CancelledStops(s: State, t: nat, d: Delivery)
    requires t in s.loop.tasks && s.loop.tasks[t].cancelled && Accepts(s.loop.tasks[t], s.loop.now, d)
    ensures !Segment(s, t, s.loop.tasks[t].at, d).Await?
  {
  }

  lemma FireKeeps(s: State, h: nat)
    requires Inv(s) && h in s.loop.timers
    ensures Inv(RunRestartOrRenew(s.WithTimers(s.loop.timers - {h})))
  {
  }

  lemma StepKeeps(s: State, e: Event)
    requires Inv(s) && Enabled(s, e)
    ensures Inv(Step(s, e))
  {
    match e
    case Fire(h) => FireKeeps(s, h);
    case Resolve(t, d) => DeliverKeeps(s, t, d);
    case ConsumerResume => ScheduleArms(s, s.loop.now);
    case _ =>
  }

  lemma {:induction false} RunKeeps(s: State, es: seq<Event>)
    requires Inv(s) && Runs(s, es)
    ensures Inv(Ran(s, es))
    decreases |es|
  {
    if es != [] {
      StepKeeps(s, es[0]);
      RunKeeps(Step(s, es[0]), es[1..]);
    }
  }

  /** Steps outside the task body say nothing, and may only add a fresh task. */
  lemma OtherStepsAreSilent(s: State, e: Event)
    requires Inv(s) && Enabled(s, e) && !e.Resolve?
    ensures var n := Step(s, e);
            && n.log == s.log && n.device.brokenTime == (s.device.brokenTime || e.DetectElsewhere?)
            && (forall t :: t in s.loop.tasks ==> t in n.loop.tasks && n.loop.tasks[t].at == s.loop.tasks[t].at)
            && (n.loop.nextTask == s.loop.nextTask ==> n.loop.tasks.Keys == s.loop.tasks.Keys && n.renewTask == s.renewTask)
            && (n.loop.nextTask != s.loop.nextTask ==>
                  && n.loop.nextTask == s.loop.nextTask + 1 && n.renewTask == Some(s.loop.nextTask)
                  && n.loop.tasks.Keys == {s.loop.nextTask} && n.loop.tasks[s.loop.nextTask].at.Fresh?)
  {
  }

  // ------------------------------------------------------------------ runs put together

  lemma {:induction false} RunsConcat(s: State, es: seq<Event>, fs: seq<Event>)
    requires Runs(s, es) && Runs(Ran(s, es), fs)
    ensures Runs(s, es + fs) && Ran(s, es + fs) == Ran(Ran(s, es), fs)
    decreases |es|
  {
    if es == [] {
      assert es + fs == fs;
    } else {
      assert (es + fs)[1..] == es[1..] + fs;
      RunsConcat(Step(s, es[0]), es[1..], fs);
    }
  }

  lemma RunOne(s: State, e: Event, es: seq<Event>)
    requires Enabled(s, e) && Runs(Step(s, e), es)
    ensures Runs(s, [e] + es) && Ran(s, [e] + es) == Ran(Step(s, e), es)
  {
  }

  // ------------------------------------------------------------------ main results

  /** For any interleaving after start(): every armed handle is `_cancel_subscription_renew`, and
      at most one renew/restart task is not done, namely `_restart_or_renew_task`. */
  lemma AtMostOneTimerAndTask(config: Config, o: StartOutcome, es: seq<Event>)
    requires Runs(AfterStart(config, o), es)
    ensures var s := Ran(AfterStart(config, o), es);
            && (forall h, k :: h in s.loop.timers && k in s.loop.timers ==> h == k && s.renewTimer == Some(h))
            && (forall t, u :: t in s.loop.tasks && u in s.loop.tasks ==> t == u && s.renewTask == Some(t))
  {
    StartEstablishes(config, o);
    RunKeeps(AfterStart(config, o), es);
  }

  /** After start(), whatever the camera answers and whatever escapes the task: while not shut
      down, the current session open and neither pause() nor stop() called since the timer was
      last armed, a timer is armed or a task is still going. */
  lemma LoopNeverDiesSilently(config: Config, o: StartOutcome, es: seq<Event>)
    requires o.Started? && Runs(AfterStart(config, o), es)
    ensures var s := Ran(AfterStart(config, o), es);
            !s.shutdown && !s.SessionClosed() && !s.disarmed ==> s.loop.timers != map[] || s.loop.tasks != map[]
  {
    StartEstablishes(config, o);
    RunKeeps(AfterStart(config, o), es);
  }

  /** The answer a task's deadline is computed from, if the task ends by getting that far: the
      last Renew of the task if there was one, otherwise the subscribe request. */
  function LastAnswer(s: State, at: Point, d: Delivery): Option<Response> {
    if d.Reply? && (at.Renewing? || at.Rerenewing?) then Some(d.response)
    else if d.Proceed? && at.OpeningNew? then Some(at.granted)
    else if d.Proceed? && at.OpeningPuller? && (s.config.kind.PullPoint? || s.device.xaddr != "") then Some(at.granted)
    else None
  }

  /** When the timer is due that a task arms as it ends: at the deadline computed from that answer,
      and exactly 40 s ahead if none is computed. */
  function DueAt(s: State, at: Point, d: Delivery): real {
    var answer := LastAnswer(s, at, d);
    var deadline := if answer.None? then None else NextRenewalCallAt(s.config, s.loop.now, answer.value);
    if deadline.Some? && deadline.value != 0.0 then deadline.value else s.loop.now + RESTART_INTERVAL_ON_ERROR
  }

  lemma LeavesWith(s: State, t: nat, at: Point, d: Delivery)
    requires OneTimer(s) && t in s.loop.tasks && s.loop.tasks[t].at == at && !at.Fresh?
    requires Accepts(s.loop.tasks[t], s.loop.now, d) && Segment(s, t, at, d).Leave?
    ensures var callAt := Segment(s, t, at, d).callAt;
            DueAt(s, at, d) == if callAt.Some? && callAt.value != 0.0 then callAt.value
                               else s.loop.now + RESTART_INTERVAL_ON_ERROR
  {
  }

  /** A task that passed its entry guard re-arms the timer as it ends exactly when the manager is
      not shut down and the session then current is open; the timer is then due exactly at the
      computed deadline, or 40 s ahead if there is none, and never earlier than 40 s ahead. That
      some exception escapes the task changes nothing. */
  lemma RearmsExactlyWhen(s: State, t: nat, d: Delivery)
    requires Inv(s) && t in s.loop.tasks && Accepts(s.loop.tasks[t], s.loop.now, d) && !s.loop.tasks[t].at.Fresh?
    requires t !in Deliver(s, t, d).loop.tasks
    ensures var after := Deliver(s, t, d);
            var due := DueAt(s, s.loop.tasks[t].at, d);
            && (after.loop.nextTimer == s.loop.nextTimer + 1 <==> !after.shutdown && !after.SessionClosed())
            && (after.loop.nextTimer != s.loop.nextTimer ==> after.loop.timers == map[s.loop.nextTimer := due])
            && due >= s.loop.now + RESTART_INTERVAL_ON_ERROR
  {
    var at := s.loop.tasks[t].at;
    SegmentFrame(s, t, at, d);
    var n := Segment(s, t, at, d);
    assert n.Leave?;
    LeavesWith(s, t, at, d);
    var m := n.state.(log := s.log + n.said);
    FinallyFrame(m.WithTasks(m.loop.tasks - {t}), n.callAt);
    FinallyArms(m.WithTasks(m.loop.tasks - {t}), n.callAt);
  }
}

/** When the renewal loop ends without being asked to, and whether a renewal comes in time. */
module ManagerEndings {
  import opened Wrappers
  import opened Retry
  import opened ManagerModel
  import opened ManagerInvariants

  // ------------------------------------------------------------------ replacing the subscription service

  /** The task is between closing the old subscription service and assigning the new one. */
  predicate Replacing(at: Point) {
    at.ClosingOld? || at.OpeningNew?
  }

  /** The current subscription's session is closed exactly while a task is replacing the service,
      and otherwise the current subscription is the cached service. */
  ghost predicate InPlace(s: State, at: Point) {
    && s.subscription.Some?
    && (forall id :: id in s.device.closed ==> id < s.device.nextService)
    && s.subscription.value.id < s.device.nextService
    && (s.SessionClosed() <==> Replacing(at))
    && (!at.OpeningNew? ==> s.device.cached == s.subscription)
    && (at.OpeningNew? ==> at.service.id < s.device.nextService && at.service.id !in s.device.closed)
  }

  /** A manager nobody touched since start(): alive and in place, or ended with a closed session. */
  ghost predicate Untouched(s: State) {
    && Inv(s) && !s.shutdown && !s.disarmed && s.subscription.Some?
    && (forall t :: t in s.loop.tasks ==> !s.loop.tasks[t].cancelled && InPlace(s, s.loop.tasks[t].at))
    && (s.loop.tasks == map[] && !Dead(s) ==> InPlace(s, Fresh))
    && (s.loop.tasks != map[] ==> s.loop.timers == map[])
  }

  /** Events in which the consumer has no part. */
  predicate Unattended(e: Event) {
    e.Advance? || e.Fire? || e.Resolve? || e.DetectElsewhere?
  }

  /** The task fails while replacing the service. */
  predicate FailsReplacing(s: State, e: Event)
    requires Enabled(s, e)
  {
    e.Resolve? && Replacing(s.loop.tasks[e.task].at) && e.delivery.Failed?
  }

  ghost predicate StaysInPlace(n: Next) {
    match n
    case Await(m, point, _) => InPlace(m, point)
    case Leave(m, _, _) => InPlace(m, Fresh)
    case Guarded(m, _) => false
  }

  lemma SegmentStays(s: State, t: nat, d: Delivery)
    requires t in s.loop.tasks && !s.loop.tasks[t].cancelled && Accepts(s.loop.tasks[t], s.loop.now, d)
    requires InPlace(s, s.loop.tasks[t].at) && !s.shutdown && !(Replacing(s.loop.tasks[t].at) && d.Failed?)
    ensures StaysInPlace(Segment(s, t, s.loop.tasks[t].at, d))
  {
  }

  lemma DeliverUntouched(s: State, t: nat, d: Delivery)
    requires Untouched(s) && t in s.loop.tasks && Accepts(s.loop.tasks[t], s.loop.now, d)
    ensures Untouched(Deliver(s, t, d))
    ensures Dead(Deliver(s, t, d)) <==> Replacing(s.loop.tasks[t].at) && d.Failed?
  {
    var at := s.loop.tasks[t].at;
    var n := Segment(s, t, at, d);
    DeliverKeeps(s, t, d);
    DeliverResult(s, t, d);
    SegmentFrame(s, t, at, d);
    if Replacing(at) && d.Failed? {
      assert n == Leave(s, None, []);
    } else {
      SegmentStays(s, t, d);
      assert n.Await? ==> t in Deliver(s, t, d).loop.tasks;
      if n.Leave? {
        var m := n.state.(log := s.log + n.said);
        FinallyArms(m.WithTasks(m.loop.tasks - {t}), n.callAt);
      }
    }
  }

  lemma UnattendedStep(s: State, e: Event)
    requires Untouched(s) && Enabled(s, e) && Unattended(e)
    ensures Untouched(Step(s, e))
    ensures Dead(Step(s, e)) <==> Dead(s) || FailsReplacing(s, e)
  {
    match e
    case Resolve(t, d) => DeliverUntouched(s, t, d);
    case Fire(h) =>
      FireKeeps(s, h);
      var n := Step(s, e);
      assert n.renewTask.value in n.loop.tasks;
    case Advance(_) =>
    case DetectElsewhere =>
  }

  lemma {:induction false} UnattendedRun(s: State, es: seq<Event>)
    requires Untouched(s) && Runs(s, es) && forall e :: e in es ==> Unattended(e)
    ensures Untouched(Ran(s, es))
    decreases |es|
  {
    if es != [] {
      UnattendedStep(s, es[0]);
      UnattendedRun(Step(s, es[0]), es[1..]);
    }
  }

  /** A started manager nobody touches goes on renewing forever, except that it ends exactly when a
      restart fails between closing the old subscription service and assigning the new one. */
  lemma UnattendedLoopEndsExactlyWhen(config: Config, o: StartOutcome, es: seq<Event>, e: Event)
    requires o.Started? && Runs(AfterStart(config, o), es) && forall x :: x in es ==> Unattended(x)
    requires Enabled(Ran(AfterStart(config, o), es), e) && Unattended(e)
    ensures var s := Ran(AfterStart(config, o), es);
            !Dead(s) ==> (Dead(Step(s, e)) <==> FailsReplacing(s, e))
  {
    StartEstablishes(config, o);
    assert 0 in AfterStart(config, o).loop.timers;
    UnattendedRun(AfterStart(config, o), es);
    UnattendedStep(Ran(AfterStart(config, o), es), e);
  }

  /** The session is closed, and no task is past its entry guard. */
  ghost predicate Ended(s: State) {
    Inv(s) && s.SessionClosed() && forall t :: t in s.loop.tasks ==> s.loop.tasks[t].at.Fresh?
  }

  lemma EndedStep(s: State, e: Event)
    requires Ended(s) && Enabled(s, e)
    ensures Ended(Step(s, e)) && Step(s, e).log == s.log
  {
    StepKeeps(s, e);
    if e.Resolve? {
      DeliverResult(s, e.task, e.delivery);
    } else {
      OtherStepsAreSilent(s, e);
    }
  }

  /** Whatever comes after, resume() included, an ended manager does nothing any more. */
  lemma {:induction false} EndedForGood(s: State, es: seq<Event>)
    requires Ended(s) && Runs(s, es)
    ensures Ended(Ran(s, es)) && Ran(s, es).log == s.log
    decreases |es|
  {
    if es != [] {
      EndedStep(s, es[0]);
      EndedForGood(Step(s, es[0]), es[1..]);
    }
  }

  /** A loop that ended because a restart failed in between is ended for good: no continuation,
      resume() included, posts a request, reports a loss or begins a restart again. */
  lemma NothingRevivesIt(config: Config, o: StartOutcome, es: seq<Event>, e: Event, after: seq<Event>)
    requires o.Started? && Runs(AfterStart(config, o), es) && forall x :: x in es ==> Unattended(x)
    requires Enabled(Ran(AfterStart(config, o), es), e) && FailsReplacing(Ran(AfterStart(config, o), es), e)
    requires Runs(Step(Ran(AfterStart(config, o), es), e), after)
    ensures var n := Step(Ran(AfterStart(config, o), es), e);
            Ended(n) && Ran(n, after).log == n.log && Ran(n, after).SessionClosed()
  {
    StartEstablishes(config, o);
    assert 0 in AfterStart(config, o).loop.timers;
    UnattendedRun(AfterStart(config, o), es);
    var s := Ran(AfterStart(config, o), es);
    UnattendedStep(s, e);
    FailedReplacementCloses(s, e.task, e.delivery);
    EndedForGood(Step(s, e), after);
  }

  lemma FailedReplacementCloses(s: State, t: nat, d: Delivery)
    requires Untouched(s) && t in s.loop.tasks && Accepts(s.loop.tasks[t], s.loop.now, d)
    requires Replacing(s.loop.tasks[t].at) && d.Failed?
    ensures Deliver(s, t, d).SessionClosed() && Deliver(s, t, d).loop.tasks == map[]
  {
    DeliverResult(s, t, d);
    assert Segment(s, t, s.loop.tasks[t].at, d) == Leave(s, None, []);
  }

  /** The run that shows it: the Renew fails, the camera grants a subscription at a new address, and
      setting up the service for it fails. No session was closed by the consumer, no one paused,
      stopped or shut down, and yet no timer and no task is left. */
  lemma RestartCanEndTheLoop(config: Config, granted: Response)
    requires config.kind.PullPoint?
    ensures var started := AfterStart(config, Started("a", 48.0, false, 0.0));
            var es := [Advance(48.0), Fire(0), Resolve(0, Proceed), Resolve(0, Failed(Fault)), Resolve(0, Proceed),
                       Resolve(0, Reply(granted, "b")), Resolve(0, Proceed), Resolve(0, Failed(OnvifError))];
            && Runs(started, es)
            && var s := Ran(started, es);
               && Dead(s) && !s.shutdown && !s.disarmed && s.SessionClosed()
               && s.log == [Posted(0, Renew, false), RenewEnded(0, Some(Fault)), LostReported(0), RestartBegun(0),
                            Posted(0, Subscribe, false)]
  {
    RenewFailsRun(config);
    MovedRun(config, granted);
    ReplacementFailsRun(config, granted, LOST + [Posted(0, Subscribe, false)]);
    var es := [Advance(48.0), Fire(0), Resolve(0, Proceed), Resolve(0, Failed(Fault))];
    var fs := [Resolve(0, Proceed), Resolve(0, Reply(granted, "b"))];
    var gs := [Resolve(0, Proceed), Resolve(0, Failed(OnvifError))];
    RunsConcat(AfterStart(config, Started("a", 48.0, false, 0.0)), es, fs);
    RunsConcat(AfterStart(config, Started("a", 48.0, false, 0.0)), es + fs, gs);
    assert es + fs + gs == [Advance(48.0), Fire(0), Resolve(0, Proceed), Resolve(0, Failed(Fault)), Resolve(0, Proceed),
                       Resolve(0, Reply(granted, "b")), Resolve(0, Proceed), Resolve(0, Failed(OnvifError))];
  }

  /** The manager of the run above, its task at `at`. */
  function Midway(config: Config, tasks: map<nat, Task>, device: Device, log: seq<Action>): State {
    State(config, Loop(48.0, map[], 1, tasks, 1), device, false, Some(Service(0, "a")), None, Some(0), false, log)
  }

  const LOST: seq<Action> := [Posted(0, Renew, false), RenewEnded(0, Some(Fault)), LostReported(0), RestartBegun(0)]

  lemma RenewFailsRun(config: Config)
    ensures var started := AfterStart(config, Started("a", 48.0, false, 0.0));
            var es := [Advance(48.0), Fire(0), Resolve(0, Proceed), Resolve(0, Failed(Fault))];
            && Runs(started, es)
            && Ran(started, es) == Midway(config, map[0 := Task(OpeningEntry, false)],
                                          Device("a", Some(Service(0, "a")), false, {}, 1), LOST)
  {
  }

  lemma MovedRun(config: Config, granted: Response)
    requires config.kind.PullPoint?
    ensures var s4 := Midway(config, map[0 := Task(OpeningEntry, false)], Device("a", Some(Service(0, "a")), false, {}, 1), LOST);
            var es := [Resolve(0, Proceed), Resolve(0, Reply(granted, "b"))];
            && Runs(s4, es)
            && Ran(s4, es) == Midway(config, map[0 := Task(ClosingOld(granted), false)],
                                     Device("b", Some(Service(0, "a")), false, {0}, 1), LOST + [Posted(0, Subscribe, false)])
  {
    var camera := Device("a", Some(Service(0, "a")), false, {}, 1);
    var s4 := Midway(config, map[0 := Task(OpeningEntry, false)], camera, LOST);
    var s5 := Midway(config, map[0 := Task(Subscribing(0, false), false)], camera, LOST + [Posted(0, Subscribe, false)]);
    assert Step(s4, Resolve(0, Proceed)) == s5;
    RunOne(s5, Resolve(0, Reply(granted, "b")), []);
    RunOne(s4, Resolve(0, Proceed), [Resolve(0, Reply(granted, "b"))]);
  }

  lemma ReplacementFailsRun(config: Config, granted: Response, log: seq<Action>)
    ensures var s6 := Midway(config, map[0 := Task(ClosingOld(granted), false)],
                             Device("b", Some(Service(0, "a")), false, {0}, 1), log);
            var es := [Resolve(0, Proceed), Resolve(0, Failed(OnvifError))];
            && Runs(s6, es)
            && Ran(s6, es) == Midway(config, map[], Device("b", None, false, {0}, 2), log)
  {
  }

  /** Going on from closing the old service or setting up the new one, if that is awaited. */
  function CarriedOn(n: Next, t: nat): Next {
    if n.Await? && Replacing(n.point) then ProceedAt(n.state, t, n.point) else n
  }

  lemma AssignGoesOn(s: State, t: nat, granted: Response, service: Service)
    ensures CarriedOn(Assign(s, t, granted, service), t) == Assign(s, t, granted, service)
  {
  }

  lemma NewServiceGoesOn(s: State, t: nat, granted: Response)
    ensures var service := Service(s.device.nextService, s.device.xaddr);
            var device := s.device.(cached := Some(service), nextService := s.device.nextService + 1);
            CarriedOn(OpenNew(s, granted), t) == Assign(s.(device := device), t, granted, service)
  {
  }

  /** However its awaits are cut, opening the subscription service comes to handing back and
      caching the service that is to be had: what the camera object's ObtainService does. */
  lemma MachineObtains(s: State, t: nat, granted: Response)
    requires s.device.xaddr != ""
    ensures var (service, device) := Obtained(s.device);
            CarriedOn(CarriedOn(OpenSubscription(s, t, granted), t), t) == Assign(s.(device := device), t, granted, service)
  {
    var (service, device) := Obtained(s.device);
    AssignGoesOn(s.(device := device), t, granted, service);
    if s.device.cached.None? {
      NewServiceGoesOn(s, t, granted);
    } else if s.device.cached.value.xaddr != s.device.xaddr {
      var closing := s.device.(closed := s.device.closed + {s.device.cached.value.id});
      NewServiceGoesOn(s.(device := closing.(cached := None)), t, granted);
    }
  }

  // ------------------------------------------------------------------ renewals come in time

  /** A Renew ends in an exception no handler names, and no loss is reported, exactly when it is
      answered with both times, of which only one carries a zone. */
  lemma MixedZonesEndTheRenew(s: State, t: nat, r: Response)
    ensures RenewReplied(s, t, r) == Leave(s, None, [RenewEnded(t, Some(Unlisted))]) <==>
              && r.currentTime.Some? && r.terminationTime.Some?
              && r.currentTime.value.aware != r.terminationTime.value.aware
    ensures RenewReplied(s, t, r).Leave? && LostReported(t) !in RenewReplied(s, t, r).said
  {
  }

  /** The timer for a granted window of `w` seconds is set at least 48 s ahead, and before the
      window ends exactly when w > 48; from a minute up it leaves a fifth of the window. */
  lemma RenewalBeatsExpiry(config: Config, now: real, r: Response)
    requires r.currentTime.Some? && r.terminationTime.Some? && r.currentTime.value.aware == r.terminationTime.value.aware
    ensures var w := r.terminationTime.value.seconds - r.currentTime.value.seconds;
            var at := NextRenewalCallAt(config, now, r);
            && at.Some? && at.value >= now + 48.0
            && (at.value < now + w <==> w > 48.0)
            && (w >= 60.0 ==> (now + w) - at.value == w / 5.0)
  {
  }

  /** From a minute up, when the first attempt fails with a retried error less than 7.5 s after the
      time the timer was set for, the second attempt may start while the subscription is alive. */
  lemma SecondAttemptBeatsExpiry(s: State, t: nat, post: nat, absolute: bool, e: Error, granted: Response,
                                 grantedAt: real)
    requires granted.currentTime.Some? && granted.terminationTime.Some?
    requires granted.currentTime.value.aware == granted.terminationTime.value.aware
    requires granted.terminationTime.value.seconds - granted.currentTime.value.seconds >= 60.0
    requires s.loop.now < NextRenewalCallAt(s.config, grantedAt, granted).value + 7.5
    requires AfterFailedPost(0, post, e) == AttemptAgain
    ensures var n := RaiseAt(s, t, Renewing(0, post, absolute), e);
            var expiry := grantedAt + (granted.terminationTime.value.seconds - granted.currentTime.value.seconds);
            && n.Await? && n.point.Backoff? && n.point.until < expiry
            && Accepts(Task(n.point, false), n.point.until, Proceed)
            && ProceedAt(n.state, t, n.point).said == [Posted(t, Renew, s.device.brokenTime)]
  {
  }
}

/** What the manager makes of each answer and each failure, in plain terms: when it renews next, when
    it stops trusting relative times, and which errors it retries. */
module ManagerAnswers {
  import opened Wrappers
  import opened Retry
  import opened ManagerModel
  import opened ManagerInvariants
  import opened ManagerHistory

  // ------------------------------------------------------------------ the renewal deadline

  /** The renewal is due when four fifths of the granted window are over, or of the interval asked
      for if a time is missing, a window shorter than a minute counting as a minute. There is no
      deadline exactly when only one of two times carries a zone. */
  lemma DeadlineOfAnswer(config: Config, now: real, r: Response)
    ensures var at := NextRenewalCallAt(config, now, r);
            if r.currentTime.None? || r.terminationTime.None? then
              && at.Some?
              && (config.interval >= 60.0 ==> at.value == now + config.interval * 4.0 / 5.0)
              && (config.interval <= 60.0 ==> at.value == now + 48.0)
            else if r.currentTime.value.aware != r.terminationTime.value.aware then at.None?
            else
              var window := r.terminationTime.value.seconds - r.currentTime.value.seconds;
              && at.Some?
              && (window >= 60.0 ==> at.value == now + window * 4.0 / 5.0)
              && (window <= 60.0 ==> at.value == now + 48.0)
  {
  }

  /** The answer a task's deadline comes from as it ends: to its Renew, or to the extra Renew of
      `_start`, or else to its subscribe request. */
  predicate EndsWith(s: State, at: Point, d: Delivery, r: Response) {
    || ((at.Renewing? || at.Rerenewing?) && d.Reply? && d.response == r)
    || (at.OpeningNew? && d.Proceed? && at.granted == r)
    || (at.OpeningPuller? && d.Proceed? && at.granted == r && (s.config.kind.PullPoint? || s.device.xaddr != ""))
  }

  /** When a task ends with an answer, the session then open, the timer is armed for that deadline,
      without two exceptions: loop time zero counts as no deadline, and mixed zones give none, and
      the timer is then armed for 40 s ahead. */
  lemma AnswerArmsTimer(s: State, t: nat, d: Delivery, r: Response)
    requires Inv(s) && t in s.loop.tasks && Accepts(s.loop.tasks[t], s.loop.now, d)
    requires EndsWith(s, s.loop.tasks[t].at, d, r) && t !in Deliver(s, t, d).loop.tasks
    requires !Deliver(s, t, d).shutdown && !Deliver(s, t, d).SessionClosed()
    ensures var after, now := Deliver(s, t, d).loop, s.loop.now;
            var missing := r.currentTime.None? || r.terminationTime.None?;
            var mixed := !missing && r.currentTime.value.aware != r.terminationTime.value.aware;
            var window := if missing then s.config.interval
                          else r.terminationTime.value.seconds - r.currentTime.value.seconds;
            var due := if window >= 60.0 then now + window * 4.0 / 5.0 else now + 48.0;
            after.timers == map[s.loop.nextTimer := if mixed || due == 0.0 then now + 40.0 else due]
  {
    DeadlineOfAnswer(s.config, s.loop.now, r);
    RearmsExactlyWhen(s, t, d);
  }

  /** resume() arms the timer, and only it, for the loop's present time. */
  lemma ResumeArmsNow(s: State)
    requires Inv(s)
    ensures Step(s, ConsumerResume).loop.timers == map[s.loop.nextTimer := s.loop.now]
  {
    ScheduleArms(s, s.loop.now);
  }

  /** start() arms the timer for the deadline `_start` returned, and none if it raised. */
  lemma StartArmsDeadline(config: Config, o: StartOutcome)
    ensures var s := AfterStart(config, o);
            && s.loop.timers == (if o.Started? then map[0 := o.callAt] else map[])
            && s.loop.now == o.at && s.loop.tasks == map[] && !s.shutdown && s.device.brokenTime == o.broken
            && (o.Started? ==> s.subscription.Some? && s.subscription.value.xaddr == o.xaddr && !s.SessionClosed())
  {
  }

  // ------------------------------------------------------------------ broken relative time

  /** Both times came with a zone, and the window between them is less than half of what was asked
      for, in either direction. */
  predicate GrantsTooLittle(expected: real, r: Response) {
    && r.currentTime.Some? && r.terminationTime.Some?
    && r.currentTime.value.aware && r.terminationTime.value.aware
    && var granted := r.terminationTime.value.seconds - r.currentTime.value.seconds;
       -expected < 2.0 * granted < expected
  }

  lemma BrokenExactlyWhen(expected: real, r: Response)
    ensures HasBrokenRelativeTime(expected, r) <==> GrantsTooLittle(expected, r)
  {
  }

  /** A camera that grants at least what was asked for is never found broken, one that grants
      nothing always is, and a time missing or without its zone proves nothing. */
  lemma HealthyIsNotBroken(expected: real, r: Response)
    requires expected > 0.0
    ensures r.currentTime.None? || r.terminationTime.None? ==> !HasBrokenRelativeTime(expected, r)
    ensures r.currentTime.Some? && r.terminationTime.Some? ==>
              var current, termination := r.currentTime.value, r.terminationTime.value;
              && (!current.aware || !termination.aware ==> !HasBrokenRelativeTime(expected, r))
              && (termination.seconds >= current.seconds + expected ==> !HasBrokenRelativeTime(expected, r))
              && (termination == current && current.aware ==> HasBrokenRelativeTime(expected, r))
  {
  }

  /** The answer to the subscribe request of a restart, as long as it is still to be looked at. */
  function Granted(at: Point): Option<Response> {
    if at.OpeningPuller? || at.ClosingOld? || at.OpeningNew? then Some(at.granted) else None
  }

  /** The step looks at the answer: all services are there. */
  predicate LooksAt(s: State, e: Event, r: Response)
    requires Enabled(s, e)
  {
    && e.Resolve? && e.delivery.Proceed?
    && var at := s.loop.tasks[e.task].at;
       && Granted(at) == Some(r)
       && (if s.config.kind.PullPoint? then at.OpeningPuller?
           else at.OpeningNew? || (at.OpeningPuller? && s.device.xaddr != "" && s.device.cached.Some?
                                   && s.device.cached.value.xaddr == s.device.xaddr))
  }

  /** The segment said that it found broken relative time. */
  ghost predicate Finds(s: State, e: Event)
    requires Enabled(s, e)
  {
    |s.log| < |Step(s, e).log| && BrokenTimeFound in Step(s, e).log[|s.log|..]
  }

  lemma CheckFinds(s: State, t: nat, r: Response)
    ensures BrokenTimeFound in CheckBrokenTime(s, t, r).said <==> GrantsTooLittle(s.config.interval, r)
  {
    BrokenExactlyWhen(s.config.interval, r);
  }

  lemma OpeningFinds(s: State, t: nat, r: Response)
    ensures BrokenTimeFound in OpenSubscription(s, t, r).said <==>
              && s.config.kind.Notification? && s.device.xaddr != "" && s.device.cached.Some?
              && s.device.cached.value.xaddr == s.device.xaddr && GrantsTooLittle(s.config.interval, r)
  {
    if s.device.cached.Some? {
      CheckFinds(s.(subscription := Some(s.device.cached.value)), t, r);
    }
  }

  lemma ProceedFinds(s: State, t: nat, at: Point)
    requires Accepts(Task(at, false), s.loop.now, Proceed)
    ensures BrokenTimeFound in ProceedAt(s, t, at).said <==>
              && Granted(at).Some? && GrantsTooLittle(s.config.interval, Granted(at).value)
              && (if s.config.kind.PullPoint? then at.OpeningPuller?
                  else at.OpeningNew? || (at.OpeningPuller? && s.device.xaddr != "" && s.device.cached.Some?
                                          && s.device.cached.value.xaddr == s.device.xaddr))
  {
    match at
    case OpeningPuller(r) =>
      CheckFinds(s, t, r);
      OpeningFinds(s, t, r);
    case OpeningNew(r, service) =>
      CheckFinds(s.(device := s.device.(cached := Some(service)), subscription := Some(service)), t, r);
    case _ =>
  }

  /** A manager finds broken relative time exactly when it looks at a subscribe answer that grants
      less than half of what it asked for. */
  lemma FindsExactlyWhen(s: State, e: Event)
    requires Inv(s) && Enabled(s, e)
    ensures Finds(s, e) <==> exists r :: LooksAt(s, e, r) && GrantsTooLittle(s.config.interval, r)
  {
    if e.Resolve? {
      var at := s.loop.tasks[e.task].at;
      DeliverResult(s, e.task, e.delivery);
      var said := Segment(s, e.task, at, e.delivery).said;
      assert Step(s, e).log[|s.log|..] == said;
      match e.delivery
      case Failed(error) => RaiseFindsNothing(s, e.task, at, error);
      case Reply(r, address) => AnswerFindsNothing(s, e.task, at, r, address);
      case Proceed =>
        ProceedFinds(s, e.task, at);
        if Granted(at).Some? {
          assert Granted(at) == Some(Granted(at).value);
        }
    } else {
      OtherStepsAreSilent(s, e);
    }
  }

  lemma RaiseFindsNothing(s: State, t: nat, at: Point, e: Error)
    ensures BrokenTimeFound !in RaiseAt(s, t, at, e).said
  {
  }

  lemma AnswerFindsNothing(s: State, t: nat, at: Point, r: Response, address: string)
    ensures BrokenTimeFound !in ReplyAt(s, t, at, r, address).said
  {
    OpeningFinds(s.(device := s.device.(xaddr := address)), t, r);
  }

  /** This subscribe answer was delivered to this task in the run. */
  predicate Answered(s: State, es: seq<Event>, t: nat, r: Response)
    requires Runs(s, es)
    decreases |es|
  {
    && es != []
    && (|| (es[0].Resolve? && es[0].task == t && es[0].delivery.Reply? && es[0].delivery.response == r
            && s.loop.tasks[t].at.Subscribing?)
        || Answered(Step(s, es[0]), es[1..], t, r))
  }

  /** A segment leaves its task with an answer to look at only if it was there or came with it. */
  lemma SegmentGrants(s: State, t: nat, at: Point, d: Delivery)
    requires Segment(s, t, at, d).Await? && Granted(Segment(s, t, at, d).point).Some?
    ensures var granted := Granted(Segment(s, t, at, d).point);
            Granted(at) == granted || (d.Reply? && Some(d.response) == granted && at.Subscribing?)
  {
    match d
    case Failed(e) =>
    case Reply(r, address) => SubscribedGrants(s, t, r, address);
    case Proceed =>
      match at
      case OpeningPuller(r) => OpeningGrants(s, t, r);
      case _ =>
  }

  lemma SubscribedGrants(s: State, t: nat, r: Response, address: string)
    ensures var n := Subscribed(s, t, r, address); n.Await? ==> Granted(n.point) in {None, Some(r)}
  {
    OpeningGrants(s.(device := s.device.(xaddr := address)), t, r);
  }

  lemma OpeningGrants(s: State, t: nat, r: Response)
    ensures var n := OpenSubscription(s, t, r); n.Await? ==> Granted(n.point) in {None, Some(r)}
  {
  }

  lemma GrantKept(s: State, e: Event, t: nat)
    requires Inv(s) && Enabled(s, e) && t in Step(s, e).loop.tasks && Granted(Step(s, e).loop.tasks[t].at).Some?
    ensures var r := Granted(Step(s, e).loop.tasks[t].at).value;
            && t in s.loop.tasks
            && (|| Granted(s.loop.tasks[t].at) == Some(r)
                || (e.Resolve? && e.task == t && e.delivery.Reply? && e.delivery.response == r
                    && s.loop.tasks[t].at.Subscribing?))
  {
    if e.Resolve? {
      DeliverResult(s, e.task, e.delivery);
      SegmentGrants(s, e.task, s.loop.tasks[e.task].at, e.delivery);
    } else {
      OtherStepsAreSilent(s, e);
    }
  }

  /** What a task is still to look at was delivered to it in the run. */
  lemma {:induction false} GrantsWereAnswered(s: State, es: seq<Event>, t: nat)
    requires Inv(s) && Runs(s, es)
    requires t in Ran(s, es).loop.tasks && Granted(Ran(s, es).loop.tasks[t].at).Some?
    ensures var r := Granted(Ran(s, es).loop.tasks[t].at).value;
            (t in s.loop.tasks && Granted(s.loop.tasks[t].at) == Some(r)) || Answered(s, es, t, r)
    decreases |es|
  {
    if es != [] {
      StepKeeps(s, es[0]);
      GrantsWereAnswered(Step(s, es[0]), es[1..], t);
      var r := Granted(Ran(s, es).loop.tasks[t].at).value;
      if t in Step(s, es[0]).loop.tasks && Granted(Step(s, es[0]).loop.tasks[t].at) == Some(r) {
        GrantKept(s, es[0], t);
      }
    }
  }

  /** In any run after start(): a step finds broken relative time exactly when it looks at an answer
      that its task's subscribe request was given in the run and that grants too little. */
  lemma DetectionMeansTooLittle(config: Config, o: StartOutcome, es: seq<Event>, e: Event)
    requires Runs(AfterStart(config, o), es) && Enabled(Ran(AfterStart(config, o), es), e)
    ensures var s := Ran(AfterStart(config, o), es);
            Finds(s, e) <==>
              exists r ::
                && LooksAt(s, e, r) && GrantsTooLittle(s.config.interval, r)
                && Answered(AfterStart(config, o), es, e.task, r)
  {
    StartEstablishes(config, o);
    RunKeeps(AfterStart(config, o), es);
    var s := Ran(AfterStart(config, o), es);
    FindsExactlyWhen(s, e);
    forall r | LooksAt(s, e, r)
      ensures Answered(AfterStart(config, o), es, e.task, r)
    {
      GrantsWereAnswered(AfterStart(config, o), es, e.task);
    }
  }

  // ------------------------------------------------------------------ failures, by name

  /** Where a task is that lost its subscription: the loss is reported, and the restart begins. */
  predicate Restarts(n: Next, t: nat, e: Error) {
    n.Await? && n.point == OpeningEntry && n.said == [RenewEnded(t, Some(e)), LostReported(t), RestartBegun(t)]
  }

  predicate BacksOff(s: State, n: Next) {
    n == Await(s, Backoff(s.loop.now + 4.5), [])
  }

  /** What becomes of a Renew whose request fails, for each error by name. */
  lemma FailedRenewRequest(s: State, t: nat, attempt: nat, post: nat, absolute: bool, e: Error)
    ensures var n := RaiseAt(s, t, Renewing(attempt, post, absolute), e);
            match e
            case ServerDisconnected =>
              if post == 0 then n == Await(s, RenewYield(attempt, absolute), [])
              else if attempt == 0 then BacksOff(s, n) else Restarts(n, t, e)
            case ClientConnectionReset =>
              if post == 0 then n == Await(s, RenewYield(attempt, absolute), [])
              else if attempt == 0 then BacksOff(s, n) else Restarts(n, t, e)
            case OtherClientError => if attempt == 0 then BacksOff(s, n) else Restarts(n, t, e)
            case OnvifError => Restarts(n, t, e)
            case Fault => Restarts(n, t, e)
            case Timeout => Restarts(n, t, e)
            case XmlParseError => Restarts(n, t, e)
            case Cancelled => n == Leave(s, None, [RenewEnded(t, Some(e))])
            case Unlisted => n == Leave(s, None, [RenewEnded(t, Some(e))])
  {
  }

  lemma {:induction false} TimeGoesOn(s: State, es: seq<Event>)
    requires Inv(s) && Runs(s, es)
    ensures Ran(s, es).loop.now >= s.loop.now
    decreases |es|
  {
    if es != [] {
      StepKeeps(s, es[0]);
      if es[0].Resolve? {
        DeliverResult(s, es[0].task, es[0].delivery);
      }
      TimeGoesOn(Step(s, es[0]), es[1..]);
    }
  }

  /** A task that backs off makes no request before its backoff is over, whatever happens meanwhile: at
      most its Renew ends, when shutdown() cancels it. */
  lemma {:induction false} BackoffIsWaitedOut(s: State, es: seq<Event>, t: nat)
    requires Inv(s) && Runs(s, es) && t in s.loop.tasks && s.loop.tasks[t].at.Backoff?
    requires Ran(s, es).loop.now < s.loop.tasks[t].at.until
    ensures var n := Ran(s, es);
            && s.log <= n.log
            && forall i :: |s.log| <= i < |n.log| ==> n.log[i].RenewEnded? && n.log[i].error == Some(Cancelled)
    decreases |es|
  {
    if s.shutdown {
      RunAfterShutdown(s, es);
    } else if es != [] {
      TimeGoesOn(s, es);
      StepKeeps(s, es[0]);
      if !es[0].Resolve? {
        OtherStepsAreSilent(s, es[0]);
        BackoffIsWaitedOut(Step(s, es[0]), es[1..], t);
      }
    }
  }

  /** A task that suspends leaves the timer as it was, unless it begins a restart, which disarms it. */
  lemma SuspendedTimer(s: State, t: nat, d: Delivery)
    requires Inv(s) && t in s.loop.tasks && Accepts(s.loop.tasks[t], s.loop.now, d) && t in Deliver(s, t, d).loop.tasks
    ensures var after := Deliver(s, t, d);
            && |s.log| <= |after.log|
            && after.loop.timers == (if RestartBegun(t) in after.log[|s.log|..] then map[] else s.loop.timers)
  {
    var at := s.loop.tasks[t].at;
    DeliverResult(s, t, d);
    assert Deliver(s, t, d).log[|s.log|..] == Segment(s, t, at, d).said;
    match d
    case Failed(e) => RaiseTimer(s, t, at, e);
    case Reply(r, address) => ReplyTimer(s, t, at, r, address);
    case Proceed => ProceedTimer(s, t, at);
  }

  predicate KeepsTimer(s: State, t: nat, n: Next) {
    n.Await? ==> n.state.loop.timers == if RestartBegun(t) in n.said then map[] else s.loop.timers
  }

  lemma RaiseTimer(s: State, t: nat, at: Point, e: Error)
    requires OneTimer(s)
    ensures KeepsTimer(s, t, RaiseAt(s, t, at, e))
  {
  }

  lemma ReplyTimer(s: State, t: nat, at: Point, r: Response, address: string)
    requires OneTimer(s)
    ensures KeepsTimer(s, t, ReplyAt(s, t, at, r, address))
  {
    OpeningTimer(s.(device := s.device.(xaddr := address)), t, r);
  }

  lemma ProceedTimer(s: State, t: nat, at: Point)
    requires OneTimer(s)
    ensures KeepsTimer(s, t, ProceedAt(s, t, at))
  {
    match at
    case OpeningPuller(r) => OpeningTimer(s, t, r);
    case _ =>
  }

  lemma OpeningTimer(s: State, t: nat, r: Response)
    ensures KeepsTimer(s, t, OpenSubscription(s, t, r))
  {
  }

  /** The requests of a restart are posted a second time after a disconnect, and otherwise whatever
      error they meet ends the task. */
  lemma FailedRestartRequest(s: State, t: nat, post: nat, absolute: bool, e: Error)
    ensures var again := post == 0 && (e == ServerDisconnected || e == ClientConnectionReset);
            && RaiseAt(s, t, Subscribing(post, absolute), e)
               == (if again then Await(s, SubscribeYield(absolute), []) else Leave(s, None, []))
            && RaiseAt(s, t, Rerenewing(post), e) == (if again then Await(s, RerenewYield, []) else Leave(s, None, []))
  {
  }

  /** A task begins with a Renew if there is a subscription, with a restart if there is none, and
      ends at once when shut down or when the session is closed. */
  lemma BeginsWith(s: State, t: nat)
    ensures var n := ProceedAt(s, t, Fresh);
            if s.shutdown || (s.subscription.Some? && s.subscription.value.id in s.device.closed) then n == Guarded(s, [])
            else if s.subscription.None? then n.Await? && n.point == OpeningEntry && n.said == [RestartBegun(t)]
            else n.Await? && n.point.Renewing? && n.said == [Posted(t, Renew, s.device.brokenTime)]
  {
  }

  /** A pull point manager opens its subscription service before the service it pulls from, a
      notification manager after it; either records the reference address first. */
  lemma OrderOfStart(s: State, t: nat, absolute: bool, granted: Response, address: string, service: Service)
    requires s.device.cached == Some(service) && service.xaddr == address && address != ""
    ensures var n := ReplyAt(s, t, Subscribing(0, absolute), granted, address);
            && n.Await? && n.point == OpeningPuller(granted) && n.said == [] && n.state.device.xaddr == address
            && n.state.subscription == (if s.config.kind.PullPoint? then Some(service) else s.subscription)
            && var m := ProceedAt(n.state, t, n.point);
               !m.Guarded? && m.state.subscription == Some(service)
  {
  }
}

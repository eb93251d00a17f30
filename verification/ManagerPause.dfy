/** How long pause() and stop() hold: they cancel the timer, but not a renew or restart in flight. */
module ManagerPause {
  import opened Wrappers
  import opened Retry
  import opened ManagerModel
  import opened ManagerInvariants
  import opened ManagerRate
  import opened ManagerHistory

  /** Whatever comes after, short of resume(), no timer is armed. */
  ghost predicate StaysDisarmed(s: State, es: seq<Event>) {
    Runs(s, es) && Resumes(es) == 0 ==> Ran(s, es).loop.timers == map[]
  }

  /** And nothing is going or done either. */
  ghost predicate StaysQuiet(s: State, es: seq<Event>) {
    Runs(s, es) && Resumes(es) == 0 ==> Dead(Ran(s, es)) && Ran(s, es).log == s.log
  }

  lemma {:induction false} DeadStaysQuiet(s: State, es: seq<Event>)
    requires Inv(s) && Dead(s)
    ensures StaysQuiet(s, es)
    decreases |es|
  {
    if es != [] && Runs(s, es) && Resumes(es) == 0 {
      StepKeeps(s, es[0]);
      OtherStepsAreSilent(s, es[0]);
      DeadStaysQuiet(Step(s, es[0]), es[1..]);
    }
  }

  // ------------------------------------------------------------------ the sessions there are

  predicate KnownAt(d: Device, at: Point) {
    at.OpeningNew? ==> at.service.id < d.nextService
  }

  /** Only sessions of services that were built are closed, cached or being set up. */
  ghost predicate Known(s: State) {
    && (forall id :: id in s.device.closed ==> id < s.device.nextService)
    && (s.device.cached.Some? ==> s.device.cached.value.id < s.device.nextService)
    && (forall t :: t in s.loop.tasks ==> KnownAt(s.device, s.loop.tasks[t].at))
  }

  ghost predicate KnownNext(n: Next) {
    && (forall id :: id in n.state.device.closed ==> id < n.state.device.nextService)
    && (n.state.device.cached.Some? ==> n.state.device.cached.value.id < n.state.device.nextService)
    && (n.Await? ==> KnownAt(n.state.device, n.point))
  }

  lemma OpenSubscriptionKnows(s: State, t: nat, granted: Response)
    requires Known(s)
    ensures KnownNext(OpenSubscription(s, t, granted))
  {
  }

  lemma ProceedKnows(s: State, t: nat, at: Point)
    requires Known(s) && KnownAt(s.device, at)
    ensures KnownNext(ProceedAt(s, t, at))
  {
    if at.OpeningPuller? {
      OpenSubscriptionKnows(s, t, at.granted);
    }
  }

  lemma RaiseKnows(s: State, t: nat, at: Point, e: Error)
    requires Known(s)
    ensures KnownNext(RaiseAt(s, t, at, e))
  {
  }

  lemma SegmentKnows(s: State, t: nat, at: Point, d: Delivery)
    requires Known(s) && KnownAt(s.device, at)
    ensures KnownNext(Segment(s, t, at, d))
  {
    match d
    case Failed(e) => RaiseKnows(s, t, at, e);
    case Reply(r, address) => OpenSubscriptionKnows(s.(device := s.device.(xaddr := address)), t, r);
    case Proceed => ProceedKnows(s, t, at);
  }

  lemma StepKnows(s: State, e: Event)
    requires Inv(s) && Known(s) && Enabled(s, e)
    ensures Known(Step(s, e))
  {
    if e.Resolve? {
      DeliverKnows(s, e.task, e.delivery);
    } else {
      OtherStepsAreSilent(s, e);
    }
  }

  lemma DeliverKnows(s: State, t: nat, d: Delivery)
    requires Inv(s) && Known(s) && t in s.loop.tasks && Accepts(s.loop.tasks[t], s.loop.now, d)
    ensures Known(Deliver(s, t, d))
  {
    SegmentKnows(s, t, s.loop.tasks[t].at, d);
    DeliverResult(s, t, d);
  }

  lemma {:induction false} RunKnows(s: State, es: seq<Event>)
    requires Inv(s) && Known(s) && Runs(s, es)
    ensures Known(Ran(s, es))
    decreases |es|
  {
    if es != [] {
      StepKeeps(s, es[0]);
      StepKnows(s, es[0]);
      RunKnows(Step(s, es[0]), es[1..]);
    }
  }

  // ------------------------------------------------------------------ who can still re-arm

  /** Opening the subscription service will end with an open session, if nothing closes it. */
  predicate OpensSession(d: Device) {
    d.xaddr != "" && (d.cached.None? || d.cached.value.xaddr != d.xaddr || d.cached.value.id !in d.closed)
  }

  /** A task suspended here can still end with the current session open: it is open, or the task
      has yet to assign another service whose session is not closed. */
  predicate CanRearm(s: State, at: Point) {
    || !s.SessionClosed()
    || at.Renewing? || at.RenewYield? || at.Backoff? || at.OpeningEntry? || at.Subscribing? || at.SubscribeYield?
    || at.ClosingOld?
    || (at.OpeningNew? && at.service.id !in s.device.closed)
    || (at.OpeningPuller? && s.config.kind.Notification? && OpensSession(s.device))
  }

  /** No timer is armed, and no task that is going can change that. */
  ghost predicate Barred(s: State) {
    && s.loop.timers == map[]
    && (s.shutdown || forall t :: t in s.loop.tasks ==> !CanRearm(s, s.loop.tasks[t].at))
  }

  /** A segment that cannot lead to an open session leads nowhere else. */
  ghost predicate StaysBarred(n: Next) {
    && (n.Await? ==> !CanRearm(n.state, n.point))
    && (n.Leave? ==> n.state.SessionClosed())
  }

  lemma CheckBrokenTimeStaysBarred(s: State, t: nat, granted: Response)
    requires s.SessionClosed()
    ensures StaysBarred(CheckBrokenTime(s, t, granted))
  {
  }

  lemma AssignStaysBarred(s: State, t: nat, granted: Response, service: Service)
    requires service.id in s.device.closed
    ensures StaysBarred(Assign(s, t, granted, service))
  {
    CheckBrokenTimeStaysBarred(s.(subscription := Some(service)), t, granted);
  }

  lemma SegmentStaysBarred(s: State, t: nat, at: Point, d: Delivery)
    requires Accepts(Task(at, false), s.loop.now, d) && !CanRearm(s, at)
    ensures StaysBarred(Segment(s, t, at, d))
  {
    match at
    case OpeningPuller(r) =>
      CheckBrokenTimeStaysBarred(s, t, r);
      if s.device.cached.Some? && s.device.cached.value.id in s.device.closed {
        AssignStaysBarred(s, t, r, s.device.cached.value);
      }
    case OpeningNew(r, service) =>
      AssignStaysBarred(s.(device := s.device.(cached := Some(service))), t, r, service);
    case _ =>
  }

  lemma BarredDelivery(s: State, t: nat, d: Delivery)
    requires Inv(s) && Barred(s) && !s.shutdown && t in s.loop.tasks && Accepts(s.loop.tasks[t], s.loop.now, d)
    ensures Barred(Deliver(s, t, d))
  {
    var at := s.loop.tasks[t].at;
    SegmentStaysBarred(s, t, at, d);
    SegmentFrame(s, t, at, d);
    DeliverResult(s, t, d);
    var n := Segment(s, t, at, d);
    var m := n.state.(log := s.log + n.said);
    if n.Leave? {
      FinallyArms(m.WithTasks(m.loop.tasks - {t}), n.callAt);
    }
  }

  lemma StepStaysBarred(s: State, e: Event)
    requires Inv(s) && Barred(s) && Enabled(s, e) && !e.ConsumerResume?
    ensures Barred(Step(s, e))
  {
    if s.shutdown {
      StepAfterShutdown(s, e);
    } else if e.Resolve? {
      BarredDelivery(s, e.task, e.delivery);
    }
  }

  lemma {:induction false} BarredStaysDisarmed(s: State, es: seq<Event>)
    requires Inv(s) && Barred(s)
    ensures StaysDisarmed(s, es)
    decreases |es|
  {
    if es != [] && Runs(s, es) && Resumes(es) == 0 {
      StepKeeps(s, es[0]);
      StepStaysBarred(s, es[0]);
      BarredStaysDisarmed(Step(s, es[0]), es[1..]);
    }
  }

  // ------------------------------------------------------------------ the run in which it does

  /** One more step before a run in which the timer is armed. */
  lemma Before(s: State, e: Event)
    requires Enabled(s, e) && !e.ConsumerResume?
    requires Step(s, e).loop.timers != map[] || exists es :: !StaysDisarmed(Step(s, e), es)
    ensures exists es :: !StaysDisarmed(s, es)
  {
    var n := Step(s, e);
    var es: seq<Event> := [];
    if exists fs :: !StaysDisarmed(n, fs) {
      es :| !StaysDisarmed(n, es);
    }
    RunOne(s, e, es);
    ResumesConcat([e], es);
    NoResumes([e]);
    assert !StaysDisarmed(s, [e] + es);
  }

  /** The manager is alive, and this task is in flight. */
  ghost predicate InFlight(s: State, t: nat) {
    Inv(s) && Known(s) && !s.shutdown && t in s.loop.tasks
  }

  /** One segment further, the task is suspended at the point the segment awaits. */
  lemma FlightGoesOn(s: State, t: nat, d: Delivery)
    requires InFlight(s, t) && Accepts(s.loop.tasks[t], s.loop.now, d) && Segment(s, t, s.loop.tasks[t].at, d).Await?
    ensures var n, after := Segment(s, t, s.loop.tasks[t].at, d), Step(s, Resolve(t, d));
            && InFlight(after, t) && after.loop.tasks[t].at == n.point
            && after.device == n.state.device && after.subscription == n.state.subscription && after.config == s.config
  {
    StepKeeps(s, Resolve(t, d));
    StepKnows(s, Resolve(t, d));
    DeliverResult(s, t, d);
    SegmentFrame(s, t, s.loop.tasks[t].at, d);
  }

  /** One segment further, the task is over, and the timer is armed if the session is open. */
  lemma FlightEnds(s: State, t: nat, d: Delivery)
    requires InFlight(s, t) && Accepts(s.loop.tasks[t], s.loop.now, d) && !s.loop.tasks[t].at.Fresh?
    requires var n := Segment(s, t, s.loop.tasks[t].at, d); n.Leave? && !n.state.SessionClosed()
    ensures Step(s, Resolve(t, d)).loop.timers != map[]
  {
    var at := s.loop.tasks[t].at;
    SegmentFrame(s, t, at, d);
    var n := Segment(s, t, at, d);
    FinallyArms(n.state.(log := s.log + n.said).WithTasks(n.state.loop.tasks - {t}), n.callAt);
    assert s.loop.nextTimer in Step(s, Resolve(t, d)).loop.timers;
  }

  /** With the session open, an exception no handler names ends the task, and the timer is armed. */
  lemma OpenRearms(s: State, t: nat)
    requires InFlight(s, t) && !s.SessionClosed()
    requires var at := s.loop.tasks[t].at;
             !(at.Fresh? || at.RenewYield? || at.Backoff? || at.SubscribeYield? || at.RerenewYield?)
    ensures exists es :: !StaysDisarmed(s, es)
  {
    FlightEnds(s, t, Failed(Unlisted));
    Before(s, Resolve(t, Failed(Unlisted)));
  }

  lemma WokenRearms(s: State, t: nat)
    requires InFlight(s, t) && !s.SessionClosed()
    requires var at := s.loop.tasks[t].at; at.Fresh? || at.RenewYield? || at.SubscribeYield? || at.RerenewYield?
    ensures exists es :: !StaysDisarmed(s, es)
  {
    FlightGoesOn(s, t, Proceed);
    OpenRearms(Step(s, Resolve(t, Proceed)), t);
    Before(s, Resolve(t, Proceed));
  }

  /** The backoff passes, and the second attempt begins. */
  lemma BackoffPasses(s: State, t: nat)
    requires InFlight(s, t) && s.loop.tasks[t].at.Backoff?
    ensures var wait := Advance(if s.loop.tasks[t].at.until > s.loop.now then s.loop.tasks[t].at.until - s.loop.now else 0.0);
            && Enabled(s, wait)
            && var n := Step(s, wait);
               && InFlight(n, t) && Enabled(n, Resolve(t, Proceed))
               && var m := Step(n, Resolve(t, Proceed));
                  && InFlight(m, t) && m.loop.tasks[t].at.Renewing? && m.SessionClosed() == s.SessionClosed()
  {
    var wait := Advance(if s.loop.tasks[t].at.until > s.loop.now then s.loop.tasks[t].at.until - s.loop.now else 0.0);
    StepKeeps(s, wait);
    StepKnows(s, wait);
    FlightGoesOn(Step(s, wait), t, Proceed);
  }

  /** Anyone in flight with the session open can re-arm. */
  lemma AnyOpenRearms(s: State, t: nat)
    requires InFlight(s, t) && !s.SessionClosed()
    ensures exists es :: !StaysDisarmed(s, es)
  {
    var at := s.loop.tasks[t].at;
    if at.Backoff? {
      BackoffPasses(s, t);
      var wait := Advance(if at.until > s.loop.now then at.until - s.loop.now else 0.0);
      var n := Step(s, wait);
      OpenRearms(Step(n, Resolve(t, Proceed)), t);
      Before(n, Resolve(t, Proceed));
      Before(s, wait);
    } else if at.Fresh? || at.RenewYield? || at.SubscribeYield? || at.RerenewYield? {
      WokenRearms(s, t);
    } else {
      OpenRearms(s, t);
    }
  }

  /** A segment that leaves the session open leads to an armed timer. */
  lemma ReopenedRearms(s: State, t: nat, d: Delivery)
    requires InFlight(s, t) && Accepts(s.loop.tasks[t], s.loop.now, d) && !s.loop.tasks[t].at.Fresh?
    requires var n := Segment(s, t, s.loop.tasks[t].at, d); !n.Guarded? && !n.state.SessionClosed()
    ensures exists es :: !StaysDisarmed(s, es)
  {
    if Segment(s, t, s.loop.tasks[t].at, d).Await? {
      FlightGoesOn(s, t, d);
      AnyOpenRearms(Step(s, Resolve(t, d)), t);
    } else {
      FlightEnds(s, t, d);
    }
    Before(s, Resolve(t, d));
  }

  lemma AssignReopens(s: State, t: nat, granted: Response, service: Service)
    requires service.id !in s.device.closed
    ensures var n := Assign(s, t, granted, service); !n.Guarded? && !n.state.SessionClosed()
  {
  }

  /** The new service is assigned. */
  lemma NewServiceRearms(s: State, t: nat)
    requires InFlight(s, t) && s.loop.tasks[t].at.OpeningNew? && s.loop.tasks[t].at.service.id !in s.device.closed
    ensures exists es :: !StaysDisarmed(s, es)
  {
    var at := s.loop.tasks[t].at;
    AssignReopens(s.(device := s.device.(cached := Some(at.service))), t, at.granted, at.service);
    ReopenedRearms(s, t, Proceed);
  }

  /** The old service is closed, and the manager will assign another. */
  lemma ClosingRearms(s: State, t: nat)
    requires InFlight(s, t) && s.loop.tasks[t].at.ClosingOld?
    ensures exists es :: !StaysDisarmed(s, es)
  {
    FlightGoesOn(s, t, Proceed);
    NewServiceRearms(Step(s, Resolve(t, Proceed)), t);
    Before(s, Resolve(t, Proceed));
  }

  /** From a segment that comes to opening the subscription service. */
  lemma OpeningRearms(s: State, t: nat, d: Delivery, opening: State, granted: Response)
    requires InFlight(s, t) && Accepts(s.loop.tasks[t], s.loop.now, d) && !s.loop.tasks[t].at.Fresh?
    requires Segment(s, t, s.loop.tasks[t].at, d) == OpenSubscription(opening, t, granted) && OpensSession(opening.device)
    ensures exists es :: !StaysDisarmed(s, es)
  {
    var cached := opening.device.cached;
    if cached.Some? && cached.value.xaddr == opening.device.xaddr {
      AssignReopens(opening, t, granted, cached.value);
      ReopenedRearms(s, t, d);
    } else {
      SegmentKnows(s, t, s.loop.tasks[t].at, d);
      FlightGoesOn(s, t, d);
      var n := Step(s, Resolve(t, d));
      if cached.None? {
        NewAtOnce(s, t, d, opening, granted);
        NewServiceRearms(n, t);
      } else {
        ClosingRearms(n, t);
      }
      Before(s, Resolve(t, d));
    }
  }

  lemma NewAtOnce(s: State, t: nat, d: Delivery, opening: State, granted: Response)
    requires InFlight(s, t) && Accepts(s.loop.tasks[t], s.loop.now, d) && !s.loop.tasks[t].at.Fresh?
    requires Segment(s, t, s.loop.tasks[t].at, d) == OpenSubscription(opening, t, granted)
    requires opening.device.xaddr != "" && opening.device.cached.None?
    ensures var n := Step(s, Resolve(t, d));
            t in n.loop.tasks && n.loop.tasks[t].at.OpeningNew? && n.loop.tasks[t].at.service.id !in n.device.closed
  {
    FlightGoesOn(s, t, d);
  }

  lemma PullerRearms(s: State, t: nat)
    requires InFlight(s, t) && s.loop.tasks[t].at.OpeningPuller? && s.config.kind.Notification? && OpensSession(s.device)
    ensures exists es :: !StaysDisarmed(s, es)
  {
    OpeningRearms(s, t, Proceed, s, s.loop.tasks[t].at.granted);
  }

  /** An address the cached service does not have. */
  function Elsewhere(d: Device): (xaddr: string)
    ensures xaddr != "" && (d.cached.Some? ==> d.cached.value.xaddr != xaddr)
  {
    if d.cached.Some? then "x" + d.cached.value.xaddr else "x"
  }

  /** The camera grants a subscription at another address. */
  lemma SubscribingRearms(s: State, t: nat)
    requires InFlight(s, t) && s.loop.tasks[t].at.Subscribing?
    ensures exists es :: !StaysDisarmed(s, es)
  {
    var granted, address := Response(None, None), Elsewhere(s.device);
    var d := Reply(granted, address);
    var moved := s.(device := s.device.(xaddr := address));
    if s.config.kind.PullPoint? {
      OpeningRearms(s, t, d, moved, granted);
    } else {
      FlightGoesOn(s, t, d);
      PullerRearms(Step(s, Resolve(t, d)), t);
      Before(s, Resolve(t, d));
    }
  }

  lemma RestartingRearms(s: State, t: nat)
    requires InFlight(s, t) && (s.loop.tasks[t].at.OpeningEntry? || s.loop.tasks[t].at.SubscribeYield?)
    ensures exists es :: !StaysDisarmed(s, es)
  {
    FlightGoesOn(s, t, Proceed);
    SubscribingRearms(Step(s, Resolve(t, Proceed)), t);
    Before(s, Resolve(t, Proceed));
  }

  /** The Renew fails, and the restart is granted a subscription. */
  lemma RenewingRearms(s: State, t: nat)
    requires InFlight(s, t) && s.loop.tasks[t].at.Renewing?
    ensures exists es :: !StaysDisarmed(s, es)
  {
    FlightGoesOn(s, t, Failed(Fault));
    RestartingRearms(Step(s, Resolve(t, Failed(Fault))), t);
    Before(s, Resolve(t, Failed(Fault)));
  }

  lemma SleepingRearms(s: State, t: nat)
    requires InFlight(s, t) && (s.loop.tasks[t].at.RenewYield? || s.loop.tasks[t].at.Backoff?)
    ensures exists es :: !StaysDisarmed(s, es)
  {
    var at := s.loop.tasks[t].at;
    if at.RenewYield? {
      FlightGoesOn(s, t, Proceed);
      RenewingRearms(Step(s, Resolve(t, Proceed)), t);
      Before(s, Resolve(t, Proceed));
    } else {
      BackoffPasses(s, t);
      var wait := Advance(if at.until > s.loop.now then at.until - s.loop.now else 0.0);
      var n := Step(s, wait);
      RenewingRearms(Step(n, Resolve(t, Proceed)), t);
      Before(n, Resolve(t, Proceed));
      Before(s, wait);
    }
  }

  /** A task in flight that can re-arm the timer has a continuation in which it does. */
  lemma InFlightRearms(s: State, t: nat)
    requires InFlight(s, t) && CanRearm(s, s.loop.tasks[t].at)
    ensures exists es :: !StaysDisarmed(s, es)
  {
    var at := s.loop.tasks[t].at;
    if !s.SessionClosed() {
      AnyOpenRearms(s, t);
    } else if at.Renewing? {
      RenewingRearms(s, t);
    } else if at.RenewYield? || at.Backoff? {
      SleepingRearms(s, t);
    } else if at.OpeningEntry? || at.SubscribeYield? {
      RestartingRearms(s, t);
    } else if at.Subscribing? {
      SubscribingRearms(s, t);
    } else if at.ClosingOld? {
      ClosingRearms(s, t);
    } else if at.OpeningNew? {
      NewServiceRearms(s, t);
    } else {
      PullerRearms(s, t);
    }
  }

  // ------------------------------------------------------------------ the exact condition

  lemma PausedState(s: State, e: Event)
    requires Inv(s) && Known(s) && (e.ConsumerPause? || e.ConsumerStop?)
    ensures var n := Step(s, e);
            && Inv(n) && Known(n) && n.loop.timers == map[] && n.loop.tasks == s.loop.tasks && n.device == s.device
            && n.shutdown == s.shutdown && n.subscription == s.subscription && n.config == s.config
  {
    StepKeeps(s, e);
    StepKnows(s, e);
  }

  /** In any state of any run: pause() and stop() keep the timer disarmed, whatever comes after
      short of resume(), exactly when the manager is shut down or no task in flight can still end
      with the current session open. */
  lemma PauseHoldsExactlyWhen(config: Config, o: StartOutcome, before: seq<Event>, e: Event)
    requires Runs(AfterStart(config, o), before) && (e.ConsumerPause? || e.ConsumerStop?)
    ensures var s := Ran(AfterStart(config, o), before);
            (forall es :: StaysDisarmed(Step(s, e), es)) <==>
              s.shutdown || forall t :: t in s.loop.tasks ==> !CanRearm(s, s.loop.tasks[t].at)
  {
    StartEstablishes(config, o);
    RunKeeps(AfterStart(config, o), before);
    RunKnows(AfterStart(config, o), before);
    var s := Ran(AfterStart(config, o), before);
    PausedState(s, e);
    var n := Step(s, e);
    if Barred(n) {
      forall es ensures StaysDisarmed(n, es) {
        BarredStaysDisarmed(n, es);
      }
    } else {
      var t :| t in n.loop.tasks && CanRearm(n, n.loop.tasks[t].at);
      InFlightRearms(n, t);
    }
  }
}

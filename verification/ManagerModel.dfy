/** The subscription manager of onvif/managers.py as an event-loop state machine.

    Every await is a place where the loop may run something else, so one step of the machine is the
    code between two awaits: a timer fires, a suspended renew/restart task is handed the outcome of
    what it awaited, or the consumer calls the manager. */
module ManagerModel {
  import opened Wrappers
  import opened Retry

  datatype Kind = Notification | PullPoint

  datatype Config = Config(kind: Kind, interval: real)

  const RENEWAL_PERCENTAGE: real := 0.8
  const MINIMUM_SUBSCRIPTION_SECONDS: real := 60.0
  const RESTART_INTERVAL_ON_ERROR: real := 40.0

  /** A time the camera reported; `aware` when it carried a time zone. */
  datatype Stamp = Stamp(seconds: real, aware: bool)

  datatype Response = Response(currentTime: Option<Stamp>, terminationTime: Option<Stamp>)

  /** A service proxy with its own session. */
  datatype Service = Service(id: nat, xaddr: string)

  /** What an awaited operation is resolved with. `address` is the subscription reference after
      normalisation and rewriting, empty if it was missing or empty, used by Subscribe and
      CreatePullPointSubscription only. */
  datatype Delivery = Reply(response: Response, address: string) | Proceed | Failed(error: Error)

  /** Where a renew/restart task is suspended. `absolute` is the form of the termination time in the
      request under way, which the transport's second post repeats. */
  datatype Point =
    | Fresh
    | Renewing(attempt: nat, post: nat, absolute: bool)
    | RenewYield(attempt: nat, absolute: bool)
    | Backoff(until: real)
    | OpeningEntry
    | Subscribing(post: nat, absolute: bool)
    | SubscribeYield(absolute: bool)
    | OpeningPuller(granted: Response)
    | ClosingOld(granted: Response)
    | OpeningNew(granted: Response, service: Service)
    | Rerenewing(post: nat)
    | RerenewYield

  datatype Task = Task(at: Point, cancelled: bool)

  datatype Operation = Renew | Subscribe

  /** What an observer sees the tasks do. A Subscribe of either manager kind is `Subscribe`. */
  datatype Action =
    | Posted(task: nat, operation: Operation, absolute: bool)
    | BrokenTimeFound
    | RenewEnded(task: nat, error: Option<Error>)
    | LostReported(task: nat)
    | RestartBegun(task: nat)

  /** The event loop: its clock, the timer handles neither cancelled nor fired, the tasks not done. */
  datatype Loop = Loop(now: real, timers: map<nat, real>, nextTimer: nat, tasks: map<nat, Task>, nextTask: nat)

  /** The camera object: device.xaddrs at the subscription's namespace, the cached service for it,
      whether relative times are known to be broken, and the sessions no longer open. */
  datatype Device = Device(xaddr: string, cached: Option<Service>, brokenTime: bool, closed: set<nat>, nextService: nat)

  /** `disarmed` records that pause() or stop() was called since the timer was last armed, `log`
      what was observed so far; the code keeps neither. */
  datatype State = State(
    config: Config,
    loop: Loop,
    device: Device,
    shutdown: bool,
    subscription: Option<Service>,
    renewTimer: Option<nat>,
    renewTask: Option<nat>,
    disarmed: bool,
    log: seq<Action>)
  {
    /** `_session_closed` */
    predicate SessionClosed() {
      subscription.Some? && subscription.value.id in device.closed
    }

    function WithTimers(timers: map<nat, real>): State {
      this.(loop := loop.(timers := timers))
    }

    function WithTasks(tasks: map<nat, Task>): State {
      this.(loop := loop.(tasks := tasks))
    }
  }

  // ------------------------------------------------------------------ times the camera reports

  /** `_calculate_next_renewal_call_at`; None is the TypeError of subtracting times of which only
      one carries a zone. */
  function NextRenewalCallAt(config: Config, now: real, r: Response): Option<real> {
    if r.terminationTime.Some? && r.currentTime.Some? then
      var termination, current := r.terminationTime.value, r.currentTime.value;
      if termination.aware != current.aware then None
      else Some(now + Longest(termination.seconds - current.seconds) * RENEWAL_PERCENTAGE)
    else Some(now + Longest(config.interval) * RENEWAL_PERCENTAGE)
  }

  function Longest(delay: real): real {
    if delay < MINIMUM_SUBSCRIPTION_SECONDS then MINIMUM_SUBSCRIPTION_SECONDS else delay
  }

  /** `has_broken_relative_time` */
  predicate HasBrokenRelativeTime(expected: real, r: Response) {
    && r.currentTime.Some? && r.terminationTime.Some?
    && r.currentTime.value.aware && r.terminationTime.value.aware
    && var actual := r.terminationTime.value.seconds - r.currentTime.value.seconds;
       (if actual < 0.0 then -actual else actual) < expected / 2.0
  }

  // ------------------------------------------------------------------ timers and tasks

  /** `_cancel_renewals` */
  function CancelRenewals(s: State): State {
    if s.renewTimer.None? then s
    else s.WithTimers(s.loop.timers - {s.renewTimer.value}).(renewTimer := None)
  }

  /** `_schedule_subscription_renew` */
  function Schedule(s: State, at: real): State {
    var c := CancelRenewals(s);
    var handle := c.loop.nextTimer;
    c.(loop := c.loop.(timers := c.loop.timers[handle := at], nextTimer := handle + 1), renewTimer := Some(handle),
       disarmed := false)
  }

  /** `_run_restart_or_renew` */
  function RunRestartOrRenew(s: State): State {
    if s.renewTask.Some? && s.renewTask.value in s.loop.tasks then s
    else
      var t := s.loop.nextTask;
      s.(loop := s.loop.(tasks := s.loop.tasks[t := Task(Fresh, false)], nextTask := t + 1), renewTask := Some(t))
  }

  // ------------------------------------------------------------------ the task body

  /** Where running a task from one await gets it: suspended at another, out through the finally
      block with the value of `renewal_call_at`, or out at the entry guard. `said` is what an
      observer sees on the way. */
  datatype Next =
    | Await(state: State, point: Point, said: seq<Action>)
    | Leave(state: State, callAt: Option<real>, said: seq<Action>)
    | Guarded(state: State, said: seq<Action>)

  /** Build and post the Renew request of an attempt. */
  function PostRenew(s: State, t: nat, attempt: nat): Next {
    Await(s, Renewing(attempt, 0, s.device.brokenTime), [Posted(t, Renew, s.device.brokenTime)])
  }

  /** `_restart_subscription` up to the first await of `_start`. */
  function BeginRestart(s: State, t: nat, said: seq<Action>): Next {
    Await(CancelRenewals(s), OpeningEntry, said + [RestartBegun(t)])
  }

  /** `_renew_or_restart_subscription` from its first line to its first await. */
  function Start(s: State, t: nat): Next {
    if s.shutdown || s.SessionClosed() then Guarded(s, [])
    else if s.subscription.None? then BeginRestart(s, t, [])
    else PostRenew(s, t, 0)
  }

  datatype Verdict = PostAgain | AttemptAgain | Over

  /** What the two stacked retries make of a failed request of a Renew. */
  function AfterFailedPost(attempt: nat, post: nat, e: Error): Verdict {
    if IsDisconnect(e) && post == 0 then PostAgain
    else if IsClientError(e) && attempt == 0 then AttemptAgain
    else Over
  }

  function RenewFailed(s: State, t: nat, attempt: nat, post: nat, absolute: bool, e: Error): Next {
    match AfterFailedPost(attempt, post, e)
    case PostAgain => Await(s, RenewYield(attempt, absolute), [])
    case AttemptAgain => Await(s, Backoff(s.loop.now + BACKOFF_TIME), [])
    case Over => RenewRaised(s, t, e)
  }

  /** `_call_subscription_renew` raised. */
  function RenewRaised(s: State, t: nat, e: Error): Next {
    var ended := [RenewEnded(t, Some(e))];
    if IsRenewError(e) then BeginRestart(s, t, ended + [LostReported(t)]) else Leave(s, None, ended)
  }

  function RenewReplied(s: State, t: nat, r: Response): Next {
    var at := NextRenewalCallAt(s.config, s.loop.now, r);
    if at.None? then RenewRaised(s, t, Unlisted) else Leave(s, at, [RenewEnded(t, None)])
  }

  /** The service is assigned to `_subscription`; what `_start` does next depends on the kind. */
  function Assign(s: State, t: nat, granted: Response, service: Service): Next {
    var taken := s.(subscription := Some(service));
    if s.config.kind.PullPoint? then Await(taken, OpeningPuller(granted), []) else CheckBrokenTime(taken, t, granted)
  }

  /** Construct the service at the current address and await its setup. */
  function OpenNew(s: State, granted: Response): Next {
    var id := s.device.nextService;
    Await(s.(device := s.device.(nextService := id + 1)), OpeningNew(granted, Service(id, s.device.xaddr)), [])
  }

  /** `create_subscription_service`: keep the cached service while the address is unchanged,
      otherwise close it first. */
  function OpenSubscription(s: State, t: nat, granted: Response): Next {
    var d := s.device;
    if d.xaddr == "" then Leave(s, None, [])
    else if d.cached.None? then OpenNew(s, granted)
    else if d.cached.value.xaddr == d.xaddr then Assign(s, t, granted, d.cached.value)
    else Await(s.(device := d.(closed := d.closed + {d.cached.value.id})), ClosingOld(granted), [])
  }

  /** The service handed back once nothing fails, and the camera then: the cached one at an
      unchanged address, otherwise a new one, any cached one being closed and replaced. */
  function Obtained(d: Device): (Service, Device) {
    if d.cached.Some? && d.cached.value.xaddr == d.xaddr then (d.cached.value, d)
    else
      var service := Service(d.nextService, d.xaddr);
      (service, d.(cached := Some(service), nextService := d.nextService + 1,
                   closed := if d.cached.Some? then d.closed + {d.cached.value.id} else d.closed))
  }

  /** The last part of `_start`: switch to absolute times if needed, then compute the deadline. */
  function CheckBrokenTime(s: State, t: nat, granted: Response): Next {
    if HasBrokenRelativeTime(s.config.interval, granted) then
      Await(s.(device := s.device.(brokenTime := true)), Rerenewing(0), [BrokenTimeFound, Posted(t, Renew, true)])
    else Leave(s, NextRenewalCallAt(s.config, s.loop.now, granted), [])
  }

  /** The subscribe request of a restart was answered. */
  function Subscribed(s: State, t: nat, granted: Response, address: string): Next {
    var moved := s.(device := s.device.(xaddr := address));
    if s.config.kind.PullPoint? then OpenSubscription(moved, t, granted) else Await(moved, OpeningPuller(granted), [])
  }

  /** The service messages are pulled from is there. */
  function PullerOpened(s: State, t: nat, granted: Response): Next {
    if s.config.kind.PullPoint? then CheckBrokenTime(s, t, granted) else OpenSubscription(s, t, granted)
  }

  /** Whether a suspended task can be handed this. A cancelled task is handed CancelledError, and
      nothing else is raised where a task has not begun or sleeps. */
  predicate Accepts(task: Task, now: real, d: Delivery) {
    if task.cancelled then d == Failed(Cancelled)
    else match task.at
      case Fresh => d.Proceed?
      case Renewing(_, _, _) => !d.Proceed?
      case RenewYield(_, _) => d.Proceed?
      case Backoff(until) => d.Proceed? && until <= now
      case Subscribing(_, _) => !d.Proceed?
      case SubscribeYield(_) => d.Proceed?
      case Rerenewing(_) => !d.Proceed?
      case RerenewYield => d.Proceed?
      case _ => !d.Reply?
  }

  /** An exception is raised at the await the task is suspended at. */
  function RaiseAt(s: State, t: nat, at: Point, e: Error): Next {
    match at
    case Fresh => Guarded(s, [])
    case Renewing(a, p, absolute) => RenewFailed(s, t, a, p, absolute, e)
    case RenewYield(_, _) => RenewRaised(s, t, e)
    case Backoff(_) => RenewRaised(s, t, e)
    case Subscribing(p, absolute) =>
      if IsDisconnect(e) && p == 0 then Await(s, SubscribeYield(absolute), []) else Leave(s, None, [])
    case Rerenewing(p) => if IsDisconnect(e) && p == 0 then Await(s, RerenewYield, []) else Leave(s, None, [])
    case _ => Leave(s, None, [])
  }

  /** The request the task is suspended at is answered. */
  function ReplyAt(s: State, t: nat, at: Point, r: Response, address: string): Next {
    match at
    case Renewing(_, _, _) => RenewReplied(s, t, r)
    case Subscribing(_, _) => Subscribed(s, t, r, address)
    case _ => Leave(s, NextRenewalCallAt(s.config, s.loop.now, r), [])
  }

  /** The sleep or the service creation the task is suspended at is over. */
  function ProceedAt(s: State, t: nat, at: Point): Next {
    match at
    case Fresh => Start(s, t)
    case RenewYield(a, absolute) => Await(s, Renewing(a, 1, absolute), [Posted(t, Renew, absolute)])
    case Backoff(_) => PostRenew(s, t, 1)
    case OpeningEntry => Await(s, Subscribing(0, s.device.brokenTime), [Posted(t, Subscribe, s.device.brokenTime)])
    case SubscribeYield(absolute) => Await(s, Subscribing(1, absolute), [Posted(t, Subscribe, absolute)])
    case OpeningPuller(r) => PullerOpened(s, t, r)
    case ClosingOld(r) => OpenNew(s.(device := s.device.(cached := None)), r)
    case OpeningNew(r, service) => Assign(s.(device := s.device.(cached := Some(service))), t, r, service)
    case _ => Await(s, Rerenewing(1), [Posted(t, Renew, true)])
  }

  /** The code between the await the task is suspended at and the next, or its end. */
  function Segment(s: State, t: nat, at: Point, d: Delivery): Next {
    match d
    case Failed(e) => RaiseAt(s, t, at, e)
    case Reply(r, address) => ReplyAt(s, t, at, r, address)
    case Proceed => ProceedAt(s, t, at)
  }

  /** The finally block. */
  function Finally(s: State, callAt: Option<real>): State {
    if s.shutdown || s.SessionClosed() then s
    else Schedule(s, if callAt.Some? && callAt.value != 0.0 then callAt.value else s.loop.now + RESTART_INTERVAL_ON_ERROR)
  }

  /** What the loop and the manager look like once the segment is over. */
  function Settle(t: nat, n: Next): State {
    var m := n.state.(log := n.state.log + n.said);
    match n
    case Await(_, point, _) => m.WithTasks(m.loop.tasks[t := Task(point, false)])
    case Leave(_, callAt, _) => Finally(m.WithTasks(m.loop.tasks - {t}), callAt)
    case Guarded(_, _) => m.WithTasks(m.loop.tasks - {t})
  }

  /** The task is handed what it awaited and runs until it awaits again or is done. */
  function Deliver(s: State, t: nat, d: Delivery): State
    requires t in s.loop.tasks
  {
    Settle(t, Segment(s, t, s.loop.tasks[t].at, d))
  }

  // ------------------------------------------------------------------ the consumer

  function Pause(s: State): State {
    CancelRenewals(s).(disarmed := true)
  }

  function Resume(s: State): State {
    Schedule(s, s.loop.now)
  }

  /** `stop` up to its await; what Unsubscribe does afterwards touches no field of the manager. */
  function Stop(s: State): State {
    Pause(s)
  }

  /** `shutdown` up to its await: the flag, task.cancel(), then `stop`. */
  function Shutdown(s: State): State {
    var flagged := s.(shutdown := true);
    Stop(
      if s.renewTask.Some? && s.renewTask.value in s.loop.tasks
      then flagged.WithTasks(s.loop.tasks[s.renewTask.value := s.loop.tasks[s.renewTask.value].(cancelled := true)])
      else flagged)
  }

  /** A manager whose constructor has run. */
  function Constructed(config: Config): State {
    State(config, Loop(0.0, map[], 0, map[], 0), Device("", None, false, {}, 0), false, None, None, None, true, [])
  }

  /** How the `_start` inside start() came out: a subscription at an address and the time to renew
      at, or an exception, after which `_subscription` may or may not have been assigned. */
  datatype StartOutcome =
    | Started(xaddr: string, callAt: real, broken: bool, at: real)
    | StartRaised(xaddr: string, hasService: bool, broken: bool, at: real)

  /** start(), which nothing else interleaves with. */
  function AfterStart(config: Config, o: StartOutcome): State {
    var service := Service(0, o.xaddr);
    var made := Constructed(config);
    var ran := made.(loop := made.loop.(now := o.at), device := Device(o.xaddr, None, o.broken, {}, 0));
    var served := ran.(subscription := Some(service), device := Device(o.xaddr, Some(service), o.broken, {}, 1));
    match o
    case Started(_, callAt, _, _) => Schedule(served, callAt)
    case StartRaised(_, hasService, _, _) => if hasService then served else ran
  }

  // ------------------------------------------------------------------ runs

  /** What happens next. `DetectElsewhere` is another manager of the same camera finding its
      relative times broken. */
  datatype Event =
    | Advance(dt: real)
    | Fire(timer: nat)
    | Resolve(task: nat, delivery: Delivery)
    | ConsumerPause
    | ConsumerResume
    | ConsumerStop
    | ConsumerShutdown
    | CloseSession(service: nat)
    | DetectElsewhere

  /** A timer fires at or after its time; a suspended task resumes with what it can be handed. */
  predicate Enabled(s: State, e: Event) {
    match e
    case Advance(dt) => dt >= 0.0
    case Fire(h) => h in s.loop.timers && s.loop.timers[h] <= s.loop.now
    case Resolve(t, d) => t in s.loop.tasks && Accepts(s.loop.tasks[t], s.loop.now, d)
    case CloseSession(id) => id < s.device.nextService
    case _ => true
  }

  function Step(s: State, e: Event): State
    requires Enabled(s, e)
  {
    match e
    case Advance(dt) => s.(loop := s.loop.(now := s.loop.now + dt))
    case Fire(h) => RunRestartOrRenew(s.WithTimers(s.loop.timers - {h}))
    case Resolve(t, d) => Deliver(s, t, d)
    case ConsumerPause => Pause(s)
    case ConsumerResume => Resume(s)
    case ConsumerStop => Stop(s)
    case ConsumerShutdown => Shutdown(s)
    case CloseSession(id) => s.(device := s.device.(closed := s.device.closed + {id}))
    case DetectElsewhere => s.(device := s.device.(brokenTime := true))
  }

  /** Every event of the run is enabled when its turn comes. */
  predicate Runs(s: State, es: seq<Event>)
    decreases |es|
  {
    es == [] || (Enabled(s, es[0]) && Runs(Step(s, es[0]), es[1..]))
  }

  function Ran(s: State, es: seq<Event>): State
    requires Runs(s, es)
    decreases |es|
  {
    if es == [] then s else Ran(Step(s, es[0]), es[1..])
  }
}

/** The managers as objects that change in place: the fields of BaseManager, and one method for
    each of its methods or, where a method awaits, for the code between two awaits. Every method is
    proved to be the step of the model it stands for, so the results about runs apply to it. */
module Managers {
  import opened Wrappers
  import opened Retry
  import opened ManagerModel

  class EventLoop {
    var now: real
    var timers: map<nat, real>
    var nextTimer: nat
    var tasks: map<nat, Task>
    var nextTask: nat

    constructor ()
      ensures View() == Loop(0.0, map[], 0, map[], 0)
    {
      now, timers, nextTimer, tasks, nextTask := 0.0, map[], 0, map[], 0;
    }

    ghost function View(): Loop
      reads this
    {
      Loop(now, timers, nextTimer, tasks, nextTask)
    }

    /** call_at */
    method CallAt(at: real) returns (handle: nat)
      modifies this
      ensures handle == old(nextTimer)
      ensures View() == old(View()).(timers := old(timers)[handle := at], nextTimer := handle + 1)
    {
      handle := nextTimer;
      timers, nextTimer := timers[handle := at], handle + 1;
    }

    /** TimerHandle.cancel */
    method Cancel(handle: nat)
      modifies this
      ensures View() == old(View()).(timers := old(timers) - {handle})
    {
      timers := timers - {handle};
    }

    /** create_task */
    method CreateTask() returns (t: nat)
      modifies this
      ensures t == old(nextTask)
      ensures View() == old(View()).(tasks := old(tasks)[t := Task(Fresh, false)], nextTask := t + 1)
    {
      t := nextTask;
      tasks, nextTask := tasks[t := Task(Fresh, false)], t + 1;
    }
  }

  /** The part of ONVIFCamera a manager reads and writes. */
  class CameraPart {
    var xaddr: string
    var cached: Option<Service>
    var brokenTime: bool
    var closed: set<nat>
    var nextService: nat

    constructor ()
      ensures View() == Device("", None, false, {}, 0)
    {
      xaddr, cached, brokenTime, closed, nextService := "", None, false, {}, 0;
    }

    ghost function View(): Device
      reads this
    {
      Device(xaddr, cached, brokenTime, closed, nextService)
    }
  }

  class BaseManager {
    const config: Config
    const loop: EventLoop
    const device: CameraPart
    var shutdown: bool
    var subscription: Option<Service>
    var renewTimer: Option<nat>
    var renewTask: Option<nat>
    ghost var disarmed: bool
    ghost var log: seq<Action>

    constructor (config: Config)
      ensures fresh(loop) && fresh(device)
      ensures View() == Constructed(config)
    {
      this.config := config;
      loop := new EventLoop();
      device := new CameraPart();
      shutdown, subscription, renewTimer, renewTask := false, None, None, None;
      disarmed, log := true, [];
    }

    ghost function View(): State
      reads this, loop, device
    {
      State(config, loop.View(), device.View(), shutdown, subscription, renewTimer, renewTask, disarmed, log)
    }

    predicate SessionClosed()
      reads this, device
      ensures SessionClosed() == View().SessionClosed()
    {
      subscription.Some? && subscription.value.id in device.closed
    }

    // ---------------------------------------------------------------- timers

    method CancelRenewals()
      modifies this, loop
      ensures View() == ManagerModel.CancelRenewals(old(View()))
    {
      if renewTimer.Some? {
        loop.Cancel(renewTimer.value);
        renewTimer := None;
      }
    }

    method ScheduleSubscriptionRenew(at: real)
      modifies this, loop
      ensures View() == Schedule(old(View()), at)
    {
      CancelRenewals();
      var handle := loop.CallAt(at);
      renewTimer := Some(handle);
      disarmed := false;
    }

    method RunRestartOrRenew()
      modifies this, loop
      ensures View() == ManagerModel.RunRestartOrRenew(old(View()))
    {
      if renewTask.Some? && renewTask.value in loop.tasks {
        return;
      }
      var t := loop.CreateTask();
      renewTask := Some(t);
    }

    // ---------------------------------------------------------------- the consumer's calls

    method Pause()
      modifies this, loop
      ensures View() == ManagerModel.Pause(old(View()))
    {
      CancelRenewals();
      disarmed := true;
    }

    method Resume()
      modifies this, loop
      ensures View() == ManagerModel.Resume(old(View()))
    {
      ScheduleSubscriptionRenew(loop.now);
    }

    /** Up to the await of Unsubscribe. */
    method Stop()
      modifies this, loop
      ensures View() == ManagerModel.Stop(old(View()))
    {
      Pause();
    }

    /** Up to the await of Unsubscribe. */
    method Shutdown()
      modifies this, loop
      ensures View() == ManagerModel.Shutdown(old(View()))
    {
      shutdown := true;
      if renewTask.Some? && renewTask.value in loop.tasks {
        loop.tasks := loop.tasks[renewTask.value := loop.tasks[renewTask.value].(cancelled := true)];
      }
      Stop();
    }

    /** start(), given how the `_start` it awaits comes out. */
    method Start(o: StartOutcome)
      requires View() == Constructed(config)
      modifies this, loop, device
      ensures View() == AfterStart(config, o)
    {
      loop.now := o.at;
      device.xaddr, device.brokenTime := o.xaddr, o.broken;
      if o.Started? || o.hasService {
        var service := Service(device.nextService, o.xaddr);
        device.nextService, device.cached := device.nextService + 1, Some(service);
        subscription := Some(service);
      }
      if o.Started? {
        ScheduleSubscriptionRenew(o.callAt);
      }
    }

    // ---------------------------------------------------------------- the task body

    /** The task awaits again. */
    method Suspend(t: nat, point: Point, ghost said: seq<Action>)
      modifies this, loop
      ensures View() == Settle(t, Await(old(View()), point, said))
    {
      log := log + said;
      loop.tasks := loop.tasks[t := Task(point, false)];
    }

    /** The finally block of the task, and its end. */
    method Finish(t: nat, callAt: Option<real>, ghost said: seq<Action>)
      modifies this, loop
      ensures View() == Settle(t, Leave(old(View()), callAt, said))
    {
      log := log + said;
      loop.tasks := loop.tasks - {t};
      if !shutdown && !SessionClosed() {
        if callAt.Some? && callAt.value != 0.0 {
          ScheduleSubscriptionRenew(callAt.value);
        } else {
          ScheduleSubscriptionRenew(loop.now + RESTART_INTERVAL_ON_ERROR);
        }
      }
    }

    method PostRenew(t: nat, attempt: nat)
      modifies this, loop
      ensures View() == Settle(t, ManagerModel.PostRenew(old(View()), t, attempt))
    {
      Suspend(t, Renewing(attempt, 0, device.brokenTime), [Posted(t, Renew, device.brokenTime)]);
    }

    method BeginRestart(t: nat, ghost said: seq<Action>)
      modifies this, loop
      ensures View() == Settle(t, ManagerModel.BeginRestart(old(View()), t, said))
    {
      CancelRenewals();
      Suspend(t, OpeningEntry, said + [RestartBegun(t)]);
    }

    method RenewOrRestart(t: nat)
      modifies this, loop
      ensures View() == Settle(t, ManagerModel.Start(old(View()), t))
    {
      if shutdown || SessionClosed() {
        loop.tasks := loop.tasks - {t};
        assert log == log + [];
      } else if subscription.None? {
        BeginRestart(t, []);
      } else {
        PostRenew(t, 0);
      }
    }

    method RenewRaised(t: nat, e: Error)
      modifies this, loop
      ensures View() == Settle(t, ManagerModel.RenewRaised(old(View()), t, e))
    {
      if IsRenewError(e) {
        BeginRestart(t, [RenewEnded(t, Some(e))] + [LostReported(t)]);
      } else {
        Finish(t, None, [RenewEnded(t, Some(e))]);
      }
    }

    method RenewFailed(t: nat, attempt: nat, post: nat, absolute: bool, e: Error)
      modifies this, loop
      ensures View() == Settle(t, ManagerModel.RenewFailed(old(View()), t, attempt, post, absolute, e))
    {
      match AfterFailedPost(attempt, post, e)
      case PostAgain => Suspend(t, RenewYield(attempt, absolute), []);
      case AttemptAgain => Suspend(t, Backoff(loop.now + BACKOFF_TIME), []);
      case Over => RenewRaised(t, e);
    }

    method RenewReplied(t: nat, r: Response)
      modifies this, loop
      ensures View() == Settle(t, ManagerModel.RenewReplied(old(View()), t, r))
    {
      var at := NextRenewalCallAt(config, loop.now, r);
      if at.None? {
        RenewRaised(t, Unlisted);
      } else {
        Finish(t, at, [RenewEnded(t, None)]);
      }
    }

    method CheckBrokenTime(t: nat, granted: Response)
      modifies this, loop, device
      ensures View() == Settle(t, ManagerModel.CheckBrokenTime(old(View()), t, granted))
    {
      if HasBrokenRelativeTime(config.interval, granted) {
        device.brokenTime := true;
        Suspend(t, Rerenewing(0), [BrokenTimeFound, Posted(t, Renew, true)]);
      } else {
        Finish(t, NextRenewalCallAt(config, loop.now, granted), []);
      }
    }

    method Assign(t: nat, granted: Response, service: Service)
      modifies this, loop, device
      ensures View() == Settle(t, ManagerModel.Assign(old(View()), t, granted, service))
    {
      subscription := Some(service);
      if config.kind.PullPoint? {
        Suspend(t, OpeningPuller(granted), []);
      } else {
        CheckBrokenTime(t, granted);
      }
    }

    method OpenNew(t: nat, granted: Response)
      modifies this, loop, device
      ensures View() == Settle(t, ManagerModel.OpenNew(old(View()), granted))
    {
      var service := Service(device.nextService, device.xaddr);
      device.nextService := device.nextService + 1;
      Suspend(t, OpeningNew(granted, service), []);
    }

    method OpenSubscription(t: nat, granted: Response)
      modifies this, loop, device
      ensures View() == Settle(t, ManagerModel.OpenSubscription(old(View()), t, granted))
    {
      if device.xaddr == "" {
        Finish(t, None, []);
      } else if device.cached.None? {
        OpenNew(t, granted);
      } else if device.cached.value.xaddr == device.xaddr {
        Assign(t, granted, device.cached.value);
      } else {
        device.closed := device.closed + {device.cached.value.id};
        Suspend(t, ClosingOld(granted), []);
      }
    }

    method Subscribed(t: nat, granted: Response, address: string)
      modifies this, loop, device
      ensures View() == Settle(t, ManagerModel.Subscribed(old(View()), t, granted, address))
    {
      device.xaddr := address;
      if config.kind.PullPoint? {
        OpenSubscription(t, granted);
      } else {
        Suspend(t, OpeningPuller(granted), []);
      }
    }

    method RaiseAt(t: nat, at: Point, e: Error)
      modifies this, loop
      ensures View() == Settle(t, ManagerModel.RaiseAt(old(View()), t, at, e))
    {
      match at
      case Fresh =>
        loop.tasks := loop.tasks - {t};
        assert log == log + [];
      case Renewing(a, p, absolute) => RenewFailed(t, a, p, absolute, e);
      case RenewYield(_, _) => RenewRaised(t, e);
      case Backoff(_) => RenewRaised(t, e);
      case Subscribing(p, absolute) =>
        if IsDisconnect(e) && p == 0 {
          Suspend(t, SubscribeYield(absolute), []);
        } else {
          Finish(t, None, []);
        }
      case Rerenewing(p) =>
        if IsDisconnect(e) && p == 0 {
          Suspend(t, RerenewYield, []);
        } else {
          Finish(t, None, []);
        }
      case _ => Finish(t, None, []);
    }

    method ReplyAt(t: nat, at: Point, r: Response, address: string)
      modifies this, loop, device
      ensures View() == Settle(t, ManagerModel.ReplyAt(old(View()), t, at, r, address))
    {
      match at
      case Renewing(_, _, _) => RenewReplied(t, r);
      case Subscribing(_, _) => Subscribed(t, r, address);
      case _ => Finish(t, NextRenewalCallAt(config, loop.now, r), []);
    }

    method ProceedAt(t: nat, at: Point)
      modifies this, loop, device
      ensures View() == Settle(t, ManagerModel.ProceedAt(old(View()), t, at))
    {
      match at
      case Fresh => RenewOrRestart(t);
      case RenewYield(a, absolute) => Suspend(t, Renewing(a, 1, absolute), [Posted(t, Renew, absolute)]);
      case Backoff(_) => PostRenew(t, 1);
      case OpeningEntry => Suspend(t, Subscribing(0, device.brokenTime), [Posted(t, Subscribe, device.brokenTime)]);
      case SubscribeYield(absolute) => Suspend(t, Subscribing(1, absolute), [Posted(t, Subscribe, absolute)]);
      case OpeningPuller(r) =>
        if config.kind.PullPoint? {
          CheckBrokenTime(t, r);
        } else {
          OpenSubscription(t, r);
        }
      case ClosingOld(r) =>
        device.cached := None;
        OpenNew(t, r);
      case OpeningNew(r, service) =>
        device.cached := Some(service);
        Assign(t, r, service);
      case _ => Suspend(t, Rerenewing(1), [Posted(t, Renew, true)]);
    }

    /** The loop resumes a task with what it awaited. */
    method Deliver(t: nat, d: Delivery)
      requires t in loop.tasks
      modifies this, loop, device
      ensures View() == ManagerModel.Deliver(old(View()), t, d)
    {
      var at := loop.tasks[t].at;
      match d
      case Failed(e) => RaiseAt(t, at, e);
      case Reply(r, address) => ReplyAt(t, at, r, address);
      case Proceed => ProceedAt(t, at);
    }

    /** One turn of the loop. */
    method Turn(e: Event)
      requires Enabled(View(), e)
      modifies this, loop, device
      ensures View() == Step(old(View()), e)
    {
      match e
      case Advance(dt) => loop.now := loop.now + dt;
      case Fire(h) =>
        loop.timers := loop.timers - {h};
        RunRestartOrRenew();
      case Resolve(t, d) => Deliver(t, d);
      case ConsumerPause => Pause();
      case ConsumerResume => Resume();
      case ConsumerStop => Stop();
      case ConsumerShutdown => Shutdown();
      case CloseSession(id) => device.closed := device.closed + {id};
      case DetectElsewhere => device.brokenTime := true;
    }

    /** The loop turning through a whole run. */
    method Play(es: seq<Event>)
      requires Runs(View(), es)
      modifies this, loop, device
      ensures View() == Ran(old(View()), es)
    {
      for i := 0 to |es|
        invariant Runs(View(), es[i..]) && Ran(View(), es[i..]) == Ran(old(View()), es)
      {
        assert es[i..][1..] == es[i + 1..];
        Turn(es[i]);
      }
    }
  }
}

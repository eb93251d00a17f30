/** How often the renewal loop starts a task, and how many requests those tasks can post. */
module ManagerRate {
  import opened Wrappers
  import opened Retry
  import opened ManagerModel
  import opened ManagerInvariants

  // ------------------------------------------------------------------ how often tasks start

  /** Delivering to a task creates no task; a timer it leaves was there before or is 40 s ahead. */
  lemma DeliverArms(s: State, t: nat, d: Delivery)
    requires Inv(s) && t in s.loop.tasks
    ensures var after := Deliver(s, t, d).loop;
            && after.now == s.loop.now && after.nextTask == s.loop.nextTask
            && (forall h :: h in after.timers ==>
                  || (h in s.loop.timers && after.timers[h] == s.loop.timers[h])
                  || after.timers[h] >= s.loop.now + RESTART_INTERVAL_ON_ERROR)
  {
    var at := s.loop.tasks[t].at;
    DeliverResult(s, t, d);
    SegmentFrame(s, t, at, d);
    var n := Segment(s, t, at, d);
    if n.Leave? {
      FinallyArms(n.state.(log := s.log + n.said).WithTasks(n.state.loop.tasks - {t}), n.callAt);
    }
  }

  function Resumes(es: seq<Event>): nat {
    if es == [] then 0 else (if es[0].ConsumerResume? then 1 else 0) + Resumes(es[1..])
  }

  /** `started` tasks since `origin`, `resumed` resume() calls since then: each task after the
      first that no resume() accounts for took 40 s, and so will the next. */
  ghost predicate Spaced(s: State, origin: real, started: int, resumed: int) {
    && origin <= s.loop.now
    && (started >= 1 ==>
          && s.loop.now >= origin + 40.0 * (started - 1 - resumed) as real
          && forall h :: h in s.loop.timers ==> s.loop.timers[h] >= origin + 40.0 * (started - resumed) as real)
  }

  lemma StepSpaces(s: State, e: Event, origin: real, started: int, resumed: int)
    requires Inv(s) && Enabled(s, e) && started >= 0 && resumed >= 0 && Spaced(s, origin, started, resumed)
    ensures var n := Step(s, e);
            && n.loop.nextTask >= s.loop.nextTask
            && Spaced(n, origin, started + n.loop.nextTask - s.loop.nextTask, resumed + Resumes([e]))
  {
    assert Resumes([e]) == if e.ConsumerResume? then 1 else 0;
    match e
    case Fire(h) => assert Step(s, e).loop.timers == map[];
    case Resolve(t, d) => DeliverArms(s, t, d);
    case ConsumerResume => ScheduleArms(s, s.loop.now);
    case _ =>
  }

  lemma {:induction false} RunSpaces(s: State, es: seq<Event>, origin: real, started: int, resumed: int)
    requires Inv(s) && Runs(s, es) && started >= 0 && resumed >= 0 && Spaced(s, origin, started, resumed)
    ensures var n := Ran(s, es);
            && n.loop.nextTask >= s.loop.nextTask
            && Spaced(n, origin, started + n.loop.nextTask - s.loop.nextTask, resumed + Resumes(es))
    decreases |es|
  {
    if es != [] {
      var n := Step(s, es[0]);
      StepKeeps(s, es[0]);
      StepSpaces(s, es[0], origin, started, resumed);
      assert Resumes(es) == Resumes([es[0]]) + Resumes(es[1..]);
      RunSpaces(n, es[1..], origin, started + n.loop.nextTask - s.loop.nextTask, resumed + Resumes([es[0]]));
    }
  }

  /** Over any stretch of any run that lasts T seconds, at most floor(T/40) + 1 renew/restart tasks
      are created, plus one for each resume() in it. */
  lemma TaskRateBound(s: State, es: seq<Event>)
    requires Inv(s) && Runs(s, es)
    ensures var n := Ran(s, es);
            n.loop.nextTask - s.loop.nextTask <= ((n.loop.now - s.loop.now) / 40.0).Floor + 1 + Resumes(es)
  {
    RunSpaces(s, es, s.loop.now, 0, 0);
    var n := Ran(s, es);
    var k := n.loop.nextTask - s.loop.nextTask;
    var elapsed := n.loop.now - s.loop.now;
    if k >= 1 {
      assert 40.0 * (k - 1 - Resumes(es)) as real <= elapsed;
      FloorAtLeast(elapsed / 40.0, k - 1 - Resumes(es));
    } else {
      FloorAtLeast(elapsed / 40.0, 0);
    }
  }

  lemma FloorAtLeast(x: real, k: int)
    requires x >= k as real
    ensures x.Floor >= k
  {
  }

  /** Without resume() in between, two task creations are at least 40 s apart, whatever the camera
      answers and whatever fails. */
  lemma TasksStartFortySecondsApart(s: State, first: Event, es: seq<Event>, second: Event)
    requires Inv(s) && Enabled(s, first) && Runs(Step(s, first), es) && Enabled(Ran(Step(s, first), es), second)
    requires Step(s, first).loop.nextTask > s.loop.nextTask
    requires var later := Ran(Step(s, first), es); Step(later, second).loop.nextTask > later.loop.nextTask
    requires Resumes([first] + es + [second]) == 0
    ensures Step(Ran(Step(s, first), es), second).loop.now - s.loop.now >= 40.0
  {
    ResumesConcat([first] + es, [second]);
    ResumesConcat([first], es);
    StepKeeps(s, first);
    StepSpaces(s, first, s.loop.now, 0, 0);
    var started := Step(s, first).loop.nextTask - s.loop.nextTask;
    RunSpaces(Step(s, first), es, s.loop.now, started, 0);
    RunKeeps(Step(s, first), es);
    var later := Ran(Step(s, first), es);
    StepSpaces(later, second, s.loop.now, later.loop.nextTask - s.loop.nextTask, 0);
  }

  /** The timer is due, and nothing keeps the task it starts from running. */
  ghost predicate Due(s: State) {
    && !s.shutdown && s.subscription.Some? && !s.SessionClosed()
    && s.loop.tasks == map[] && s.renewTimer.Some? && s.loop.timers == map[s.renewTimer.value := s.loop.now]
    && s.renewTimer.value < s.loop.nextTimer && (s.renewTask.Some? ==> s.renewTask.value < s.loop.nextTask)
  }

  /** Renew and restart both fail at once; 40 s later the timer is due again. */
  function FailedRound(s: State): seq<Event>
    requires s.renewTimer.Some?
  {
    var t := s.loop.nextTask;
    [Fire(s.renewTimer.value), Resolve(t, Proceed), Resolve(t, Failed(Fault)), Resolve(t, Failed(Fault)), Advance(40.0)]
  }

  /** The round's task is suspended here, the timer fired. */
  function InRound(s: State, at: Point, said: seq<Action>): State {
    var t := s.loop.nextTask;
    s.(loop := s.loop.(timers := map[], tasks := map[t := Task(at, false)], nextTask := t + 1),
       renewTask := Some(t), log := s.log + said)
  }

  lemma RoundBegins(s: State)
    requires Due(s)
    ensures Step(s, Fire(s.renewTimer.value)) == InRound(s, Fresh, [])
  {
    assert s.loop.timers - {s.renewTimer.value} == map[];
    assert s.log + [] == s.log;
  }

  lemma RoundRenews(s: State)
    requires Due(s)
    ensures Step(InRound(s, Fresh, []), Resolve(s.loop.nextTask, Proceed))
         == InRound(s, Renewing(0, 0, s.device.brokenTime), [Posted(s.loop.nextTask, Renew, s.device.brokenTime)])
  {
    var t := s.loop.nextTask;
    var renewing := Task(Renewing(0, 0, s.device.brokenTime), false);
    assert map[t := Task(Fresh, false)][t := renewing] == map[t := renewing];
    assert s.log + [] == s.log;
  }

  lemma RoundRestarts(s: State, said: seq<Action>)
    requires Due(s)
    ensures var t := s.loop.nextTask;
            var n := Step(InRound(s, Renewing(0, 0, s.device.brokenTime), said), Resolve(t, Failed(Fault)));
            && n.loop == InRound(s, OpeningEntry, said).loop && n.renewTimer == None
            && n.shutdown == s.shutdown && n.device == s.device && n.subscription == s.subscription
            && n.renewTask == Some(t)
  {
    var t := s.loop.nextTask;
    var renewing, opening := Task(Renewing(0, 0, s.device.brokenTime), false), Task(OpeningEntry, false);
    assert map[t := renewing][t := opening] == map[t := opening];
    var none: map<nat, real> := map[];
    assert none - {s.renewTimer.value} == none;
  }

  lemma RoundEnds(s: State, n: State)
    requires Due(s) && n.loop == InRound(s, OpeningEntry, []).loop && n.renewTimer == None
    requires n.shutdown == s.shutdown && n.device == s.device && n.subscription == s.subscription
    requires n.renewTask == Some(s.loop.nextTask)
    ensures var m := Step(Step(n, Resolve(s.loop.nextTask, Failed(Fault))), Advance(40.0));
            Due(m) && m.loop.nextTask == s.loop.nextTask + 1 && m.loop.now == s.loop.now + 40.0
  {
    assert n.loop.tasks - {s.loop.nextTask} == map[];
  }

  lemma FailedRoundRuns(s: State)
    requires Due(s)
    ensures Runs(s, FailedRound(s))
    ensures var n := Ran(s, FailedRound(s));
            Due(n) && n.loop.nextTask == s.loop.nextTask + 1 && n.loop.now == s.loop.now + 40.0
  {
    var es := FailedRound(s);
    var said := [Posted(s.loop.nextTask, Renew, s.device.brokenTime)];
    RoundBegins(s);
    RoundRenews(s);
    RoundRestarts(s, said);
    var s3 := Step(InRound(s, Renewing(0, 0, s.device.brokenTime), said), es[2]);
    RoundEnds(s, s3);
    RunOne(Step(s3, es[3]), es[4], []);
    RunOne(s3, es[3], [es[4]]);
    RunOne(InRound(s, Renewing(0, 0, s.device.brokenTime), said), es[2], [es[3], es[4]]);
    RunOne(InRound(s, Fresh, []), es[1], [es[2], es[3], es[4]]);
    RunOne(s, es[0], [es[1], es[2], es[3], es[4]]);
  }

  /** Without resume(), the run creates k+1 tasks in 40k seconds. */
  ghost predicate StartsTasks(s: State, es: seq<Event>, k: nat) {
    && Runs(s, es) && Resumes(es) == 0
    && Ran(s, es).loop.nextTask == s.loop.nextTask + k + 1 && Ran(s, es).loop.now == s.loop.now + 40.0 * k as real
  }

  lemma {:induction false} FailedRoundsRun(s: State, k: nat)
    requires Due(s)
    ensures exists es :: StartsTasks(s, es, k)
    decreases k
  {
    if k == 0 {
      RunOne(s, Fire(s.renewTimer.value), []);
      var es := [Fire(s.renewTimer.value)] + [];
      assert StartsTasks(s, es, k);
    } else {
      FailedRoundRuns(s);
      var round := FailedRound(s);
      var n := Ran(s, round);
      FailedRoundsRun(n, k - 1);
      var rest :| StartsTasks(n, rest, k - 1);
      RunsConcat(s, round, rest);
      ResumesConcat(round, rest);
      NoResumes(round);
      assert StartsTasks(s, round + rest, k);
    }
  }

  lemma {:induction false} NoResumes(es: seq<Event>)
    requires forall e :: e in es ==> !e.ConsumerResume?
    ensures Resumes(es) == 0
    decreases |es|
  {
    if es != [] {
      NoResumes(es[1..]);
    }
  }

  /** The bound on tasks is the best there is: with a camera that refuses everything, 40k seconds
      see k+1 tasks, for every k. */
  lemma TaskRateIsReached(config: Config, k: nat)
    ensures var s := Step(AfterStart(config, Started("a", 48.0, false, 0.0)), Advance(48.0));
            exists es :: StartsTasks(s, es, k)
  {
    var s := Step(AfterStart(config, Started("a", 48.0, false, 0.0)), Advance(48.0));
    assert s.loop.timers == map[0 := 48.0];
    FailedRoundsRun(s, k);
  }

  lemma {:induction false} ResumesConcat(a: seq<Event>, b: seq<Event>)
    ensures Resumes(a + b) == Resumes(a) + Resumes(b)
    decreases |a|
  {
    if a == [] {
      assert a + b == b;
    } else {
      assert (a + b)[1..] == a[1..] + b;
      ResumesConcat(a[1..], b);
    }
  }

  // ------------------------------------------------------------------ how many requests they post

  /** Whether an action is a post, of the given task if one is given. */
  function Weight(a: Action, who: Option<nat>): nat {
    if a.Posted? && (who.None? || who.value == a.task) then 1 else 0
  }

  /** Posts of one task, or of all. */
  function Posts(log: seq<Action>, who: Option<nat>): nat {
    if log == [] then 0 else Weight(log[0], who) + Posts(log[1..], who)
  }

  lemma {:induction false} PostsConcat(a: seq<Action>, b: seq<Action>, who: Option<nat>)
    ensures Posts(a + b, who) == Posts(a, who) + Posts(b, who)
    decreases |a|
  {
    if a == [] {
      assert a + b == b;
    } else {
      assert (a + b)[1..] == a[1..] + b;
      PostsConcat(a[1..], b, who);
    }
  }

  /** The retries never go past their second attempt. */
  predicate WellPlaced(at: Point) {
    match at
    case Renewing(a, p, _) => a < 2 && p < 2
    case RenewYield(a, _) => a < 2
    case Subscribing(p, _) => p < 2
    case Rerenewing(p) => p < 2
    case _ => true
  }

  /** The posts a task suspended here may still make. */
  function Remaining(at: Point): nat
    requires WellPlaced(at)
  {
    match at
    case Fresh => 8
    case Renewing(a, p, _) => 4 + 2 * (1 - a) + (1 - p)
    case RenewYield(a, _) => 5 + 2 * (1 - a)
    case Backoff(_) => 6
    case OpeningEntry => 4
    case Subscribing(p, _) => 2 + (1 - p)
    case SubscribeYield(_) => 3
    case OpeningPuller(_) => 2
    case ClosingOld(_) => 2
    case OpeningNew(_, _) => 2
    case Rerenewing(p) => 1 - p
    case RerenewYield => 1
  }

  /** Going on from here leaves room within the budget, and only `t` posts. */
  ghost predicate Within(n: Next, t: nat, budget: nat) {
    && (n.Await? ==> WellPlaced(n.point))
    && Posts(n.said, None) + (if n.Await? then Remaining(n.point) else 0) <= budget
    && (forall i :: 0 <= i < |n.said| && n.said[i].Posted? ==> n.said[i].task == t)
  }

  lemma RenewRaisedWithin(s: State, t: nat, e: Error)
    ensures Within(RenewRaised(s, t, e), t, 4)
  {
    if IsRenewError(e) {
      assert RenewRaised(s, t, e).said == [RenewEnded(t, Some(e))] + [LostReported(t)] + [RestartBegun(t)];
      PostsConcat([RenewEnded(t, Some(e))] + [LostReported(t)], [RestartBegun(t)], None);
      PostsConcat([RenewEnded(t, Some(e))], [LostReported(t)], None);
    }
  }

  lemma CheckBrokenTimeWithin(s: State, t: nat, granted: Response)
    ensures Within(CheckBrokenTime(s, t, granted), t, 2)
  {
    assert [BrokenTimeFound] + [Posted(t, Renew, true)] == [BrokenTimeFound, Posted(t, Renew, true)];
    PostsConcat([BrokenTimeFound], [Posted(t, Renew, true)], None);
  }

  lemma OpenSubscriptionWithin(s: State, t: nat, granted: Response)
    ensures Within(OpenSubscription(s, t, granted), t, 2)
  {
    if s.device.cached.Some? {
      CheckBrokenTimeWithin(s.(subscription := Some(s.device.cached.value)), t, granted);
    }
  }

  lemma RaiseWithin(s: State, t: nat, at: Point, e: Error)
    requires WellPlaced(at)
    ensures Within(RaiseAt(s, t, at, e), t, Remaining(at))
  {
    RenewRaisedWithin(s, t, e);
  }

  lemma ReplyWithin(s: State, t: nat, at: Point, r: Response, address: string)
    requires WellPlaced(at) && (at.Renewing? || at.Subscribing? || at.Rerenewing?)
    ensures Within(ReplyAt(s, t, at, r, address), t, Remaining(at))
  {
  }

  lemma ProceedWithin(s: State, t: nat, at: Point)
    requires WellPlaced(at) && !(at.Renewing? || at.Subscribing? || at.Rerenewing?)
    ensures Within(ProceedAt(s, t, at), t, Remaining(at))
  {
    match at
    case Fresh =>
      assert [] + [RestartBegun(t)] == [RestartBegun(t)];
    case OpeningPuller(r) =>
      CheckBrokenTimeWithin(s, t, r);
      OpenSubscriptionWithin(s, t, r);
    case OpeningNew(r, service) =>
      CheckBrokenTimeWithin(s.(device := s.device.(cached := Some(service)), subscription := Some(service)), t, r);
    case _ =>
  }

  /** A segment posts no more than it uses up of what its task may still post. */
  lemma SegmentWithin(s: State, t: nat, d: Delivery)
    requires t in s.loop.tasks && Accepts(s.loop.tasks[t], s.loop.now, d) && WellPlaced(s.loop.tasks[t].at)
    ensures var at := s.loop.tasks[t].at; Within(Segment(s, t, at, d), t, Remaining(at))
  {
    var at := s.loop.tasks[t].at;
    match d
    case Failed(e) => RaiseWithin(s, t, at, e);
    case Reply(r, address) => ReplyWithin(s, t, at, r, address);
    case Proceed => ProceedWithin(s, t, at);
  }

  /** What the task not done may still post. */
  ghost function Owed(s: State): nat
    requires Placed(s)
  {
    if s.renewTask.Some? && s.renewTask.value in s.loop.tasks then Remaining(s.loop.tasks[s.renewTask.value].at) else 0
  }

  ghost predicate Placed(s: State) {
    forall t :: t in s.loop.tasks ==> WellPlaced(s.loop.tasks[t].at)
  }

  /** No task has posted, or can still post, more than eight requests. */
  ghost predicate Budgeted(s: State) {
    && Placed(s)
    && (forall t: nat {:trigger Posts(s.log, Some(t))} ::
          && (t in s.loop.tasks ==> Posts(s.log, Some(t)) + Remaining(s.loop.tasks[t].at) <= 8)
          && Posts(s.log, Some(t)) <= 8
          && (t >= s.loop.nextTask ==> Posts(s.log, Some(t)) == 0))
  }

  lemma {:induction false} PostsOfOne(said: seq<Action>, t: nat, u: nat)
    requires forall i :: 0 <= i < |said| && said[i].Posted? ==> said[i].task == t
    ensures Posts(said, Some(u)) == if u == t then Posts(said, None) else 0
    decreases |said|
  {
    if said != [] {
      PostsOfOne(said[1..], t, u);
    }
  }

  lemma DeliverBudget(s: State, t: nat, d: Delivery)
    requires Inv(s) && Budgeted(s) && t in s.loop.tasks && Accepts(s.loop.tasks[t], s.loop.now, d)
    ensures var after := Deliver(s, t, d);
            && Budgeted(after)
            && Posts(after.log, None) + Owed(after) <= Posts(s.log, None) + Owed(s)
  {
    var at := s.loop.tasks[t].at;
    DeliverResult(s, t, d);
    SegmentWithin(s, t, d);
    var n := Segment(s, t, at, d);
    var after := Deliver(s, t, d);
    PostsConcat(s.log, n.said, None);
    forall u: nat
      ensures Posts(after.log, Some(u)) == Posts(s.log, Some(u)) + if u == t then Posts(n.said, None) else 0
    {
      PostsConcat(s.log, n.said, Some(u));
      PostsOfOne(n.said, t, u);
    }
    assert Posts(s.log, Some(t)) + Remaining(at) <= 8;
  }

  lemma StepBudget(s: State, e: Event)
    requires Inv(s) && Budgeted(s) && Enabled(s, e)
    ensures var n := Step(s, e);
            && Budgeted(n)
            && Posts(n.log, None) + Owed(n) <= Posts(s.log, None) + Owed(s) + 8 * (n.loop.nextTask - s.loop.nextTask)
  {
    match e
    case Resolve(t, d) =>
      DeliverBudget(s, t, d);
      DeliverResult(s, t, d);
    case _ =>
      OtherStepsAreSilent(s, e);
  }

  lemma {:induction false} RunBudget(s: State, es: seq<Event>)
    requires Inv(s) && Budgeted(s) && Runs(s, es)
    ensures var n := Ran(s, es);
            && Budgeted(n)
            && Posts(n.log, None) + Owed(n) <= Posts(s.log, None) + Owed(s) + 8 * (n.loop.nextTask - s.loop.nextTask)
    decreases |es|
  {
    if es != [] {
      StepKeeps(s, es[0]);
      StepBudget(s, es[0]);
      RunBudget(Step(s, es[0]), es[1..]);
    }
  }

  /** After start(), no renew/restart task ever posts more than eight requests. */
  lemma EightPostsPerTask(config: Config, o: StartOutcome, es: seq<Event>, t: nat)
    requires Runs(AfterStart(config, o), es)
    ensures Posts(Ran(AfterStart(config, o), es).log, Some(t)) <= 8
  {
    StartEstablishes(config, o);
    RunBudget(AfterStart(config, o), es);
  }

  /** Over any stretch of a run that lasts T seconds, at most 8 * (floor(T/40) + 2) requests are
      posted, plus eight for each resume() in it, whatever the camera answers. */
  lemma RequestRateBound(config: Config, o: StartOutcome, before: seq<Event>, es: seq<Event>)
    requires Runs(AfterStart(config, o), before) && Runs(Ran(AfterStart(config, o), before), es)
    ensures var s := Ran(AfterStart(config, o), before);
            var n := Ran(s, es);
            Posts(n.log, None) - Posts(s.log, None)
            <= 8 * (((n.loop.now - s.loop.now) / 40.0).Floor + 2 + Resumes(es))
  {
    StartEstablishes(config, o);
    RunKeeps(AfterStart(config, o), before);
    RunBudget(AfterStart(config, o), before);
    var s := Ran(AfterStart(config, o), before);
    TaskRateBound(s, es);
    RunBudget(s, es);
    if s.renewTask.Some? && s.renewTask.value in s.loop.tasks {
      assert Posts(s.log, Some(s.renewTask.value)) >= 0;
    }
  }
}

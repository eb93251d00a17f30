/** Which form of termination time the requests of a manager carry: relative until its camera is
    known to mishandle relative times, absolute from then on. */
module ManagerForms {
  import opened Wrappers
  import opened Retry
  import opened ManagerModel
  import opened ManagerInvariants
  import opened ManagerHistory

  // ------------------------------------------------------------------ requests under way

  /** The task has an absolute request under way, or has seen that it needs them. */
  predicate Absolute(at: Point) {
    match at
    case Renewing(_, _, absolute) => absolute
    case RenewYield(_, absolute) => absolute
    case Subscribing(_, absolute) => absolute
    case SubscribeYield(absolute) => absolute
    case Rerenewing(_) => true
    case RerenewYield => true
    case _ => false
  }

  /** The request under way was built relative and may be posted a second time. */
  predicate Stale(at: Point) {
    match at
    case Renewing(_, post, absolute) => post == 0 && !absolute
    case RenewYield(_, absolute) => !absolute
    case Subscribing(post, absolute) => post == 0 && !absolute
    case SubscribeYield(absolute) => !absolute
    case _ => false
  }

  /** The form of the request under way is the one it would be built with now. */
  predicate UpToDate(at: Point, broken: bool) {
    match at
    case Renewing(_, _, absolute) => absolute == broken
    case RenewYield(_, absolute) => absolute == broken
    case Subscribing(_, absolute) => absolute == broken
    case SubscribeYield(absolute) => absolute == broken
    case Rerenewing(_) => broken
    case RerenewYield => broken
    case _ => true
  }

  predicate IsRelativePost(a: Action) {
    a.Posted? && !a.absolute
  }

  predicate IsAbsolutePost(a: Action) {
    a.Posted? && a.absolute
  }

  /** Requests that may yet be posted in a form that is out of date. */
  function StaleRequests(s: State): nat {
    if s.renewTask.Some? && s.renewTask.value in s.loop.tasks && Stale(s.loop.tasks[s.renewTask.value].at) then 1 else 0
  }

  lemma {:induction false} CountConcat(a: seq<Action>, b: seq<Action>, what: Action -> bool)
    ensures Count(a + b, what) == Count(a, what) + Count(b, what)
    decreases |a|
  {
    if a == [] {
      assert a + b == b;
    } else {
      assert (a + b)[1..] == a[1..] + b;
      CountConcat(a[1..], b, what);
    }
  }

  // ------------------------------------------------------------------ once relative times are known to be broken

  /** Going on from here posts relatively at most what was stale. */
  ghost predicate UsesUp(n: Next, stale: bool) {
    && n.state.device.brokenTime
    && Count(n.said, IsRelativePost) + (if n.Await? && Stale(n.point) then 1 else 0) <= if stale then 1 else 0
  }

  lemma RenewRaisedUsesUp(s: State, t: nat, e: Error)
    requires s.device.brokenTime
    ensures UsesUp(RenewRaised(s, t, e), false)
  {
    if IsRenewError(e) {
      var said := [RenewEnded(t, Some(e))] + [LostReported(t)];
      CountConcat([RenewEnded(t, Some(e))], [LostReported(t)], IsRelativePost);
      CountConcat(said, [RestartBegun(t)], IsRelativePost);
    }
  }

  lemma CheckBrokenTimeUsesUp(s: State, t: nat, granted: Response)
    requires s.device.brokenTime
    ensures UsesUp(CheckBrokenTime(s, t, granted), false)
  {
    assert [BrokenTimeFound] + [Posted(t, Renew, true)] == [BrokenTimeFound, Posted(t, Renew, true)];
    CountConcat([BrokenTimeFound], [Posted(t, Renew, true)], IsRelativePost);
  }

  lemma OpenSubscriptionUsesUp(s: State, t: nat, granted: Response)
    requires s.device.brokenTime
    ensures UsesUp(OpenSubscription(s, t, granted), false)
  {
    if s.device.cached.Some? {
      CheckBrokenTimeUsesUp(s.(subscription := Some(s.device.cached.value)), t, granted);
    }
  }

  lemma RaiseUsesUp(s: State, t: nat, at: Point, e: Error)
    requires s.device.brokenTime
    ensures UsesUp(RaiseAt(s, t, at, e), Stale(at))
  {
    RenewRaisedUsesUp(s, t, e);
  }

  lemma ReplyUsesUp(s: State, t: nat, at: Point, r: Response, address: string)
    requires s.device.brokenTime
    ensures UsesUp(ReplyAt(s, t, at, r, address), Stale(at))
  {
    RenewRaisedUsesUp(s, t, Unlisted);
    OpenSubscriptionUsesUp(s.(device := s.device.(xaddr := address)), t, r);
  }

  lemma ProceedUsesUp(s: State, t: nat, at: Point)
    requires s.device.brokenTime && !(at.Renewing? || at.Subscribing? || at.Rerenewing?)
    ensures UsesUp(ProceedAt(s, t, at), Stale(at))
  {
    match at
    case Fresh =>
      assert [] + [RestartBegun(t)] == [RestartBegun(t)];
    case OpeningPuller(r) =>
      CheckBrokenTimeUsesUp(s, t, r);
      OpenSubscriptionUsesUp(s, t, r);
    case OpeningNew(r, service) =>
      CheckBrokenTimeUsesUp(s.(device := s.device.(cached := Some(service)), subscription := Some(service)), t, r);
    case _ =>
  }

  lemma SegmentUsesUp(s: State, t: nat, d: Delivery)
    requires t in s.loop.tasks && Accepts(s.loop.tasks[t], s.loop.now, d) && s.device.brokenTime
    ensures var at := s.loop.tasks[t].at; UsesUp(Segment(s, t, at, d), Stale(at))
  {
    var at := s.loop.tasks[t].at;
    match d
    case Failed(e) => RaiseUsesUp(s, t, at, e);
    case Reply(r, address) => ReplyUsesUp(s, t, at, r, address);
    case Proceed => ProceedUsesUp(s, t, at);
  }

  lemma StepUsesUp(s: State, e: Event)
    requires Inv(s) && Enabled(s, e) && s.device.brokenTime
    ensures var n := Step(s, e);
            && n.device.brokenTime
            && Count(n.log, IsRelativePost) + StaleRequests(n) <= Count(s.log, IsRelativePost) + StaleRequests(s)
  {
    if e.Resolve? {
      DeliverResult(s, e.task, e.delivery);
      SegmentUsesUp(s, e.task, e.delivery);
      CountConcat(s.log, Segment(s, e.task, s.loop.tasks[e.task].at, e.delivery).said, IsRelativePost);
    } else {
      OtherStepsAreSilent(s, e);
    }
  }

  lemma {:induction false} RunUsesUp(s: State, es: seq<Event>)
    requires Inv(s) && Runs(s, es) && s.device.brokenTime
    ensures var n := Ran(s, es);
            && n.device.brokenTime
            && Count(n.log, IsRelativePost) + StaleRequests(n) <= Count(s.log, IsRelativePost) + StaleRequests(s)
    decreases |es|
  {
    if es != [] {
      StepKeeps(s, es[0]);
      StepUsesUp(s, es[0]);
      RunUsesUp(Step(s, es[0]), es[1..]);
    }
  }

  /** Once relative times are known to be broken, whoever found out, it stays known, and every Renew
      and subscribe request built from then on carries an absolute time, the extra Renew inside
      `_start` included: the only relative one that can still be posted is the second post of one
      that was built before and is under way, if there is one. */
  lemma AbsoluteTimesAreSticky(config: Config, o: StartOutcome, before: seq<Event>, es: seq<Event>)
    requires Runs(AfterStart(config, o), before) && Ran(AfterStart(config, o), before).device.brokenTime
    requires Runs(Ran(AfterStart(config, o), before), es)
    ensures var s := Ran(AfterStart(config, o), before);
            var n := Ran(s, es);
            && n.device.brokenTime
            && Count(n.log, IsRelativePost) - Count(s.log, IsRelativePost) <= StaleRequests(s)
  {
    StartEstablishes(config, o);
    RunKeeps(AfterStart(config, o), before);
    RunUsesUp(Ran(AfterStart(config, o), before), es);
  }

  lemma ProceedDetects(s: State, t: nat, at: Point)
    requires BrokenTimeFound in ProceedAt(s, t, at).said
    ensures ProceedAt(s, t, at).Await? && ProceedAt(s, t, at).point.Rerenewing?
  {
  }

  /** When this manager itself finds it out, nothing stale is under way: from then on every request
      it posts is absolute. */
  lemma OwnDetectionLeavesNothingStale(s: State, e: Event)
    requires Inv(s) && Enabled(s, e)
    requires exists i :: |s.log| <= i < |Step(s, e).log| && Step(s, e).log[i] == BrokenTimeFound
    ensures Step(s, e).device.brokenTime && StaleRequests(Step(s, e)) == 0
  {
    if !e.Resolve? {
      OtherStepsAreSilent(s, e);
    } else {
      var at := s.loop.tasks[e.task].at;
      var n := Segment(s, e.task, at, e.delivery);
      DeliverResult(s, e.task, e.delivery);
      SegmentSpeaks(s, e.task, e.delivery);
      var i :| |s.log| <= i < |Step(s, e).log| && Step(s, e).log[i] == BrokenTimeFound;
      assert n.said[i - |s.log|] == BrokenTimeFound;
      DetectionAwaits(s, e.task, at, e.delivery);
    }
  }

  lemma DetectionAwaits(s: State, t: nat, at: Point, d: Delivery)
    requires BrokenTimeFound in Segment(s, t, at, d).said
    ensures Segment(s, t, at, d).Await? && Segment(s, t, at, d).point.Rerenewing?
  {
    match d
    case Failed(e) =>
    case Reply(r, address) =>
    case Proceed => ProceedDetects(s, t, at);
  }

  // ------------------------------------------------------------------ until then

  /** As long as nothing is known, no request is or was absolute. */
  ghost predicate Unsuspecting(s: State) {
    !s.device.brokenTime ==>
      && (forall i :: 0 <= i < |s.log| ==> !IsAbsolutePost(s.log[i]))
      && (forall t :: t in s.loop.tasks ==> !Absolute(s.loop.tasks[t].at))
  }

  ghost predicate SaysNothingAbsolute(n: Next) {
    !n.state.device.brokenTime ==>
      && (forall i :: 0 <= i < |n.said| ==> !IsAbsolutePost(n.said[i]))
      && (n.Await? ==> !Absolute(n.point))
  }

  lemma CheckBrokenTimeSaysNothingAbsolute(s: State, t: nat, granted: Response)
    ensures var n := CheckBrokenTime(s, t, granted);
            SaysNothingAbsolute(n) && (s.device.brokenTime ==> n.state.device.brokenTime)
  {
  }

  lemma OpenSubscriptionSaysNothingAbsolute(s: State, t: nat, granted: Response)
    ensures var n := OpenSubscription(s, t, granted);
            SaysNothingAbsolute(n) && (s.device.brokenTime ==> n.state.device.brokenTime)
  {
    if s.device.cached.Some? {
      CheckBrokenTimeSaysNothingAbsolute(s.(subscription := Some(s.device.cached.value)), t, granted);
    }
  }

  lemma ProceedSaysNothingAbsolute(s: State, t: nat, at: Point)
    requires !(at.Renewing? || at.Subscribing? || at.Rerenewing?) && (!s.device.brokenTime ==> !Absolute(at))
    ensures var n := ProceedAt(s, t, at);
            SaysNothingAbsolute(n) && (s.device.brokenTime ==> n.state.device.brokenTime)
  {
    match at
    case OpeningPuller(r) =>
      CheckBrokenTimeSaysNothingAbsolute(s, t, r);
      OpenSubscriptionSaysNothingAbsolute(s, t, r);
    case OpeningNew(r, service) =>
      CheckBrokenTimeSaysNothingAbsolute(s.(device := s.device.(cached := Some(service)), subscription := Some(service)), t, r);
    case _ =>
  }

  lemma RaiseSaysNothingAbsolute(s: State, t: nat, at: Point, e: Error)
    requires !s.device.brokenTime ==> !Absolute(at)
    ensures var n := RaiseAt(s, t, at, e);
            SaysNothingAbsolute(n) && (s.device.brokenTime ==> n.state.device.brokenTime)
  {
  }

  lemma SegmentSaysNothingAbsolute(s: State, t: nat, d: Delivery)
    requires t in s.loop.tasks && Accepts(s.loop.tasks[t], s.loop.now, d)
    requires !s.device.brokenTime ==> !Absolute(s.loop.tasks[t].at)
    ensures var n := Segment(s, t, s.loop.tasks[t].at, d);
            SaysNothingAbsolute(n) && (s.device.brokenTime ==> n.state.device.brokenTime)
  {
    var at := s.loop.tasks[t].at;
    match d
    case Failed(e) => RaiseSaysNothingAbsolute(s, t, at, e);
    case Reply(r, address) => OpenSubscriptionSaysNothingAbsolute(s.(device := s.device.(xaddr := address)), t, r);
    case Proceed => ProceedSaysNothingAbsolute(s, t, at);
  }

  lemma StepStaysUnsuspecting(s: State, e: Event)
    requires Inv(s) && Enabled(s, e) && Unsuspecting(s)
    ensures Unsuspecting(Step(s, e))
  {
    if e.Resolve? {
      DeliverResult(s, e.task, e.delivery);
      SegmentSaysNothingAbsolute(s, e.task, e.delivery);
    } else {
      OtherStepsAreSilent(s, e);
    }
  }

  lemma {:induction false} RunStaysUnsuspecting(s: State, es: seq<Event>)
    requires Inv(s) && Runs(s, es) && Unsuspecting(s)
    ensures Unsuspecting(Ran(s, es))
    decreases |es|
  {
    if es != [] {
      StepKeeps(s, es[0]);
      StepStaysUnsuspecting(s, es[0]);
      RunStaysUnsuspecting(Step(s, es[0]), es[1..]);
    }
  }

  /** In every run, no request carries an absolute time before relative ones are known to be broken. */
  lemma RelativeUntilBroken(config: Config, o: StartOutcome, es: seq<Event>)
    requires Runs(AfterStart(config, o), es) && !Ran(AfterStart(config, o), es).device.brokenTime
    ensures forall a :: a in Ran(AfterStart(config, o), es).log ==> !IsAbsolutePost(a)
  {
    StartEstablishes(config, o);
    RunStaysUnsuspecting(AfterStart(config, o), es);
  }

  // ------------------------------------------------------------------ one manager on the camera

  /** Nobody else finds anything out. */
  predicate Alone(es: seq<Event>) {
    forall e :: e in es ==> !e.DetectElsewhere?
  }

  /** Every request of the log carried an absolute time exactly when it was to. */
  ghost predicate LogSticks(log: seq<Action>, broken: bool) {
    forall j :: 0 <= j < |log| && log[j].Posted? ==> (log[j].absolute <==> broken || BrokenTimeFound in log[..j])
  }

  /** A request carried an absolute time exactly when relative times were known to be broken, from
      start() or from an answer seen earlier; and that is what the camera object remembers. */
  ghost predicate Sticky(s: State, broken: bool) {
    && LogSticks(s.log, broken)
    && (s.device.brokenTime <==> broken || BrokenTimeFound in s.log)
    && (forall t :: t in s.loop.tasks ==> UpToDate(s.loop.tasks[t].at, s.device.brokenTime))
  }

  /** What a segment says is in the form its camera object then asks for. */
  ghost predicate SaysInForm(said: seq<Action>, broken: bool) {
    && (forall i :: 0 <= i < |said| && said[i].Posted? ==> said[i].absolute == (broken || BrokenTimeFound in said))
    && (BrokenTimeFound in said ==> |said| == 2 && said[0] == BrokenTimeFound)
  }

  /** A segment says things in form, and awaits in form. */
  ghost predicate InForm(s: State, n: Next) {
    && SaysInForm(n.said, s.device.brokenTime)
    && n.state.device.brokenTime == (s.device.brokenTime || BrokenTimeFound in n.said)
    && (n.Await? ==> UpToDate(n.point, n.state.device.brokenTime))
    && (BrokenTimeFound in n.said ==> n.Await? && n.point.Rerenewing?)
  }

  lemma CheckBrokenTimeInForm(s: State, t: nat, granted: Response)
    ensures InForm(s, CheckBrokenTime(s, t, granted))
  {
  }

  lemma OpenSubscriptionInForm(s: State, t: nat, granted: Response)
    ensures InForm(s, OpenSubscription(s, t, granted))
  {
    if s.device.cached.Some? {
      CheckBrokenTimeInForm(s.(subscription := Some(s.device.cached.value)), t, granted);
    }
  }

  lemma ProceedInForm(s: State, t: nat, at: Point)
    requires !(at.Renewing? || at.Subscribing? || at.Rerenewing?) && UpToDate(at, s.device.brokenTime)
    ensures InForm(s, ProceedAt(s, t, at))
  {
    match at
    case OpeningPuller(r) =>
      CheckBrokenTimeInForm(s, t, r);
      OpenSubscriptionInForm(s, t, r);
    case OpeningNew(r, service) =>
      CheckBrokenTimeInForm(s.(device := s.device.(cached := Some(service)), subscription := Some(service)), t, r);
    case _ =>
  }

  lemma RaiseInForm(s: State, t: nat, at: Point, e: Error)
    requires UpToDate(at, s.device.brokenTime)
    ensures InForm(s, RaiseAt(s, t, at, e))
  {
    match at
    case Renewing(attempt, post, absolute) => RenewFailedInForm(s, t, attempt, post, absolute, e);
    case RenewYield(_, _) => RenewRaisedInForm(s, t, e);
    case Backoff(_) => RenewRaisedInForm(s, t, e);
    case _ =>
  }

  lemma RenewRaisedInForm(s: State, t: nat, e: Error)
    ensures InForm(s, RenewRaised(s, t, e))
  {
    if IsRenewError(e) {
      assert RenewRaised(s, t, e).said == [RenewEnded(t, Some(e)), LostReported(t), RestartBegun(t)];
    }
  }

  lemma RenewFailedInForm(s: State, t: nat, attempt: nat, post: nat, absolute: bool, e: Error)
    requires absolute == s.device.brokenTime
    ensures InForm(s, RenewFailed(s, t, attempt, post, absolute, e))
  {
    RenewRaisedInForm(s, t, e);
  }

  lemma SegmentInForm(s: State, t: nat, d: Delivery)
    requires t in s.loop.tasks && Accepts(s.loop.tasks[t], s.loop.now, d)
    requires UpToDate(s.loop.tasks[t].at, s.device.brokenTime)
    ensures InForm(s, Segment(s, t, s.loop.tasks[t].at, d))
  {
    var at := s.loop.tasks[t].at;
    match d
    case Failed(e) => RaiseInForm(s, t, at, e);
    case Reply(r, address) => OpenSubscriptionInForm(s.(device := s.device.(xaddr := address)), t, r);
    case Proceed => ProceedInForm(s, t, at);
  }

  lemma SpeechSticks(log: seq<Action>, said: seq<Action>, broken: bool)
    requires LogSticks(log, broken) && SaysInForm(said, broken || BrokenTimeFound in log)
    ensures LogSticks(log + said, broken)
  {
    var all := log + said;
    forall j | 0 <= j < |all| && all[j].Posted?
      ensures all[j].absolute <==> broken || BrokenTimeFound in all[..j]
    {
      if j < |log| {
        assert all[..j] == log[..j];
      } else {
        var k := j - |log|;
        assert all[j] == said[k];
        assert all[..j] == log + said[..k];
        assert BrokenTimeFound in said ==> k == 1 && said[..k][0] == BrokenTimeFound;
      }
    }
  }

  lemma StepSticks(s: State, e: Event, broken: bool)
    requires Inv(s) && Sticky(s, broken) && Enabled(s, e) && !e.DetectElsewhere?
    ensures Sticky(Step(s, e), broken)
  {
    if e.Resolve? {
      DeliverResult(s, e.task, e.delivery);
      SegmentInForm(s, e.task, e.delivery);
      SpeechSticks(s.log, Segment(s, e.task, s.loop.tasks[e.task].at, e.delivery).said, broken);
    } else {
      OtherStepsAreSilent(s, e);
    }
  }

  lemma {:induction false} RunSticks(s: State, es: seq<Event>, broken: bool)
    requires Inv(s) && Sticky(s, broken) && Runs(s, es) && Alone(es)
    ensures Sticky(Ran(s, es), broken)
    decreases |es|
  {
    if es != [] {
      assert es[0] in es;
      StepKeeps(s, es[0]);
      StepSticks(s, es[0], broken);
      RunSticks(Step(s, es[0]), es[1..], broken);
    }
  }

  /** With no other manager finding it out, a request carries the absolute form exactly when this
      one found broken relative time before it, or started knowing. */
  lemma OwnDetectionDecides(config: Config, o: StartOutcome, es: seq<Event>)
    requires Runs(AfterStart(config, o), es) && Alone(es)
    ensures var log := Ran(AfterStart(config, o), es).log;
            forall j :: 0 <= j < |log| && log[j].Posted? ==>
              (log[j].absolute <==> o.broken || BrokenTimeFound in log[..j])
  {
    StartEstablishes(config, o);
    RunSticks(AfterStart(config, o), es, o.broken);
  }
}

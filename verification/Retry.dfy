/** The attempt loop of onvif/wrappers.py, and what stacking two of them (transport under Renew)
    promises about the requests that reach the camera. */
module Retry {

  /** The exceptions a remote call can end in, as far as the handlers of this library tell them
      apart. `Unlisted` is every exception no handler of the renewal path names. */
  datatype Error =
    | ServerDisconnected
    | ClientConnectionReset
    | OtherClientError
    | OnvifError
    | Fault
    | Timeout
    | XmlParseError
    | Cancelled
    | Unlisted

  /** The pooled socket was dead before the request was written. */
  predicate IsDisconnect(e: Error) {
    e.ServerDisconnected? || e.ClientConnectionReset?
  }

  predicate IsClientError(e: Error) {
    IsDisconnect(e) || e.OtherClientError?
  }

  /** RENEW_ERRORS of onvif/managers.py. */
  predicate IsRenewError(e: Error) {
    IsClientError(e) || e.OnvifError? || e.Fault? || e.Timeout? || e.XmlParseError?
  }

  /** How an awaited call ended. `NoAttempt` is the None the wrapper returns when its loop body
      never runs. */
  datatype Outcome<+T> = Return(value: T) | Raise(error: Error) | NoAttempt

  /** A finished call that began at some position of the wire's script: its outcome, the position
      after the last request it made, and the seconds it slept. */
  datatype Run<+T> = Run(outcome: Outcome<T>, next: nat, slept: real)

  /** An un-retried request: it consumes one entry of the script of outcomes. */
  function Wire<T>(script: nat -> Outcome<T>): nat -> Run<T> {
    (i: nat) => Run(script(i), i + 1, 0.0)
  }

  /** What the decorator makes of `func`: call again after a caught error while attempts remain. */
  function Retried<T>(attempts: nat, caught: Error -> bool, backoff: real, func: nat -> Run<T>, i: nat): (r: Run<T>)
  {
    if attempts == 0 then Run(NoAttempt, i, 0.0) else
    var r := func(i);
    if attempts > 1 && r.outcome.Raise? && caught(r.outcome.error) then
      var rest := Retried(attempts - 1, caught, backoff, func, r.next);
      rest.(slept := r.slept + backoff + rest.slept)
    else r
  }

  /** The wrapper itself. */
  method RetryConnectionError<T>(attempts: int, caught: Error -> bool, backoff: real, func: nat -> Run<T>, i: nat)
    returns (r: Run<T>)
    ensures r == Retried(if attempts < 0 then 0 else attempts, caught, backoff, func, i)
  {
    var pos, slept, attempt := i, 0.0, 0;
    while attempt < attempts
      invariant 0 <= attempt
      invariant attempt < attempts ==>
          var rest := Retried(attempts - attempt, caught, backoff, func, pos);
          Retried(attempts, caught, backoff, func, i) == rest.(slept := slept + rest.slept)
      invariant attempts <= attempt ==> attempts <= 0 && pos == i && slept == 0.0
    {
      var once := func(pos);
      pos, slept := once.next, slept + once.slept;
      if !once.outcome.Raise? || !caught(once.outcome.error) || attempt == attempts - 1 {
        return Run(once.outcome, pos, slept);
      }
      slept := slept + backoff;
      attempt := attempt + 1;
    }
    r := Run(NoAttempt, pos, slept);
  }

  /** Which request a retry ends with: the first that returns or raises an error it does not catch, or
      else the last it has an attempt for; with a sleep before each but the first. */
  lemma {:induction false} EndsWithRequest<T(!new)>(attempts: nat, caught: Error -> bool, backoff: real,
                                                    script: nat -> Outcome<T>, i: nat)
    ensures var r := Retried(attempts, caught, backoff, Wire(script), i);
            if attempts == 0 then r == Run(NoAttempt, i, 0.0)
            else
              var made := r.next - i;
              && 1 <= made <= attempts
              && (forall j: nat :: i <= j < i + made - 1 ==> script(j).Raise? && caught(script(j).error))
              && r.outcome == script(i + made - 1)
              && (made < attempts ==> !r.outcome.Raise? || !caught(r.outcome.error))
              && r.slept == backoff * (made - 1) as real
    decreases attempts
  {
    if attempts > 1 && script(i).Raise? && caught(script(i).error) {
      EndsWithRequest(attempts - 1, caught, backoff, script, i + 1);
      var made := Retried(attempts, caught, backoff, Wire(script), i).next - i;
      assert backoff * (made - 1) as real == backoff + backoff * (made - 2) as real;
    }
  }

  /** Calling `func` makes between one and `bound` requests and ends as the last of them did. */
  ghost predicate Transparent<T(!new)>(func: nat -> Run<T>, script: nat -> Outcome<T>, bound: nat) {
    forall i: nat :: i < func(i).next <= i + bound && func(i).outcome == script(func(i).next - 1)
  }

  lemma {:induction false} RetryIsTransparent<T(!new)>(attempts: nat, caught: Error -> bool, backoff: real,
                                                       func: nat -> Run<T>, script: nat -> Outcome<T>, bound: nat, i: nat)
    requires attempts >= 1 && Transparent(func, script, bound)
    ensures var r := Retried(attempts, caught, backoff, func, i);
            i < r.next <= i + attempts * bound && r.outcome == script(r.next - 1)
    decreases attempts
  {
    var r := func(i);
    if attempts > 1 {
      RetryIsTransparent(attempts - 1, caught, backoff, func, script, bound, r.next);
      assert attempts * bound == (attempts - 1) * bound + bound;
    }
  }

  /** The inner of two stacked layers, as the function the outer one calls. */
  function Layer<T>(m: nat, inner: Error -> bool, rest: real, script: nat -> Outcome<T>): nat -> Run<T> {
    (j: nat) => Retried(m, inner, rest, Wire(script), j)
  }

  /** `n` attempts around `m` attempts around one request. */
  function Nested<T>(n: nat, outer: Error -> bool, pause: real, m: nat, inner: Error -> bool, rest: real,
                     script: nat -> Outcome<T>, i: nat): Run<T>
  {
    Retried(n, outer, pause, Layer(m, inner, rest, script), i)
  }

  /** Stacked retries make at least one and at most n*m requests, and the caller sees the outcome
      of the last request made. */
  lemma NestedRetryBound<T(!new)>(n: nat, outer: Error -> bool, pause: real, m: nat, inner: Error -> bool, rest: real,
                                  script: nat -> Outcome<T>, i: nat)
    requires n >= 1 && m >= 1
    ensures var r := Nested(n, outer, pause, m, inner, rest, script, i);
            i < r.next <= i + n * m && r.outcome == script(r.next - 1)
  {
    var func := Layer(m, inner, rest, script);
    forall j: nat
      ensures j < func(j).next <= j + m && func(j).outcome == script(func(j).next - 1)
    {
      RetryIsTransparent(m, inner, rest, Wire(script), script, 1, j);
    }
    RetryIsTransparent(n, outer, pause, func, script, m, i);
  }

  /** A single retry that only meets errors it catches uses every attempt, and sleeps between them. */
  lemma {:induction false} RetryExhausts<T(!new)>(m: nat, inner: Error -> bool, rest: real, script: nat -> Outcome<T>, i: nat)
    requires m >= 1
    requires forall j: nat :: i <= j < i + m ==> script(j).Raise? && inner(script(j).error)
    ensures Retried(m, inner, rest, Wire(script), i) == Run(script(i + m - 1), i + m, rest * (m - 1) as real)
    decreases m
  {
    assert script(i).Raise?;
    if m > 1 {
      RetryExhausts(m - 1, inner, rest, script, i + 1);
      assert rest * (m - 1) as real == rest + rest * (m - 2) as real;
    }
  }

  /** When every request fails with an error both layers catch, exactly n*m requests are made. */
  lemma {:induction false} NestedRetryExhausts<T(!new)>(n: nat, outer: Error -> bool, pause: real, m: nat,
                                                       inner: Error -> bool, rest: real, script: nat -> Outcome<T>, i: nat)
    requires n >= 1 && m >= 1
    requires forall j: nat :: i <= j < i + n * m ==> script(j).Raise? && inner(script(j).error) && outer(script(j).error)
    ensures Nested(n, outer, pause, m, inner, rest, script, i).next == i + n * m
    decreases n
  {
    assert n * m == (n - 1) * m + m;
    RetryExhausts(m, inner, rest, script, i);
    if n > 1 {
      NestedRetryExhausts(n - 1, outer, pause, m, inner, rest, script, i + m);
      var last := script(i + m - 1);
      assert last.Raise? && outer(last.error);
    }
  }

  /** How many of the requests i..j the camera acted on. */
  ghost function Executed(ran: nat -> bool, i: nat, j: nat): nat
    requires i <= j
    decreases j - i
  {
    if i == j then 0 else (if ran(i) then 1 else 0) + Executed(ran, i + 1, j)
  }

  lemma {:induction false} ExecutedSplit(ran: nat -> bool, i: nat, j: nat, k: nat)
    requires i <= j <= k
    ensures Executed(ran, i, k) == Executed(ran, i, j) + Executed(ran, j, k)
    decreases j - i
  {
    if i < j {
      ExecutedSplit(ran, i + 1, j, k);
    }
  }

  /** A dead pooled socket means the request was never acted on. */
  ghost predicate DisconnectsAreSafe<T>(ran: nat -> bool, script: nat -> Outcome<T>) {
    forall i: nat :: ran(i) ==> !(script(i).Raise? && IsDisconnect(script(i).error))
  }

  /** Retrying only on disconnects never makes the camera act twice, however many attempts. */
  lemma {:induction false} PostExecutesAtMostOnce<T(!new)>(m: nat, rest: real, ran: nat -> bool, script: nat -> Outcome<T>, i: nat)
    requires m >= 1 && DisconnectsAreSafe(ran, script)
    ensures var r := Retried(m, IsDisconnect, rest, Wire(script), i);
            r.next > i && Executed(ran, i, r.next) <= 1
    decreases m
  {
    var o := script(i);
    if m > 1 && o.Raise? && IsDisconnect(o.error) {
      PostExecutesAtMostOnce(m - 1, rest, ran, script, i + 1);
    } else {
      assert Executed(ran, i + 1, i + 1) == 0;
    }
  }

  /** The attempts of the outer layer bound the number of times the camera acts on the request. */
  lemma {:induction false} NestedExecutesAtMostPerAttempt<T(!new)>(n: nat, outer: Error -> bool, pause: real, m: nat, rest: real,
                                                                  ran: nat -> bool, script: nat -> Outcome<T>, i: nat)
    requires n >= 1 && m >= 1 && DisconnectsAreSafe(ran, script)
    ensures var r := Nested(n, outer, pause, m, IsDisconnect, rest, script, i);
            r.next > i && Executed(ran, i, r.next) <= n
    decreases n
  {
    PostExecutesAtMostOnce(m, rest, ran, script, i);
    var first := Retried(m, IsDisconnect, rest, Wire(script), i);
    if n > 1 && first.outcome.Raise? && outer(first.outcome.error) {
      NestedExecutesAtMostPerAttempt(n - 1, outer, pause, m, rest, ran, script, first.next);
      var r := Nested(n, outer, pause, m, IsDisconnect, rest, script, i);
      ExecutedSplit(ran, i, first.next, r.next);
    }
  }

  const DEFAULT_ATTEMPTS: nat := 2
  const BACKOFF_TIME: real := 4.5

  /** A Renew as `_call_subscription_renew` issues it: two attempts on any ClientError around a
      transport that tries twice on a disconnect. */
  function RenewRun<T>(script: nat -> Outcome<T>, i: nat): Run<T> {
    Nested(DEFAULT_ATTEMPTS, IsClientError, BACKOFF_TIME, 2, IsDisconnect, 0.0, script, i)
  }

  /** The transport's two attempts, spelled out. */
  lemma TransportRun<T(!new)>(script: nat -> Outcome<T>, i: nat)
    ensures Layer(2, IsDisconnect, 0.0, script)(i) ==
            if script(i).Raise? && IsDisconnect(script(i).error)
            then Run(script(i + 1), i + 2, 0.0) else Run(script(i), i + 1, 0.0)
  {
    assert Retried(1, IsDisconnect, 0.0, Wire(script), i + 1) == Wire(script)(i + 1);
  }

  /** One Renew posts at most four requests (and exactly when), reports the last one's outcome,
      sleeps at most one backoff, and has the camera act at most twice. */
  lemma RenewTraffic<T(!new)>(ran: nat -> bool, script: nat -> Outcome<T>, i: nat)
    requires DisconnectsAreSafe(ran, script)
    ensures var r := RenewRun(script, i);
            && i < r.next <= i + 4
            && (r.next == i + 4 <==>
                && script(i).Raise? && IsDisconnect(script(i).error)
                && script(i + 1).Raise? && IsClientError(script(i + 1).error)
                && script(i + 2).Raise? && IsDisconnect(script(i + 2).error))
            && r.outcome == script(r.next - 1)
            && (r.slept == 0.0 || r.slept == BACKOFF_TIME)
            && Executed(ran, i, r.next) <= 2
  {
    NestedRetryBound(2, IsClientError, BACKOFF_TIME, 2, IsDisconnect, 0.0, script, i);
    NestedExecutesAtMostPerAttempt(2, IsClientError, BACKOFF_TIME, 2, 0.0, ran, script, i);
    TransportRun(script, i);
    TransportRun(script, i + 1);
    TransportRun(script, i + 2);
    var func := Layer(2, IsDisconnect, 0.0, script);
    var first := func(i);
    var second := func(first.next);
    assert Retried(1, IsClientError, BACKOFF_TIME, func, first.next) == second;
    var r := Retried(2, IsClientError, BACKOFF_TIME, func, i);
    assert r == if first.outcome.Raise? && IsClientError(first.outcome.error)
                then Run(second.outcome, second.next, BACKOFF_TIME) else first;
    assert r == RenewRun(script, i);
  }
}

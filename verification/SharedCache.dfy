/** The shared SQLite cache of onvif/client.py: a double-checked asyncio lock around one slow
    construction, with any number of coroutines on one loop. */
module SharedCache {
  import opened Wrappers

  /** Where a call of `_get_shared_sqlite_cache` is. `Waiting` and `Building` are its two awaits:
      for the lock, and for the worker thread that constructs the cache. */
  datatype Point =
    | NotCalled
    | Waiting
    | Building
    | Returned(cache: Option<nat>)
    | Raised

  /** The module globals, the lock, and the calls. Instances are numbered as they are built;
      `built` are those whose constructor succeeded. `waiters` is the lock's queue. */
  datatype State = State(
    cache: Option<nat>,
    lockMade: bool,
    locked: bool,
    waiters: seq<nat>,
    calls: map<nat, Point>,
    nextInstance: nat,
    built: set<nat>)

  const INITIAL: State := State(None, false, false, [], map[], 0, {})

  datatype Event =
    | Call(coroutine: nat)
    | Wake(coroutine: nat)
    | Constructed(coroutine: nat, succeeds: bool)

  /** A coroutine may call when it is not inside another call; the lock wakes the head of its queue
      once free; a construction may finish at any time, either way. */
  predicate Enabled(s: State, e: Event) {
    match e
    case Call(c) => c !in s.calls || s.calls[c].Returned? || s.calls[c].Raised?
    case Wake(c) => !s.locked && s.waiters != [] && s.waiters[0] == c
    case Constructed(c, _) => c in s.calls && s.calls[c].Building?
  }

  function At(s: State, c: nat, point: Point): State {
    s.(calls := s.calls[c := point])
  }

  /** The body of `async with`, the lock being held: the second check. */
  function Inside(s: State, c: nat): State {
    if s.cache.None? then At(s, c, Building)
    else At(s.(locked := false), c, Returned(s.cache))
  }

  function Step(s: State, e: Event): State
    requires Enabled(s, e)
  {
    match e
    case Call(c) =>
      if s.cache.Some? then At(s, c, Returned(s.cache))
      else
        var made := s.(lockMade := true);
        if s.locked || s.waiters != [] then At(made.(waiters := s.waiters + [c]), c, Waiting)
        else Inside(made.(locked := true), c)
    case Wake(c) => Inside(s.(locked := true, waiters := s.waiters[1..]), c)
    case Constructed(c, succeeds) =>
      var released := s.(locked := false, nextInstance := s.nextInstance + 1);
      if succeeds then
        At(released.(cache := Some(s.nextInstance), built := s.built + {s.nextInstance}), c, Returned(Some(s.nextInstance)))
      else At(released, c, Raised)
  }

  predicate Runs(s: State, es: seq<Event>)
    decreases |es|
  {
    es == [] || (Enabled(s, es[0]) && Runs(Step(s, es[0]), es[1..]))
  }

  function Ran(s: State, es: seq<Event>): State
    requires Runs(s, es)
    decreases |es|
  {
    if es == [] then s else Ran(Step(s, es[0]), es[1..])
  }

  ghost predicate Inv(s: State) {
    && s.built == (if s.cache.None? then {} else {s.cache.value})
    && (s.locked <==> exists c :: c in s.calls && s.calls[c].Building?)
    && (forall c, d :: c in s.calls && d in s.calls && s.calls[c].Building? && s.calls[d].Building? ==> c == d)
    && (s.cache.Some? ==> forall c :: c in s.calls ==> !s.calls[c].Building?)
    && (forall c :: c in s.calls && s.calls[c].Returned? ==> s.cache.Some? && s.calls[c].cache == s.cache)
    && (forall i :: 0 <= i < |s.waiters| ==> s.waiters[i] in s.calls && s.calls[s.waiters[i]].Waiting?)
    && (forall c :: c in s.calls && s.calls[c].Waiting? ==> c in s.waiters)
    && (forall i, j :: 0 <= i < j < |s.waiters| ==> s.waiters[i] != s.waiters[j])
  }

  lemma InsideKeeps(s: State, c: nat)
    requires Inv(s.(locked := false)) && s.locked
    requires c !in s.waiters
    requires forall d :: d in s.calls ==> !s.calls[d].Building?
    ensures Inv(Inside(s, c))
  {
    var n := Inside(s, c);
    if s.cache.None? {
      assert n.calls[c].Building?;
    }
  }

  lemma StepKeeps(s: State, e: Event)
    requires Inv(s) && Enabled(s, e)
    ensures Inv(Step(s, e))
  {
    match e
    case Call(c) =>
      assert c !in s.waiters;
      if s.cache.None? && !s.locked && s.waiters == [] {
        InsideKeeps(s.(lockMade := true, locked := true), c);
      } else {
        var n := Step(s, e);
        assert s.locked ==> exists d :: d in s.calls && s.calls[d].Building? && d in n.calls && n.calls[d].Building?;
      }
    case Wake(c) =>
      WakeKeeps(s, c);
    case Constructed(c, succeeds) =>
  }

  lemma WakeKeeps(s: State, c: nat)
    requires Inv(s) && Enabled(s, Wake(c))
    ensures Inv(Step(s, Wake(c)))
  {
    var m := s.(locked := true, waiters := s.waiters[1..]);
    var n := Inside(m, c);
    if s.cache.None? {
      assert n.calls[c].Building?;
    }
    forall d | d in n.calls && n.calls[d].Waiting?
      ensures d in n.waiters
    {
      assert d in s.waiters && d != c;
    }
  }

  lemma {:induction false} RunKeeps(s: State, es: seq<Event>)
    requires Inv(s) && Runs(s, es)
    ensures Inv(Ran(s, es))
    decreases |es|
  {
    if es != [] {
      StepKeeps(s, es[0]);
      RunKeeps(Step(s, es[0]), es[1..]);
    }
  }

  /** For any number of coroutines and any interleaving, failing constructions included: at most
      one construction is in flight, at most one ever succeeds, and every call that returned
      returned that one instance. */
  lemma SingleConstruction(es: seq<Event>)
    requires Runs(INITIAL, es)
    ensures var s := Ran(INITIAL, es);
            && (forall c, d :: c in s.calls && d in s.calls && s.calls[c].Building? && s.calls[d].Building? ==> c == d)
            && (forall i, j :: i in s.built && j in s.built ==> i == j)
            && (forall c :: c in s.calls && s.calls[c].Returned? ==> s.calls[c].cache.Some? && s.calls[c].cache.value in s.built)
  {
    RunKeeps(INITIAL, es);
  }

  /** Nobody waits for nothing: while a call waits for the lock, a construction is in flight or the
      head of the queue can be woken; and waiters are woken in the order they came. */
  lemma WaitersMakeProgress(es: seq<Event>, c: nat)
    requires Runs(INITIAL, es)
    requires var s := Ran(INITIAL, es); c in s.calls && s.calls[c].Waiting?
    ensures var s := Ran(INITIAL, es);
            && c in s.waiters
            && ((exists d :: d in s.calls && s.calls[d].Building?) || Enabled(s, Wake(s.waiters[0])))
  {
    RunKeeps(INITIAL, es);
  }

  /** A construction that succeeds stores its instance, and its call returns that; one that fails
      raises and stores nothing. Either way the lock is free again. */
  lemma ConstructionDecides(s: State, c: nat)
    requires Enabled(s, Constructed(c, true))
    ensures var n := Step(s, Constructed(c, true));
            && n.cache == Some(s.nextInstance) && n.calls == s.calls[c := Returned(Some(s.nextInstance))]
            && n.built == s.built + {s.nextInstance} && !n.locked && n.nextInstance == s.nextInstance + 1
    ensures var n := Step(s, Constructed(c, false));
            && n.cache == s.cache && n.calls == s.calls[c := Raised]
            && n.built == s.built && !n.locked && n.nextInstance == s.nextInstance + 1
  {
  }

  /** A call returns at once what is stored. Otherwise it makes the lock if there is none, constructs if the lock is free, and waits
      its turn if not; let in, it looks again. */
  lemma CallDecides(s: State, c: nat)
    requires Enabled(s, Call(c))
    ensures var n := Step(s, Call(c));
            && (s.cache.Some? ==> n == s.(calls := s.calls[c := Returned(s.cache)]))
            && n.lockMade == (s.lockMade || s.cache.None?)
            && (s.cache.None? && !s.locked && s.waiters == [] ==>
                  n.calls == s.calls[c := Building] && n.locked && n.waiters == [] && n.cache.None?)
            && (s.cache.None? && (s.locked || s.waiters != []) ==>
                  n.calls == s.calls[c := Waiting] && n.locked == s.locked && n.waiters == s.waiters + [c])
  {
  }

  lemma WakeDecides(s: State, c: nat)
    requires Enabled(s, Wake(c))
    ensures var n := Step(s, Wake(c));
            && n.waiters == s.waiters[1..]
            && (s.cache.Some? ==> n.calls == s.calls[c := Returned(s.cache)] && !n.locked)
            && (s.cache.None? ==> n.calls == s.calls[c := Building] && n.locked)
  {
  }

  /** The globals of the client module, changed in place between the awaits of each call. */
  class ClientModule {
    var cache: Option<nat>
    var lockMade: bool
    var locked: bool
    var waiters: seq<nat>
    var calls: map<nat, Point>
    var nextInstance: nat
    ghost var built: set<nat>

    constructor ()
      ensures View() == INITIAL
    {
      cache, lockMade, locked, waiters, calls, nextInstance, built := None, false, false, [], map[], 0, {};
    }

    ghost function View(): State
      reads this
    {
      State(cache, lockMade, locked, waiters, calls, nextInstance, built)
    }

    method GetSharedSqliteCache(c: nat)
      requires Enabled(View(), Call(c))
      modifies this
      ensures View() == Step(old(View()), Call(c))
    {
      if cache.None? {
        if !lockMade {
          lockMade := true;
        }
        if locked || waiters != [] {
          waiters, calls := waiters + [c], calls[c := Waiting];
        } else {
          locked := true;
          LockHeld(c);
        }
      } else {
        calls := calls[c := Returned(cache)];
      }
    }

    /** The lock's turn to let the head of its queue in. */
    method LockAcquired(c: nat)
      requires Enabled(View(), Wake(c))
      modifies this
      ensures View() == Step(old(View()), Wake(c))
    {
      locked, waiters := true, waiters[1..];
      LockHeld(c);
    }

    method LockHeld(c: nat)
      modifies this
      ensures View() == Inside(old(View()), c)
    {
      if cache.None? {
        calls := calls[c := Building];
      } else {
        locked := false;
        calls := calls[c := Returned(cache)];
      }
    }

    /** The worker thread is done constructing. */
    method ConstructionDone(c: nat, succeeds: bool)
      requires Enabled(View(), Constructed(c, succeeds))
      modifies this
      ensures View() == Step(old(View()), Constructed(c, succeeds))
    {
      if succeeds {
        cache, built := Some(nextInstance), built + {nextInstance};
      }
      locked, nextInstance := false, nextInstance + 1;
      calls := calls[c := if succeeds then Returned(cache) else Raised];
    }

    /** One turn of the loop. */
    method Turn(e: Event)
      requires Enabled(View(), e)
      modifies this
      ensures View() == Step(old(View()), e)
    {
      match e
      case Call(c) => GetSharedSqliteCache(c);
      case Wake(c) => LockAcquired(c);
      case Constructed(c, succeeds) => ConstructionDone(c, succeeds);
    }

    /** The loop turning through a whole run from the start: every call that returned returned the
        one instance that was built. */
    method Play(es: seq<Event>)
      requires View() == INITIAL && Runs(INITIAL, es)
      modifies this
      ensures View() == Ran(INITIAL, es)
      ensures cache.None? ==> built == {}
      ensures cache.Some? ==> built == {cache.value}
      ensures forall c :: c in calls && calls[c].Returned? ==> cache.Some? && calls[c].cache == cache
    {
      for i := 0 to |es|
        invariant Runs(View(), es[i..]) && Ran(View(), es[i..]) == Ran(INITIAL, es)
      {
        assert es[i..][1..] == es[i + 1..];
        Turn(es[i]);
      }
      RunKeeps(INITIAL, es);
    }
  }
}

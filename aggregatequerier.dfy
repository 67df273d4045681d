/**
 * Rehydration of an aggregate by replaying its event stream
 * (the events package's AggregateQuerier).
 */
module AggregateQuerier {
  import opened Wrappers
  import opened Entity
  import opened Eh
  import opened Aggregate

  /** The event store as seen by Load: an aggregate's stream, or the error the store reports. */
  type EventStore = ID -> Result<seq<Event>, Error>

  /** Where a replay got to: the domain state and version reached, and the error that stopped it, if any. */
  datatype Replayed = Replayed(state: DomainState, version: int, error: Option<Error>)

  /**
   * One replay step on an aggregate of type `t`: an event of another aggregate
   * type stops with MismatchedEventType; a failing application stops with an
   * ApplyEventError naming the event; otherwise the state advances and the
   * version goes up by one.
   */
  function Step(t: AggregateType, apply: ApplyFn, r: Replayed, e: Event): Replayed
    requires r.error.None?
  {
    if e.aggregateType != t then Replayed(r.state, r.version, Some(MismatchedEventType))
    else match apply(r.state, e)
      case Failure(err) => Replayed(r.state, r.version, Some(ApplyEventError(e, err)))
      case Success(next) => Replayed(next, r.version + 1, None)
  }

  /** Replays `events` in order from `state` at `version`, stopping at the first failing step. */
  function Replay(t: AggregateType, apply: ApplyFn, state: DomainState, version: int, events: seq<Event>): Replayed
    decreases |events|
  {
    if events == [] then Replayed(state, version, None)
    else
      var before := Replay(t, apply, state, version, events[..|events| - 1]);
      if before.error.Some? then before else Step(t, apply, before, events[|events| - 1])
  }

  /** Once a replay has stopped, no later event changes anything. */
  lemma {:induction false} ReplayStopsAtFailure(t: AggregateType, apply: ApplyFn, state: DomainState, version: int,
                                                done: seq<Event>, later: seq<Event>)
    requires Replay(t, apply, state, version, done).error.Some?
    ensures Replay(t, apply, state, version, done + later) == Replay(t, apply, state, version, done)
    decreases |later|
  {
    if later != [] {
      var shorter := later[..|later| - 1];
      assert (done + later)[..|done + later| - 1] == done + shorter;
      ReplayStopsAtFailure(t, apply, state, version, done, shorter);
    } else {
      assert done + later == done;
    }
  }

  /** A successful replay raises the version by exactly one per event. */
  lemma {:induction false} ReplayCountsVersions(t: AggregateType, apply: ApplyFn, state: DomainState, version: int,
                                                events: seq<Event>)
    requires Replay(t, apply, state, version, events).error.None?
    ensures Replay(t, apply, state, version, events).version == version + |events|
    decreases |events|
  {
    if events != [] {
      ReplayCountsVersions(t, apply, state, version, events[..|events| - 1]);
    }
  }

  /** Events are applied in stream order: replaying `a + b` is replaying `b` from where `a` left off. */
  lemma {:induction false} ReplayInOrder(t: AggregateType, apply: ApplyFn, state: DomainState, version: int,
                                         a: seq<Event>, b: seq<Event>)
    requires Replay(t, apply, state, version, a).error.None?
    ensures var mid := Replay(t, apply, state, version, a);
      Replay(t, apply, state, version, a + b) == Replay(t, apply, mid.state, mid.version, b)
    decreases |b|
  {
    if b == [] {
      assert a + b == a;
    } else {
      var shorter := b[..|b| - 1];
      assert (a + b)[..|a + b| - 1] == a + shorter;
      assert (a + b)[|a + b| - 1] == b[|b| - 1];
      ReplayInOrder(t, apply, state, version, a, shorter);
    }
  }

  /**
   * The first event of another aggregate type aborts the replay with
   * MismatchedEventType, whatever follows it, and the events before it stay applied.
   */
  lemma MismatchAborts(t: AggregateType, apply: ApplyFn, state: DomainState, version: int,
                       done: seq<Event>, e: Event, later: seq<Event>)
    requires Replay(t, apply, state, version, done).error.None?
    requires e.aggregateType != t
    ensures var before := Replay(t, apply, state, version, done);
      Replay(t, apply, state, version, done + [e] + later) ==
      Replayed(before.state, before.version, Some(MismatchedEventType))
  {
    assert (done + [e])[..|done|] == done;
    ReplayStopsAtFailure(t, apply, state, version, done + [e], later);
  }

  /**
   * An event whose application fails aborts the replay with an ApplyEventError
   * carrying exactly that event and that error, whatever follows it.
   */
  lemma ApplyFailureAborts(t: AggregateType, apply: ApplyFn, state: DomainState, version: int,
                           done: seq<Event>, e: Event, later: seq<Event>)
    requires Replay(t, apply, state, version, done).error.None?
    requires e.aggregateType == t
    requires apply(Replay(t, apply, state, version, done).state, e).Failure?
    ensures var before := Replay(t, apply, state, version, done);
      Replay(t, apply, state, version, done + [e] + later) ==
      Replayed(before.state, before.version,
               Some(ApplyEventError(e, apply(before.state, e).error)))
  {
    assert (done + [e])[..|done|] == done;
    ReplayStopsAtFailure(t, apply, state, version, done + [e], later);
  }

  /**
   * applyEvents: applies the events to `a` one by one, checking each event's
   * aggregate type and counting versions, and stops at the first failure.
   */
  method ApplyEvents(a: Aggregate, events: seq<Event>) returns (err: Option<Error>)
    modifies a
    ensures var r := Replay(a.aggregateType, a.apply, old(a.state), old(a.version), events);
      a.state == r.state && a.version == r.version && err == r.error
  {
    ghost var state0, version0 := a.state, a.version;
    var i := 0;
    while i < |events|
      invariant 0 <= i <= |events|
      invariant Replay(a.aggregateType, a.apply, state0, version0, events[..i]) == Replayed(a.state, a.version, None)
    {
      var e := events[i];
      assert events[..i + 1][..i] == events[..i];
      if e.aggregateType != a.aggregateType {
        err := Some(MismatchedEventType);
        StopsEarly(a.aggregateType, a.apply, state0, version0, events, i + 1);
        return;
      }
      var applyErr := a.ApplyEvent(e);
      if applyErr.Some? {
        err := Some(ApplyEventError(e, applyErr.value));
        StopsEarly(a.aggregateType, a.apply, state0, version0, events, i + 1);
        return;
      }
      a.IncrementVersion();
      i := i + 1;
    }
    assert events[..i] == events;
    err := None;
  }

  /** The replay of a whole stream is the replay of a prefix that already failed. */
  lemma StopsEarly(t: AggregateType, apply: ApplyFn, state: DomainState, version: int, events: seq<Event>, n: nat)
    requires n <= |events|
    requires Replay(t, apply, state, version, events[..n]).error.Some?
    ensures Replay(t, apply, state, version, events) == Replay(t, apply, state, version, events[..n])
  {
    assert events[..n] + events[n..] == events;
    ReplayStopsAtFailure(t, apply, state, version, events[..n], events[n..]);
  }

  /**
   * Load: creates the aggregate from the registry, requires it to support event
   * application, loads the stream keyed by the created aggregate's own identity
   * and replays it. Any failure returns the error and no aggregate.
   */
  method Load(registry: AggregateRegistry, store: EventStore, t: AggregateType, id: ID)
    returns (r: Result<Aggregate, Error>)
    requires registry.Valid()
    ensures t !in registry.factories ==> r == Failure(AggregateNotRegistered)
    ensures t in registry.factories && !registry.factories[t].eventSourced ==>
              r == Failure(InvalidAggregateType)
    ensures t in registry.factories && registry.factories[t].eventSourced ==>
              var own := registry.factories[t].identity(id);
              store(own).Failure? ==> r == Failure(store(own).error)
    ensures t in registry.factories && registry.factories[t].eventSourced ==>
              var kind := registry.factories[t];
              var own := kind.identity(id);
              store(own).Success? ==>
              var replayed := Replay(t, kind.apply, kind.initial, 0, store(own).value);
              && (replayed.error.Some? ==> r == Failure(replayed.error.value))
              && (replayed.error.None? ==>
                    && r.Success? && fresh(r.value)
                    && r.value.aggregateType == t && r.value.id == own
                    && r.value.state == replayed.state && r.value.version == replayed.version)
  {
    var created := registry.CreateAggregate(t, id);
    if created.Failure? {
      return Failure(created.error);
    }
    var a := created.value;
    if !a.eventSourced {
      return Failure(InvalidAggregateType);
    }
    var events := store(a.EntityID());
    if events.Failure? {
      return Failure(events.error);
    }
    var err := ApplyEvents(a, events.value);
    if err.Some? {
      return Failure(err.value);
    }
    r := Success(a);
  }

  /** A successful Load yields version = number of events in the stream (a fresh aggregate starts at 0). */
  lemma LoadedVersionIsStreamLength(kind: AggregateKind, events: seq<Event>)
    requires Replay(kind.aggregateType, kind.apply, kind.initial, 0, events).error.None?
    ensures Replay(kind.aggregateType, kind.apply, kind.initial, 0, events).version == |events|
  {
    ReplayCountsVersions(kind.aggregateType, kind.apply, kind.initial, 0, events);
  }
}

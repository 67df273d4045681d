/**
 * Event matchers: predicates over an event that may be nil, used to select the
 * events a handler or an observer receives.
 */
module Matcher {
  import opened Wrappers
  import opened Eh

  /** A matcher; `None` is the nil event. */
  type EventMatcher = Option<Event> -> bool

  /** Matches every event, the nil event included. */
  function MatchAny(): (m: EventMatcher)
    ensures forall e :: m(e)
    ensures m(None)
  {
    e => true
  }

  /** Matches the events of type `t`. */
  function MatchEvent(t: EventType): (m: EventMatcher)
    ensures forall e :: m(e) <==> e.Some? && e.value.eventType == t
    ensures !m(None)
  {
    (e: Option<Event>) => e.Some? && e.value.eventType == t
  }

  /** Matches the events of aggregates of type `t`. */
  function MatchAggregate(t: AggregateType): (m: EventMatcher)
    ensures forall e :: m(e) <==> e.Some? && e.value.aggregateType == t
    ensures !m(None)
  {
    (e: Option<Event>) => e.Some? && e.value.aggregateType == t
  }

  /** Tries the matchers left to right and stops at the first that matches. */
  function AnyOf(ms: seq<EventMatcher>, e: Option<Event>): bool
    decreases |ms|
  {
    if ms == [] then false
    else if ms[0](e) then true
    else AnyOf(ms[1..], e)
  }

  /** The left-to-right scan finds a match exactly when some matcher in the list matches. */
  lemma {:induction false} AnyOfSomeMatches(ms: seq<EventMatcher>, e: Option<Event>)
    ensures AnyOf(ms, e) <==> exists i :: 0 <= i < |ms| && ms[i](e)
    decreases |ms|
  {
    if ms != [] {
      AnyOfSomeMatches(ms[1..], e);
      if !ms[0](e) && exists i :: 0 <= i < |ms| && ms[i](e) {
        var i :| 0 <= i < |ms| && ms[i](e);
        assert ms[1..][i - 1] == ms[i];
      }
    }
  }

  /** The OR of a list of matchers. */
  function MatchAnyOf(ms: seq<EventMatcher>): (m: EventMatcher)
    ensures forall e :: m(e) <==> exists i :: 0 <= i < |ms| && ms[i](e)
  {
    forall e ensures AnyOf(ms, e) <==> exists i :: 0 <= i < |ms| && ms[i](e) {
      AnyOfSomeMatches(ms, e);
    }
    e => AnyOf(ms, e)
  }

  /** One `MatchEvent` per listed event type. */
  function EventMatchers(types: seq<EventType>): (ms: seq<EventMatcher>)
    ensures |ms| == |types|
    ensures forall i :: 0 <= i < |types| ==> ms[i] == MatchEvent(types[i])
  {
    seq(|types|, i requires 0 <= i < |types| => MatchEvent(types[i]))
  }

  /** Matches the events whose type is one of `types`; never the nil event. */
  function MatchAnyEventOf(types: seq<EventType>): (m: EventMatcher)
    ensures forall e :: m(e) <==> e.Some? && e.value.eventType in types
  {
    var ms := EventMatchers(types);
    forall e ensures MatchAnyOf(ms)(e) <==> e.Some? && e.value.eventType in types {
      if e.Some? && e.value.eventType in types {
        var i :| 0 <= i < |types| && types[i] == e.value.eventType;
        assert ms[i](e);
      }
    }
    MatchAnyOf(ms)
  }

  /** `MatchAny` matches the nil event and every other event. */
  lemma MatchAnyMatchesAll(e: Event)
    ensures MatchAny()(None)
    ensures MatchAny()(Some(e))
  {
  }

  /** `MatchEvent(t)` rejects nil, accepts an event of type `t` and rejects any other type. */
  lemma MatchEventSelectsType(t: EventType, e: Event)
    ensures !MatchEvent(t)(None)
    ensures MatchEvent(t)(Some(e)) <==> e.eventType == t
  {
  }

  /** `MatchAggregate(t)` rejects nil, accepts an event of aggregate type `t` and rejects others. */
  lemma MatchAggregateSelectsType(t: AggregateType, e: Event)
    ensures !MatchAggregate(t)(None)
    ensures MatchAggregate(t)(Some(e)) <==> e.aggregateType == t
  {
  }

  /** OR of two event-type matchers matches events of either type and nothing else. */
  lemma MatchAnyOfTwoTypes(t1: EventType, t2: EventType, e: Option<Event>)
    ensures MatchAnyOf([MatchEvent(t1), MatchEvent(t2)])(e) <==>
            e.Some? && (e.value.eventType == t1 || e.value.eventType == t2)
  {
    var ms := [MatchEvent(t1), MatchEvent(t2)];
    var m := MatchAnyOf(ms);
    if e.Some? && e.value.eventType == t1 {
      assert ms[0](e);
    }
    if e.Some? && e.value.eventType == t2 {
      assert ms[1](e);
    }
    if m(e) {
      var i :| 0 <= i < |ms| && ms[i](e);
      assert i == 0 || i == 1;
    }
  }
}

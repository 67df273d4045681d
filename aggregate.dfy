/**
 * Aggregates and the registry of aggregate factories, keyed by aggregate type.
 * The registry is an explicit object: registering into it reports the faults
 * that would otherwise abort the program.
 */
module Aggregate {
  import opened Wrappers
  import opened Entity
  import opened Eh

  /** The domain state of an aggregate: its fields by name. */
  type DomainState = map<string, string>

  /** An aggregate's ApplyEvent: the state after the event, or the error it reports. */
  type ApplyFn = (DomainState, Event) -> Result<DomainState, Error>

  /**
   * What a factory builds when asked for an identity: an aggregate of
   * `aggregateType` starting in `initial`, whose own ID is `identity` of the
   * requested one (a factory may ignore the ID it is given). `eventSourced`
   * says whether it supports event application (ApplyEvent and
   * IncrementVersion), which replay needs.
   */
  datatype AggregateKind = AggregateKind(
    aggregateType: AggregateType,
    identity: ID -> ID,
    eventSourced: bool,
    initial: DomainState,
    apply: ApplyFn)

  /** A factory is known by what it builds; `None` is a factory returning nil. */
  type AggregateFactory = Option<AggregateKind>

  class Aggregate {
    const aggregateType: AggregateType
    const id: ID
    const eventSourced: bool
    const apply: ApplyFn
    var version: int
    var state: DomainState

    /** What the factory of `kind` builds when asked for identity `id`, at version 0. */
    constructor (kind: AggregateKind, id: ID)
      ensures aggregateType == kind.aggregateType && this.id == kind.identity(id)
      ensures eventSourced == kind.eventSourced && apply == kind.apply
      ensures version == 0 && state == kind.initial
    {
      aggregateType := kind.aggregateType;
      this.id := kind.identity(id);
      eventSourced := kind.eventSourced;
      apply := kind.apply;
      version := 0;
      state := kind.initial;
    }

    function EntityID(): ID
    {
      id
    }

    /** Applies one event to the domain state; a failing application leaves the state as it was. */
    method ApplyEvent(e: Event) returns (err: Option<Error>)
      modifies this`state
      ensures apply(old(state), e).Success? ==> err == None && state == apply(old(state), e).value
      ensures apply(old(state), e).Failure? ==> err == Some(apply(old(state), e).error) && state == old(state)
    {
      match apply(state, e)
      case Success(next) =>
        state := next;
        err := None;
      case Failure(e') =>
        err := Some(e');
    }

    method IncrementVersion()
      modifies this`version
      ensures version == old(version) + 1
    {
      version := version + 1;
    }
  }

  class AggregateRegistry {
    var factories: map<AggregateType, AggregateKind>

    /** Every registered type is non-empty and its factory builds aggregates of that type. */
    ghost predicate Valid()
      reads this
    {
      forall t :: t in factories ==> t != "" && factories[t].aggregateType == t
    }

    constructor ()
      ensures Valid() && factories == map[]
    {
      factories := map[];
    }

    /**
     * Registers a factory under the type of what it builds. A factory building
     * nil, an empty type name, or a type already registered is refused and the
     * registry is left unchanged; the checks are made in that order.
     */
    method RegisterAggregate(factory: AggregateFactory) returns (err: Option<RegistrationError>)
      requires Valid()
      modifies this
      ensures Valid()
      ensures factory.None? ==> err == Some(CreatedNil) && factories == old(factories)
      ensures factory.Some? && factory.value.aggregateType == "" ==>
                err == Some(EmptyType) && factories == old(factories)
      ensures factory.Some? && factory.value.aggregateType != "" && factory.value.aggregateType in old(factories) ==>
                err == Some(Duplicate(factory.value.aggregateType)) && factories == old(factories)
      ensures factory.Some? && factory.value.aggregateType != "" && factory.value.aggregateType !in old(factories) ==>
                err == None && factories == old(factories)[factory.value.aggregateType := factory.value]
    {
      if factory.None? {
        return Some(CreatedNil);
      }
      var t := factory.value.aggregateType;
      if t == "" {
        return Some(EmptyType);
      }
      if t in factories {
        return Some(Duplicate(t));
      }
      factories := factories[t := factory.value];
      err := None;
    }

    /** Builds a fresh aggregate of a registered type with its factory, asking for identity `id`. */
    method CreateAggregate(t: AggregateType, id: ID) returns (r: Result<Aggregate, Error>)
      requires Valid()
      ensures t !in factories ==> r == Failure(AggregateNotRegistered)
      ensures t in factories ==>
                && r.Success? && fresh(r.value)
                && r.value.aggregateType == t && r.value.id == factories[t].identity(id)
                && r.value.eventSourced == factories[t].eventSourced
                && r.value.apply == factories[t].apply
                && r.value.state == factories[t].initial && r.value.version == 0
    {
      if t !in factories {
        return Failure(AggregateNotRegistered);
      }
      var a := new Aggregate(factories[t], id);
      r := Success(a);
    }
  }

  /**
   * Creating an unregistered type fails with AggregateNotRegistered; once its
   * factory is registered, creating it yields an aggregate of that type
   * carrying the requested identity, for a factory that keeps the ID it is given.
   */
  method CreateAfterRegister(kind: AggregateKind, id: ID)
    returns (before: Option<Error>, registered: Option<RegistrationError>,
             createdType: AggregateType, createdId: ID)
    requires kind.aggregateType != "" && kind.identity(id) == id
    ensures before == Some(AggregateNotRegistered)
    ensures registered == None
    ensures createdType == kind.aggregateType && createdId == id
  {
    var registry := new AggregateRegistry();
    var first := registry.CreateAggregate(kind.aggregateType, id);
    before := Some(first.error);
    registered := registry.RegisterAggregate(Some(kind));
    var second := registry.CreateAggregate(kind.aggregateType, id);
    createdType := second.value.aggregateType;
    createdId := second.value.EntityID();
  }

  /** Registering the same type twice: the second registration is refused, naming the type. */
  method RegisterTwice(kind: AggregateKind) returns (first: Option<RegistrationError>, second: Option<RegistrationError>)
    requires kind.aggregateType != ""
    ensures first == None
    ensures second == Some(Duplicate(kind.aggregateType))
    ensures RegistrationMessage("aggregate", second.value) ==
            "eventhorizon: registering duplicate types for \"" + kind.aggregateType + "\""
  {
    var registry := new AggregateRegistry();
    first := registry.RegisterAggregate(Some(kind));
    second := registry.RegisterAggregate(Some(kind));
  }

  /** The refusals of a nil factory and of an empty aggregate type, with their messages. */
  lemma RegistrationRefusalMessages()
    ensures RegistrationMessage("aggregate", EmptyType) == "eventhorizon: attempt to register empty aggregate type"
    ensures RegistrationMessage("aggregate", CreatedNil) == "eventhorizon: created aggregate is nil"
  {
  }
}

/**
 * The shared vocabulary of the toolkit: events, the errors that flow between
 * components, and the failures of the type registries.
 */
module Eh {
  import opened Wrappers
  import opened Entity
  import Format

  type AggregateType = string
  type EventType = string
  type CommandType = string

  /** An immutable fact about one aggregate. */
  datatype Event = Event(
    eventType: EventType,
    data: string,
    timestamp: int,
    aggregateType: AggregateType,
    aggregateId: ID,
    version: int)

  /** An event not bound to any aggregate. */
  function NewEvent(eventType: EventType, data: string, timestamp: int): (e: Event)
    ensures e.eventType == eventType && e.aggregateType == "" && IsNilID(e.aggregateId) && e.version == 0
  {
    Event(eventType, data, timestamp, "", NilID, 0)
  }

  /** An event of version `version` for aggregate `aggregateId` of type `aggregateType`. */
  function NewEventForAggregate(eventType: EventType, data: string, timestamp: int,
                                aggregateType: AggregateType, aggregateId: ID, version: int): (e: Event)
    ensures e.eventType == eventType && e.aggregateType == aggregateType
    ensures e.aggregateId == aggregateId && e.version == version
  {
    Event(eventType, data, timestamp, aggregateType, aggregateId, version)
  }

  /** An event's text: its type and its version, "<type>@<version>". */
  function EventString(e: Event): (s: string)
    ensures |s| > |e.eventType| + 1
    ensures s[..|e.eventType|] == e.eventType && s[|e.eventType|] == '@'
    ensures var v := s[|e.eventType| + 1..];
      (if v[0] == '-' then |v| > 1 && Format.IsDigits(v[1..]) else Format.IsDigits(v)) &&
      Format.ParseInt(v) == e.version
  {
    Format.IntRoundTrip(e.version);
    var s := e.eventType + "@" + Format.IntToString(e.version);
    assert s[|e.eventType| + 1..] == Format.IntToString(e.version);
    s
  }

  /** The error values exchanged by the components. */
  datatype Error =
    | Custom(message: string)                    // an error a collaborator created with a message
    | AggregateNotRegistered
    | CommandNotRegistered
    | InvalidAggregateType
    | MismatchedEventType
    | ApplyEventError(event: Event, err: Error)  // replay failed on `event` with `err`
    | MissingField(name: string)
    | EntityNoVersion
    | DeadlineExceeded

  /** The text of an error, as its `Error()` method gives it. */
  function Text(e: Error): string
  {
    match e
    case Custom(m) => m
    case AggregateNotRegistered => "aggregate not registered"
    case CommandNotRegistered => "command not registered"
    case InvalidAggregateType => "invalid aggregate type"
    case MismatchedEventType => "mismatched event type and aggregate type"
    case ApplyEventError(ev, err) => "failed to apply event " + EventString(ev) + ": " + Text(err)
    case MissingField(name) => "missing field: " + name
    case EntityNoVersion => "entity has no version"
    case DeadlineExceeded => "context deadline exceeded"
  }

  /** Why a registry refused a registration or an unregistration. */
  datatype RegistrationError =
    | CreatedNil                 // the factory produced nil
    | EmptyType                  // the produced value has the empty type name
    | Duplicate(typeName: string)
    | UnregisterEmpty
    | UnregisterMissing(typeName: string)

  /** `%q` of a type name. */
  function Quote(s: string): string
  {
    "\"" + s + "\""
  }

  /** The panic message of a registry of `kind` values ("aggregate", "command"). */
  function RegistrationMessage(kind: string, e: RegistrationError): string
  {
    match e
    case CreatedNil => "eventhorizon: created " + kind + " is nil"
    case EmptyType => "eventhorizon: attempt to register empty " + kind + " type"
    case Duplicate(t) => "eventhorizon: registering duplicate types for " + Quote(t)
    case UnregisterEmpty => "eventhorizon: attempt to unregister empty " + kind + " type"
    case UnregisterMissing(t) => "eventhorizon: unregister of non-registered type " + Quote(t)
  }
}

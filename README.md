# eventhorizon core, modelled in Dafny

A model of the sequential core of eventhorizon, a CQRS / event-sourcing toolkit for Go.
It covers:

- **Aggregate rehydration** (`AggregateQuerier`). `Load` creates an aggregate from the aggregate registry and insists that it is event-sourced. It then reads the aggregate's event stream from the event store and replays it in order. Each event's aggregate type is checked, each event is applied, and the version goes up once per event. The first failure aborts the load.
- **Type registries** for aggregates (`Aggregate`) and commands (`Command`). They are maps from type name to factory, with checked register, unregister and create operations. Registration panics become error results that carry the panic's message. The module also has `CheckCommand`, the required-field check for commands.
- **Event matchers** (`Matcher`). These are predicates over an optional event, plus OR-composition.
- **Middleware composition** (`Middleware`) for event and command handlers. A handler threads a world value, so the order in which the layers run becomes observable.
- **The ambient context** (`Context`). It holds the namespace and the minimum version of a request, and a codec object that keeps the lists of marshal and unmarshal functions.
- **Error texts** of the event bus (`EventBus`) and the projector (`Projector`), together with the `Error()` texts of the sentinel errors (`Eh`).
- **Read-model repositories** (`Repo`):
  - a read-write repository of entities;
  - the walk up a chain of wrapping repositories that finds the memory repository;
  - the versioned find, which waits until an entity reaches the minimum version that the context requires.
- **The projector event handler** (`Projector`). It finds the entity of the event's aggregate, or takes the factory's entity. It projects the event and saves the result, or removes the entity when the projector returns nil. Any failure is reported together with the namespace.

Some parts of the original behave in ways that these modelling choices replace:

- Go interfaces whose implementations are supplied by callers become values:
  - the event store is a function from aggregate ID to a stream or an error;
  - a projector is a function from event and entity to a new entity, nil, or an error;
  - an aggregate's `ApplyEvent` is a function on a domain state.
- A factory is modelled by the value it produces. `None` stands for a factory that returns nil.
- The versioned find sleeps between attempts until a deadline. Here it reads a sequence of repository snapshots instead: the snapshots that other writers produce before the deadline, one per further attempt.
- An event's data and timestamp are opaque (`string`, `int`).

## Model

| member | source | states |
|---|---|---|
| Entity.IsNilID | entity.go:43-45 | the empty ID is nil, and a nil ID is either empty or 36 characters long (the UUID text) |
| Entity.NilIDIsEmpty | entity.go:36-38 | the nil ID is the empty string, and it counts as nil |
| Entity.ZeroUUIDIsNil | entity.go:43-45 | the all-zero UUID text counts as nil |
| Entity.OnlyTwoNilIDs | entity.go:43-45 | an ID is nil exactly when it is "" or the all-zero UUID; every other string is not nil |
| Eh.EventString | eventbus_test.go:33-36 | an event's text starts with its type, then '@', then digits (with an optional minus sign) that parse back to exactly its version |
| Eh.NewEvent | eventbus_test.go:35-36 | an event made without an aggregate has the given type, no aggregate type, the nil aggregate ID and version 0 |
| Eh.NewEventForAggregate | matcher_test.go:63-68 | an event for an aggregate carries exactly the type, aggregate type, aggregate ID and version it was made with |
| Format.IntRoundTrip | eventbus_test.go:33-37 | the decimal text of an event version (as printed after "@") is well formed and parses back to the same integer, negative ones included |
| Matcher.MatchAny | matcher_test.go:24-35 | the matcher accepts every event and the nil event |
| Matcher.MatchEvent | matcher_test.go:36-53 | the matcher accepts an event exactly when its type is the given one, and never the nil event |
| Matcher.MatchAggregate | matcher_test.go:55-72 | the matcher accepts an event exactly when its aggregate type is the given one, and never the nil event |
| Matcher.MatchAnyMatchesAll | matcher_test.go:24-35 | match-any accepts the nil event and every event |
| Matcher.MatchEventSelectsType | matcher_test.go:36-53 | match-event rejects nil and accepts an event exactly when its type is the given one |
| Matcher.MatchAggregateSelectsType | matcher_test.go:55-72 | match-aggregate rejects nil and accepts an event exactly when its aggregate type is the given one |
| Matcher.AnyOfSomeMatches | matcher_test.go:74-90 | the left-to-right short-circuit OR of matchers holds exactly when some matcher in the list accepts the event |
| Matcher.MatchAnyOf | matcher_test.go:77-80 | the composed matcher accepts an event exactly when one of its components does |
| Matcher.MatchAnyOfTwoTypes | matcher_test.go:74-90 | OR of two event-type matchers accepts an event exactly when it has either type |
| Matcher.EventMatchers | matcher_test.go:92-95 | one event-type matcher per listed type, in the same order |
| Matcher.MatchAnyEventOf | matcher_test.go:92-109 | match-any-event-of rejects nil and accepts an event exactly when its type is among the listed ones |
| Aggregate.Aggregate.constructor | aggregate_test.go:33-35 | a created aggregate has the factory's type, the ID the factory gives for the requested one, version 0 and the initial state |
| Aggregate.Aggregate.ApplyEvent | aggregatestore/events/aggregatequerier.go:46 | applying an event installs the new state, or reports the apply error and leaves the state unchanged |
| Aggregate.Aggregate.IncrementVersion | aggregatestore/events/aggregatequerier.go:52 | the version goes up by exactly one |
| Aggregate.AggregateRegistry.constructor | aggregate_test.go:26-31 | a fresh registry knows no aggregate type |
| Aggregate.AggregateRegistry.RegisterAggregate | aggregate_test.go:33-82 | a nil factory, an empty type and an already registered type are refused in that order, each leaving the registry unchanged; otherwise exactly that type is added |
| Aggregate.AggregateRegistry.CreateAggregate | aggregate_test.go:26-48 | an unregistered type gives aggregate-not-registered; a registered one gives a new aggregate of that type whose ID is the one its factory gives for the requested ID |
| Aggregate.CreateAfterRegister | aggregate_test.go:26-48 | create fails before registration, registration succeeds, and create then yields the registered type and the requested ID, for a factory that keeps the ID it is given |
| Aggregate.RegisterTwice | aggregate_test.go:70-82 | a second registration of a type is refused as a duplicate, and the message names the type in quotes |
| Aggregate.RegistrationRefusalMessages | aggregate_test.go:50-68 | the messages for an empty aggregate type and for a nil aggregate |
| AggregateQuerier.ReplayStopsAtFailure | aggregatestore/events/aggregatequerier.go:41-51 | once replay has failed, later events change nothing |
| AggregateQuerier.ReplayCountsVersions | aggregatestore/events/aggregatequerier.go:52-55 | a successful replay ends at the initial version plus the number of events |
| AggregateQuerier.ReplayInOrder | aggregatestore/events/aggregatequerier.go:41 | replaying a stream is replaying its prefix and then its rest from where the prefix left off, so events apply strictly in stream order |
| AggregateQuerier.MismatchAborts | aggregatestore/events/aggregatequerier.go:42-44 | the first event of another aggregate type aborts replay with mismatched-event-type; neither it nor any later event is applied and the version stays |
| AggregateQuerier.ApplyFailureAborts | aggregatestore/events/aggregatequerier.go:46-51 | an apply failure aborts replay with an apply-event error carrying exactly that event and its error; no later event is applied |
| AggregateQuerier.StopsEarly | aggregatestore/events/aggregatequerier.go:41-55 | if a prefix of the stream fails, the whole stream gives the prefix's result |
| AggregateQuerier.ApplyEvents | aggregatestore/events/aggregatequerier.go:40-56 | the loop leaves the aggregate's state and version, and returns the error, exactly as the replay of the stream prescribes |
| AggregateQuerier.Load | aggregatestore/events/aggregatequerier.go:18-38 | the registry's error, invalid-aggregate-type for a non-event-sourced aggregate, the store's error unchanged (the stream is read under the created aggregate's own ID), the replay error, and otherwise an aggregate holding the replayed state and version; never a partially replayed aggregate |
| AggregateQuerier.LoadedVersionIsStreamLength | aggregatestore/events/aggregatequerier.go:28-37 | a freshly loaded aggregate's version is the length of its stream |
| Command.CheckCommand | command_test.go:90-168 | no error exactly when no field is missing; otherwise a missing-field error naming the first missing field |
| Command.CheckedKinds | command_test.go:97-155 | a required empty string, nil slice or map, zero time or zero struct is missing; a zero int, float or bool, an optional field and an unexported field are not; the message is "missing field: <name>" |
| Command.ArrayFields | command_test.go:157-167 | an array with an empty string element is missing; fully populated arrays are not |
| Command.CommandRegistry.constructor | command_test.go:25-29 | a fresh registry knows no command type |
| Command.CommandRegistry.RegisterCommand | command_test.go:42-68 | a nil command, an empty type and an already registered type are refused in that order, each leaving the registry unchanged; otherwise exactly that type is added |
| Command.CommandRegistry.UnregisterCommand | command_test.go:70-88 | the empty type and an unregistered type are refused, the latter naming the type; otherwise exactly that type is removed |
| Command.CommandRegistry.CreateCommand | command_test.go:25-40 | fails exactly for unregistered types, with command-not-registered; otherwise yields a command of the requested type |
| Command.CreateAfterRegister | command_test.go:25-40 | create fails before registration and yields the registered type after it |
| Command.RegisterTwice | command_test.go:60-68 | a second registration is refused as a duplicate, and the message names the type in quotes |
| Command.UnregisterTwice | command_test.go:79-88 | the first unregistration succeeds; the second is refused as non-registered, naming the type |
| Command.RegistrationRefusalMessages | command_test.go:42-77 | the messages for an empty command type, a nil command and unregistering the empty type |
| Context.NewContextWithNamespace | context_test.go:32-35 | the new context reads back the namespace it was given, keeps the minimum version, and keeps every value other than the namespace |
| Context.NamespaceFromContext | context_test.go:25-30 | a context without a namespace reads as the default one; a context holding a namespace reads as exactly that namespace; any other result is the namespace stored in the context |
| Context.NewContextWithMinVersion | context_test.go:58-68 | the new context reads back the minimum version it was given, as present, keeps the namespace, and keeps every value other than the minimum version |
| Context.MinVersionFromContext | context_test.go:58-63 | a version reported as present is the one stored in the context; one reported as absent is 0, and no version is stored |
| Context.BackgroundDefaults | context_test.go:25-30 | an empty context reads as the default namespace and as having no minimum version |
| Context.SetThenRead | context_test.go:32-35 | a namespace or minimum version set on a context reads back unchanged, the latter as present |
| Context.ContextCodec.constructor | context_test.go:91-94 | the codec starts with the two built-in marshalers and the two built-in unmarshalers |
| Context.ContextCodec.RegisterContextMarshaler | context_test.go:95-102 | registering appends exactly one marshaler |
| Context.ContextCodec.RegisterContextUnmarshaler | context_test.go:121-129 | registering appends exactly one unmarshaler |
| Context.ContextCodec.MarshalContext | context_test.go:37-40 | the loop produces exactly the values of running every registered marshaler in order on an empty map |
| Context.ContextCodec.UnmarshalContext | context_test.go:52-55 | the loop produces exactly the context of running every registered unmarshaler in order on an empty context |
| Context.BuiltinMarshal | context_test.go:37-40 | the built-in marshalers store the namespace and the minimum version under their key strings exactly when the context carries them |
| Context.BuiltinUnmarshal | context_test.go:82-88 | the built-in unmarshalers restore the namespace and the minimum version exactly when the map carries them |
| Context.BuiltinRoundTrip | context_test.go:37-55 | marshalling and then unmarshalling keeps the namespace and the minimum version |
| Context.RegisteredMarshaler | context_test.go:104-114 | a registered marshaler adds its key, with the context's value, exactly when the context carries that value |
| Context.RegisteredUnmarshaler | context_test.go:131-140 | a registered unmarshaler sets its value exactly when the map holds its key |
| Middleware.UseMiddleware | eventhandler_test.go:58-62 | the loop builds exactly the nested composition with the first listed middleware outermost |
| Middleware.ChainRunsInListedOrder | eventhandler_test.go:45-68 | a chain of recording middlewares runs each exactly once in listed order, then the inner handler on the same input |
| Middleware.HandlerFunc | eventhandler_test.go:27-43 | the adapter handles an input by calling the function once with that input and the world, and gives back its result |
| Middleware.HandlerFuncPassesEvent | eventhandler_test.go:27-68 | any handler function behind any chain of recording middlewares is called once with the unchanged input after every middleware has run; the test's collecting function ends up with exactly the one event |
| Middleware.EventMiddlewareOrder | eventhandler_test.go:58-67 | event-handler middlewares first, second and third run in that order, and the event reaches the inner handler |
| Middleware.CommandMiddlewareOrder | commandhandler_test.go:38-47 | command-handler middlewares first, second and third run in that order, and the command reaches the inner handler |
| EventBus.ErrorTextWithEvent | eventbus_test.go:25-74 | for every error and every event, the bus error text is the error's text (or "%!s(<nil>)" for a nil error), ": (", the event's type, "@", its version in decimal and ")" |
| EventBus.ErrorTextNilEvent | eventbus_test.go:45-56 | for every error, a nil event prints as "%!s(<nil>)" after the error's text; with both nil the text is "%!s(<nil>): (%!s(<nil>))" |
| EventBus.ErrorTextAtVersionZero | eventbus_test.go:31-43 | with a new event (version 0) the text ends in "(<type>@0)", after the error's message or after "%!s(<nil>)" |
| Repo.Repo.constructor | eventhandler/projector/eventhandler_test.go:31 | a repository with the given entities and the given storage failures |
| Repo.Repo.NewRepo | repo/memory/repo_test.go:28-34 | a new memory repository is empty and never fails |
| Repo.Repo.Find | eventhandler/projector/eventhandler_test.go:46-100 | a find reports the storage's failure when there is one; otherwise an ID that is stored gives exactly the entity stored under it, and an ID that is not gives entity-not-found |
| Repo.Repo.Save | eventhandler/projector/eventhandler_test.go:62-64 | a save stores the entity under its own ID, or reports the storage failure and changes nothing |
| Repo.Repo.Remove | eventhandler/projector/eventhandler_test.go:209-222 | a remove drops the entity with that ID, or reports the storage failure and changes nothing |
| Repo.Parent | repo/memory/repo_test.go:27-34 | a memory repository has no parent, and the layers reached from any repository are that repository followed by the layers reached from its parent |
| Repo.Repository | repo/memory/repo_test.go:45-60 | the walk finds a memory repository exactly when the chain of parents holds one, and then it is the last layer of the chain |
| Repo.RepositoryBase | repo/memory/repo_test.go:27-60 | a memory repository has no parent; nil and a parentless wrapper hold none; a wrapper over a memory repository yields it |
| Repo.AwaitVersion | eventhandler/projector/eventhandler_test.go:142-188 | the wait stops at the first attempt that settles, every earlier attempt having been a retry; if none settles it gives deadline-exceeded at the last attempt |
| Repo.AwaitedEntityIsRecentEnough | eventhandler/projector/eventhandler_test.go:173-188 | an entity returned by the wait is at or above the minimum version, never an older one |
| Repo.FindMinVersion | eventhandler/projector/eventhandler_test.go:173-177 | the versioned find on the repository returns the result of the versioned find over the current entities and those written meanwhile, and leaves the entities of the attempt it stopped at |
| Repo.AwaitMinVersion | eventhandler/projector/eventhandler_test.go:173-177 | the polling loop returns the first settled attempt over the current entities and those written meanwhile, or deadline-exceeded, and leaves the entities of the attempt it stopped at |
| Repo.AwaitFromIsAwaitVersion | eventhandler/projector/eventhandler_test.go:142-188 | waiting from any attempt on is the wait over the remaining attempts, its index shifted by that attempt's |
| Repo.VersionedFind | eventhandler/projector/eventhandler_test.go:142-188 | without a minimum version of at least 1 in the context it is a plain find of the current entities; with one, a found entity is at or above it; the result is the find of the snapshot it stopped at, or a deadline or no-version error |
| Repo.VersionedFindScenarios | eventhandler/projector/eventhandler_test.go:142-188 | version 1 advanced to version 2 before the deadline gives version 2; without the update it times out; an entity that is not yet there is waited for; without a requirement the current entity is returned |
| Projector.ErrorTextFrame | eventhandler/projector/eventhandler_test.go:371-440 | for every projector error, its text starts with "projector: " and ends with " (", the namespace and ")" |
| Projector.ErrorTextCases | eventhandler/projector/eventhandler_test.go:383-416 | the texts with only a base error, only a cause, and neither |
| Projector.EventErrorText | eventhandler/projector/eventhandler_test.go:417-425 | the text with only an event names its aggregate ID, aggregate type and event type |
| Projector.FindContext | eventhandler/projector/eventhandler_test.go:142-188 | the entity is looked up requiring the version before the event's, whatever minimum version the caller's context carried, with the namespace and every other value of that context kept |
| Projector.EventHandler.constructor | eventhandler/projector/eventhandler_test.go:31-36 | a handler over the given projector, repository and entity factory |
| Projector.EventHandler.HandleEvent | eventhandler/projector/eventhandler_test.go:30-304 | the reported error and the repository afterwards are those of the handling outcome for what the (possibly versioned) find returned |
| Projector.CreatesFromFactory | eventhandler/projector/eventhandler_test.go:30-65 | when the entity is not found, the projector receives the factory's entity and its result is saved under its ID |
| Projector.UpdatesFoundEntity | eventhandler/projector/eventhandler_test.go:67-140 | the projector receives the found entity and its result replaces it |
| Projector.RemovesOnNilResult | eventhandler/projector/eventhandler_test.go:191-223 | a nil projection removes the entity of the event's aggregate |
| Projector.FailuresAreWrapped | eventhandler/projector/eventhandler_test.go:225-304 | load, project and save errors are each reported as that error alone with the default namespace, and nothing is stored |
| Projector.FailureChangesNothing | eventhandler/projector/eventhandler_test.go:225-304 | any reported failure leaves the entities untouched and carries the context's namespace |
| Projector.VersionedNeverProjectsOntoStale | eventhandler/projector/eventhandler_test.go:142-188 | with a versioned repository, an event past version 1 is projected only onto an entity at the previous version or later |
| Projector.OutOfOrderEvent | eventhandler/projector/eventhandler_test.go:142-188 | an event of version 3 that arrives while the entity is at version 1 is projected onto the version-2 entity written meanwhile, and the result is saved |

## Left out

- Tracing, metrics and span-context propagation (opencensus/*.go, internal/oc/*.go). They only forward to the wrapped component and depend on a foreign library.
- Saving aggregates and events. The event store implementation and its optimistic-concurrency `Save` are not part of this model; `Load` reads the store through a function value.
- Real time, goroutines, sleeping and backoff in the versioned find. Successive repository snapshots replace them; the deadline is where the snapshots end.
- JSON encoding of marshalled contexts. The marshalled map keeps typed string and integer values, so the JSON float-to-int step is not modelled.
- Reflection in `CheckCommand`. A command's fields are an abstract list of name, exported flag, optional flag and value shape. A struct or array value counts as zero when every field or element in it is zero.
- `HandlerType` names built by printing a function value. They depend on how Go prints a function value's address.
- mocks/mocks_test.go. It repeats the context round trip through registrations made in the mocks package, which is not part of this model.
- The memory repository's per-namespace storage and its acceptance test (repo/AcceptanceTest). That test is not part of this model.
- The implementation files behind the tests: the registries, matchers, middleware, context, event bus, projector, memory repository and versioned repository packages are not part of this model. Their behaviour is taken from the tests listed above.
- Projector entity-version checks (previous entity version plus one against the event version). The projector implementation is not part of this model and no test exercises them.
- Panics of the global registries. They are error results of registry objects; registering into one global registry is not modelled.
- Constants and texts whose defining files are not part of this model, chosen as follows:
  - the default namespace "default";
  - the marshal key strings "eh_namespace" and "eh_minversion";
  - the texts of the sentinel errors: "aggregate not registered", "command not registered", "invalid aggregate type", "mismatched event type and aggregate type", "missing field: X", "entity has no version", "context deadline exceeded";
  - the apply-event error text, "failed to apply event <event>: <err>".
- Eh.Quote: it wraps a type name in double quotes without Go's `%q` escaping, so it is exact only for names without quotes, backslashes or control characters.
- Projector.ErrorText: the tests leave open how a cause and an event are separated when both are present. The model writes them one after the other.
- Repo.Repo.Remove: removing an ID that is not stored is not an error here. The memory repository's not-found answer for that case comes from a file that is not part of this model.
- Repo.FindMinVersion: an entity without a version is reported as entity-has-no-version on the first attempt that finds it. Context cancellation other than the deadline is not modelled.
- Aggregate.Aggregate.ApplyEvent: a failing apply leaves the aggregate's state unchanged. Go's ApplyEvent may change the aggregate before it returns an error. The model does not capture that partial change; the loader throws such an aggregate away on error, so what `Load` returns does not depend on it.

/**
 * The projector event handler: on each event it loads the read-model entity
 * of the event's aggregate, lets a projector compute its new state, and
 * saves or removes it.
 */
module Projector {
  import opened Wrappers
  import opened Entity
  import Eh
  import Context
  import Repo

  /** The error the handler reports: a cause, an optional base error, the namespace and the event. */
  datatype Error = Error(err: Option<Eh.Error>, baseErr: Option<Eh.Error>, namespace: string, event: Option<Eh.Event>)

  function OptionalText(e: Option<Eh.Error>): string
  {
    if e.Some? then Eh.Text(e.value) else ""
  }

  /**
   * "projector: <err>[: <base>][aggregate <id>, type <type>, event <type>] (<namespace>)";
   * an absent cause prints as nothing.
   */
  function ErrorText(e: Error): string
  {
    "projector: " + OptionalText(e.err) +
    (if e.baseErr.Some? then ": " + Eh.Text(e.baseErr.value) else "") +
    (if e.event.Some?
     then "aggregate " + e.event.value.aggregateId + ", type " + e.event.value.aggregateType +
          ", event " + e.event.value.eventType
     else "") +
    " (" + e.namespace + ")"
  }

  /** Every projector error text starts with "projector: " and ends with the namespace in parentheses. */
  lemma ErrorTextFrame(e: Error)
    ensures var s := ErrorText(e);
      && |s| >= |"projector: "| + |" ()"| + |e.namespace|
      && "projector: " <= s
      && s[|s| - |" (" + e.namespace + ")"|..] == " (" + e.namespace + ")"
  {
  }

  /** The renderings with only a base error, only a cause, and nothing. */
  lemma ErrorTextCases()
    ensures ErrorText(Error(None, Some(Eh.Custom("base error")), "", None)) == "projector: : base error ()"
    ensures ErrorText(Error(Some(Eh.Custom("error")), None, "", None)) == "projector: error ()"
    ensures ErrorText(Error(None, None, "", None)) == "projector:  ()"
  {
  }

  /** The rendering of an error holding only an event whose type, aggregate type and ID are "", "nil" and the nil UUID. */
  lemma EventErrorText(nilEvent: Eh.Event)
    requires nilEvent.eventType == "" && nilEvent.aggregateType == "nil" && nilEvent.aggregateId == NilUUID
    ensures ErrorText(Error(None, None, "", Some(nilEvent))) ==
            "projector: aggregate " + NilUUID + ", type nil, event  ()"
  {
  }

  /**
   * A projector: the new state of the entity after the event, nil to delete
   * the entity, or an error.
   */
  type ProjectFn = (Eh.Event, Entity) -> Result<Option<Entity>, Eh.Error>

  /** The error the handler reports for a failure `e` of a step. */
  function Wrap(e: Eh.Error, ctx: Context.Context): Error
  {
    Error(Some(e), None, Context.NamespaceFromContext(ctx), None)
  }

  /**
   * What handling `event` does once the entity has been looked up: the
   * reported error and the repository's entities afterwards, given the find's
   * result `loaded`, the entities `entities` at that time and the storage's
   * save and remove failures.
   */
  function Outcome(project: ProjectFn, factory: Entity, ctx: Context.Context, event: Eh.Event,
                   loaded: Repo.FindResult, entities: map<ID, Entity>,
                   saveErr: Option<Eh.Error>, removeErr: Option<Eh.Error>): (Option<Error>, map<ID, Entity>)
  {
    if loaded.FindFailed? then (Some(Wrap(loaded.err, ctx)), entities)
    else
      var entity := if loaded.Found? then loaded.entity else factory;
      match project(event, entity)
      case Failure(e) => (Some(Wrap(e, ctx)), entities)
      case Success(Some(next)) =>
        if saveErr.Some? then (Some(Wrap(saveErr.value, ctx)), entities)
        else (None, entities[next.id := next])
      case Success(None) =>
        if removeErr.Some? then (Some(Wrap(removeErr.value, ctx)), entities)
        else (None, entities - {event.aggregateId})
  }

  /**
   * The context the entity is looked up in: it requires the version before
   * the event's, replacing any requirement the caller's context carries, and
   * keeps the namespace and every other value of the caller's context.
   */
  function FindContext(ctx: Context.Context, event: Eh.Event): (c: Context.Context)
    ensures Context.MinVersionFromContext(c) == (event.version - 1, true)
    ensures Context.NamespaceFromContext(c) == Context.NamespaceFromContext(ctx)
    ensures forall k :: k != Context.MinVersionKey ==> (k in c <==> k in ctx) && (k in ctx ==> c[k] == ctx[k])
  {
    Context.NewContextWithMinVersion(ctx, event.version - 1)
  }

  /**
   * A projector event handler over a read-write repository, which may be
   * wrapped by the versioned repository, with the entity factory set.
   */
  class EventHandler {
    const project: ProjectFn
    const repo: Repo.Repo
    /** Whether the repository is wrapped by the versioned repository. */
    const versioned: bool
    /** The entity the factory makes, which a projector receives for a new entity. */
    const factory: Entity

    constructor (project: ProjectFn, repo: Repo.Repo, versioned: bool, factory: Entity)
      ensures this.project == project && this.repo == repo
      ensures this.versioned == versioned && this.factory == factory
    {
      this.project := project;
      this.repo := repo;
      this.versioned := versioned;
      this.factory := factory;
    }

    /**
     * The entity the find hands to the rest of the handling, with the index
     * of the snapshot (the current entities followed by `later`) it saw.
     */
    ghost function Lookup(ctx: Context.Context, event: Eh.Event, snapshots: seq<map<ID, Entity>>): (w: (Repo.FindResult, nat))
      reads this, repo
      requires |snapshots| > 0
      ensures w.1 < |snapshots|
    {
      if versioned then Repo.VersionedFind(FindContext(ctx, event), snapshots, event.aggregateId, repo.findErr)
      else (Repo.FindIn(snapshots[0], event.aggregateId, repo.findErr), 0)
    }

    /**
     * HandleEvent: finds the entity of the event's aggregate (waiting for the
     * previous version when the repository is versioned), falls back to the
     * factory's entity when there is none, projects the event and saves the
     * result, or removes the entity when the projector returns nil. Every
     * failure is reported with the context's namespace. `later` are the
     * entities other writers put in the repository during the wait.
     */
    method HandleEvent(ctx: Context.Context, event: Eh.Event, later: seq<map<ID, Entity>>) returns (err: Option<Error>)
      modifies repo`entities
      ensures var snapshots := [old(repo.entities)] + later;
              var w := Lookup(ctx, event, snapshots);
              (err, repo.entities) ==
                Outcome(project, factory, ctx, event, w.0, snapshots[w.1], repo.saveErr, repo.removeErr)
    {
      var loaded: Repo.FindResult;
      if versioned {
        loaded := Repo.FindMinVersion(repo, FindContext(ctx, event), event.aggregateId, later);
      } else {
        loaded := repo.Find(event.aggregateId);
      }
      if loaded.FindFailed? {
        return Some(Wrap(loaded.err, ctx));
      }
      var entity := if loaded.Found? then loaded.entity else factory;
      var projected := project(event, entity);
      if projected.Failure? {
        return Some(Wrap(projected.error, ctx));
      }
      var saveOrRemove: Option<Eh.Error>;
      if projected.value.Some? {
        saveOrRemove := repo.Save(projected.value.value);
      } else {
        saveOrRemove := repo.Remove(event.aggregateId);
      }
      if saveOrRemove.Some? {
        return Some(Wrap(saveOrRemove.value, ctx));
      }
      return None;
    }
  }

  /**
   * A new entity: when the find reports none, the projector receives the
   * factory's entity and its result is saved under its ID.
   */
  lemma CreatesFromFactory(project: ProjectFn, factory: Entity, ctx: Context.Context, event: Eh.Event,
                           entities: map<ID, Entity>, next: Entity)
    requires project(event, factory) == Success(Some(next))
    ensures Outcome(project, factory, ctx, event, Repo.NotFound, entities, None, None) == (None, entities[next.id := next])
  {
  }

  /** An existing entity: the projector receives it and its result replaces it. */
  lemma UpdatesFoundEntity(project: ProjectFn, factory: Entity, ctx: Context.Context, event: Eh.Event,
                           entities: map<ID, Entity>, current: Entity, next: Entity)
    requires project(event, current) == Success(Some(next))
    ensures Outcome(project, factory, ctx, event, Repo.Found(current), entities, None, None) == (None, entities[next.id := next])
  {
  }

  /** A nil result from the projector removes the entity of the event's aggregate. */
  lemma RemovesOnNilResult(project: ProjectFn, factory: Entity, ctx: Context.Context, event: Eh.Event,
                           entities: map<ID, Entity>, current: Entity)
    requires project(event, current) == Success(None)
    ensures Outcome(project, factory, ctx, event, Repo.Found(current), entities, None, None) == (None, entities - {event.aggregateId})
    ensures event.aggregateId !in Outcome(project, factory, ctx, event, Repo.Found(current), entities, None, None).1
  {
  }

  /**
   * A failed find, a failed projection and a failed save are each reported
   * as the failure alone with the context's namespace ("default" for the
   * background context), and leave the entities as they were.
   */
  lemma FailuresAreWrapped(project: ProjectFn, factory: Entity, event: Eh.Event,
                           entities: map<ID, Entity>, current: Entity, next: Entity, e: Eh.Error)
    ensures var ctx := Context.Background;
      && Outcome(project, factory, ctx, event, Repo.FindFailed(e), entities, None, None) ==
           (Some(Error(Some(e), None, "default", None)), entities)
      && (project(event, current).Failure? ==>
           Outcome(project, factory, ctx, event, Repo.Found(current), entities, None, None) ==
           (Some(Error(Some(project(event, current).error), None, "default", None)), entities))
      && (project(event, current) == Success(Some(next)) ==>
           Outcome(project, factory, ctx, event, Repo.Found(current), entities, Some(e), None) ==
           (Some(Error(Some(e), None, "default", None)), entities))
  {
  }

  /** Whatever goes wrong, a reported failure leaves the entities as the find saw them. */
  lemma FailureChangesNothing(project: ProjectFn, factory: Entity, ctx: Context.Context, event: Eh.Event,
                              loaded: Repo.FindResult, entities: map<ID, Entity>,
                              saveErr: Option<Eh.Error>, removeErr: Option<Eh.Error>)
    ensures var (err, after) := Outcome(project, factory, ctx, event, loaded, entities, saveErr, removeErr);
      err.Some? ==> after == entities && err.value.namespace == Context.NamespaceFromContext(ctx)
  {
  }

  /**
   * A versioned handler projects an event onto an entity at the version
   * before the event's or later, never onto an older one, whichever entities
   * other writers produce meanwhile.
   */
  lemma VersionedNeverProjectsOntoStale(h: EventHandler, ctx: Context.Context, event: Eh.Event,
                                         snapshots: seq<map<ID, Entity>>)
    requires h.versioned && event.version > 1 && |snapshots| > 0
    ensures var w := h.Lookup(ctx, event, snapshots);
      w.0.Found? ==> w.0.entity.version.Some? && w.0.entity.version.value >= event.version - 1
  {
    Repo.AwaitedEntityIsRecentEnough(Repo.Polls(snapshots, event.aggregateId, h.repo.findErr), event.version - 1);
  }

  /**
   * Events out of order: the repository holds the entity at version 1 when
   * the event of version 3 arrives, and a writer brings it to version 2
   * before the deadline; the projector receives the version-2 entity and its
   * result is saved.
   */
  lemma OutOfOrderEvent(h: EventHandler, event: Eh.Event, v1: Entity, v2: Entity, v3: Entity)
    requires h.versioned && h.repo.findErr == None && h.repo.saveErr == None
    requires event.version == 3
    requires v1.id == event.aggregateId && v1.version == Some(1)
    requires v2.id == event.aggregateId && v2.version == Some(2)
    requires h.project(event, v2) == Success(Some(v3))
    ensures var snapshots := [map[event.aggregateId := v1], map[event.aggregateId := v2]];
      var w := h.Lookup(Context.Background, event, snapshots);
      && w == (Repo.Found(v2), 1)
      && Outcome(h.project, h.factory, Context.Background, event, w.0, snapshots[w.1], h.repo.saveErr, h.repo.removeErr) ==
         (None, map[event.aggregateId := v2][v3.id := v3])
  {
    var c := FindContext(Context.Background, event);
    assert Context.MinVersionFromContext(c) == (2, true);
    var polls := Repo.Polls([map[event.aggregateId := v1], map[event.aggregateId := v2]], event.aggregateId, None);
    assert polls[1..] == [Repo.Found(v2)];
  }
}

/**
 * Read-model repositories: a read-write repository of entities, the walk
 * that finds the memory repository under a chain of wrapping repositories,
 * and the versioned find that waits for an entity to reach a minimum version.
 */
module Repo {
  import opened Wrappers
  import opened Entity
  import opened Eh
  import Context

  /** What a find reports: the entity, entity-not-found, or another error. */
  datatype FindResult = Found(entity: Entity) | NotFound | FindFailed(err: Error)

  /** A find over the entities `entities` of a backend that fails every find with `findErr`, if set. */
  function FindIn(entities: map<ID, Entity>, id: ID, findErr: Option<Error>): FindResult
  {
    if findErr.Some? then FindFailed(findErr.value)
    else if id in entities then Found(entities[id])
    else NotFound
  }

  /**
   * A read-write repository of entities by ID. `findErr`, `saveErr` and
   * `removeErr` stand for failures of the storage behind it.
   */
  class Repo {
    var entities: map<ID, Entity>
    var findErr: Option<Error>
    var saveErr: Option<Error>
    var removeErr: Option<Error>

    constructor (entities: map<ID, Entity>, findErr: Option<Error>, saveErr: Option<Error>, removeErr: Option<Error>)
      ensures this.entities == entities && this.findErr == findErr
      ensures this.saveErr == saveErr && this.removeErr == removeErr
    {
      this.entities := entities;
      this.findErr := findErr;
      this.saveErr := saveErr;
      this.removeErr := removeErr;
    }

    /** An empty in-memory repository, whose storage never fails. */
    constructor NewRepo()
      ensures entities == map[] && findErr == None && saveErr == None && removeErr == None
    {
      entities := map[];
      findErr, saveErr, removeErr := None, None, None;
    }

    /** The stored entity, entity-not-found, or the storage's failure, which comes first. */
    function Find(id: ID): (r: FindResult)
      reads this
      ensures findErr.Some? ==> r == FindFailed(findErr.value)
      ensures findErr.None? ==> (r.NotFound? <==> id !in entities)
      ensures r.Found? ==> id in entities && r.entity == entities[id]
      ensures findErr.None? && id in entities ==> r == Found(entities[id])
    {
      FindIn(entities, id, findErr)
    }

    /** Stores `e` under its own ID, unless the storage fails. */
    method Save(e: Entity) returns (err: Option<Error>)
      modifies this`entities
      ensures err == saveErr
      ensures entities == if saveErr.Some? then old(entities) else old(entities)[e.id := e]
    {
      err := saveErr;
      if err.None? {
        entities := entities[e.id := e];
      }
    }

    /** Drops the entity with ID `id`, unless the storage fails. */
    method Remove(id: ID) returns (err: Option<Error>)
      modifies this`entities
      ensures err == removeErr
      ensures entities == if removeErr.Some? then old(entities) else old(entities) - {id}
    {
      err := removeErr;
      if err.None? {
        entities := entities - {id};
      }
    }
  }

  /** A repository as a layer of a chain: the memory repository, or a repository wrapping a parent. */
  datatype ReadRepo = Memory(repo: Repo) | Wrapper(parentRepo: Option<ReadRepo>)

  /** The repository a layer wraps; the memory repository wraps none. */
  function Parent(r: ReadRepo): (p: Option<ReadRepo>)
    ensures r.Memory? ==> p.None?
    ensures Layers(Some(r)) == [r] + Layers(p)
  {
    match r
    case Memory(_) => None
    case Wrapper(p) => p
  }

  /** The layers reached from `r` by following parents. */
  function Layers(r: Option<ReadRepo>): seq<ReadRepo>
    decreases r
  {
    match r
    case None => []
    case Some(layer) =>
      match layer
      case Memory(_) => [layer]
      case Wrapper(p) => [layer] + Layers(p)
  }

  /**
   * memory.Repository: the memory repository found by walking up the parents
   * from `r`, or nil when the chain holds none.
   */
  function Repository(r: Option<ReadRepo>): (m: Option<Repo>)
    ensures m.Some? <==> exists i :: 0 <= i < |Layers(r)| && Layers(r)[i].Memory?
    ensures m.Some? ==> Layers(r)[|Layers(r)| - 1] == Memory(m.value)
    decreases r
  {
    match r
    case None => None
    case Some(layer) =>
      match layer
      case Memory(repo) =>
        assert Layers(r)[0].Memory?;
        Some(repo)
      case Wrapper(p) =>
        var below := Repository(p);
        assert forall i :: 1 <= i < |Layers(r)| ==> Layers(r)[i] == Layers(p)[i - 1];
        assert below.Some? ==> exists i :: 0 <= i < |Layers(p)| && Layers(p)[i].Memory? && Layers(r)[i + 1].Memory?;
        assert (exists i :: 0 <= i < |Layers(r)| && Layers(r)[i].Memory?) ==>
               exists i :: 0 <= i < |Layers(p)| && Layers(p)[i].Memory?;
        below
  }

  /** A new memory repository has no parent; nil, and a wrapper without a parent, hold no memory repository. */
  lemma RepositoryBase(repo: Repo)
    ensures Parent(Memory(repo)) == None
    ensures Repository(None) == None
    ensures Repository(Some(Wrapper(None))) == None
    ensures Repository(Some(Wrapper(Some(Memory(repo))))) == Some(repo)
  {
  }

  /**
   * One attempt of the versioned find: a found entity at or above the minimum
   * version, or any other error, settles it; an entity without a version is an
   * error; not found and an older version mean try again (`None`).
   */
  function Attempt(r: FindResult, minVersion: int): Option<FindResult>
  {
    match r
    case FindFailed(_) => Some(r)
    case NotFound => None
    case Found(e) =>
      if e.version.None? then Some(FindFailed(EntityNoVersion))
      else if e.version.value >= minVersion then Some(r)
      else None
  }

  /**
   * Polls `polls` in order, the finds that fit before the deadline, and gives
   * the first settled attempt and its index; DeadlineExceeded at the last
   * index when none settles.
   */
  function AwaitVersion(polls: seq<FindResult>, minVersion: int): (w: (FindResult, nat))
    requires |polls| > 0
    ensures w.1 < |polls|
    ensures forall j :: 0 <= j < w.1 ==> Attempt(polls[j], minVersion).None?
    ensures Attempt(polls[w.1], minVersion).Some? ==> w.0 == Attempt(polls[w.1], minVersion).value
    ensures Attempt(polls[w.1], minVersion).None? ==> w.1 == |polls| - 1 && w.0 == FindFailed(DeadlineExceeded)
    decreases |polls|
  {
    match Attempt(polls[0], minVersion)
    case Some(r) => (r, 0)
    case None =>
      if |polls| == 1 then (FindFailed(DeadlineExceeded), 0)
      else
        var w := AwaitVersion(polls[1..], minVersion);
        (w.0, w.1 + 1)
  }

  /** The finds over successive snapshots of the repository's entities. */
  function Polls(snapshots: seq<map<ID, Entity>>, id: ID, findErr: Option<Error>): (polls: seq<FindResult>)
    ensures |polls| == |snapshots|
    ensures forall k :: 0 <= k < |snapshots| ==> polls[k] == FindIn(snapshots[k], id, findErr)
  {
    seq(|snapshots|, k requires 0 <= k < |snapshots| => FindIn(snapshots[k], id, findErr))
  }

  /** A versioned find settles on an entity only at or above the minimum version, never on an older one. */
  lemma {:induction false} AwaitedEntityIsRecentEnough(polls: seq<FindResult>, minVersion: int)
    requires |polls| > 0
    ensures var w := AwaitVersion(polls, minVersion);
      w.0.Found? ==> w.0 == polls[w.1] && w.0.entity.version.Some? && w.0.entity.version.value >= minVersion
  {
  }

  /**
   * The versioned find (repo/version) over the snapshots of the repository's
   * entities: the first is the current one, the others are those that other
   * writers produce before the deadline, one per further attempt. Without a
   * minimum version in the context, or with one below 1, it is a plain find
   * of the current snapshot; otherwise it waits for that version. Gives the
   * result and the index of the snapshot it stopped at.
   */
  function VersionedFind(ctx: Context.Context, snapshots: seq<map<ID, Entity>>, id: ID, findErr: Option<Error>): (w: (FindResult, nat))
    requires |snapshots| > 0
    ensures w.1 < |snapshots|
    ensures var (minVersion, ok) := Context.MinVersionFromContext(ctx);
      !ok || minVersion < 1 ==> w == (FindIn(snapshots[0], id, findErr), 0)
    ensures var (minVersion, ok) := Context.MinVersionFromContext(ctx);
      ok && minVersion >= 1 && w.0.Found? ==> w.0.entity.version.Some? && w.0.entity.version.value >= minVersion
    ensures w.0 == FindIn(snapshots[w.1], id, findErr) ||
            w.0 == FindFailed(DeadlineExceeded) || w.0 == FindFailed(EntityNoVersion)
  {
    var (minVersion, ok) := Context.MinVersionFromContext(ctx);
    if !ok || minVersion < 1 then (FindIn(snapshots[0], id, findErr), 0)
    else
      var polls := Polls(snapshots, id, findErr);
      AwaitedEntityIsRecentEnough(polls, minVersion);
      AwaitVersion(polls, minVersion)
  }

  /**
   * The two ways of the versioned find, exactly as its definition takes them;
   * stated once as a lemma so that the method implementing the find need not
   * unfold the definition together with its postconditions.
   */
  lemma VersionedFindUnfolds(ctx: Context.Context, snapshots: seq<map<ID, Entity>>, id: ID, findErr: Option<Error>)
    requires |snapshots| > 0
    ensures var (minVersion, ok) := Context.MinVersionFromContext(ctx);
      VersionedFind(ctx, snapshots, id, findErr) ==
        if !ok || minVersion < 1 then (FindIn(snapshots[0], id, findErr), 0)
        else AwaitVersion(Polls(snapshots, id, findErr), minVersion)
  {
  }

  /**
   * The wait started at poll `k`: the first settled attempt from there on,
   * with its index. It is the same wait as `AwaitVersion`, written over an
   * index instead of a suffix so that the poll loop's invariant stays cheap
   * to check; `AwaitFromIsAwaitVersion` proves the two agree.
   */
  function AwaitFrom(polls: seq<FindResult>, k: nat, minVersion: int): (FindResult, nat)
    requires k < |polls|
    decreases |polls| - k
  {
    match Attempt(polls[k], minVersion)
    case Some(r) => (r, k)
    case None =>
      if k == |polls| - 1 then (FindFailed(DeadlineExceeded), k)
      else AwaitFrom(polls, k + 1, minVersion)
  }

  /** Waiting from poll `k` is waiting on the polls that remain, with the index shifted by `k`. */
  lemma {:induction false} AwaitFromIsAwaitVersion(polls: seq<FindResult>, k: nat, minVersion: int)
    requires k < |polls|
    ensures var w := AwaitVersion(polls[k..], minVersion); AwaitFrom(polls, k, minVersion) == (w.0, w.1 + k)
    decreases |polls| - k
  {
    assert polls[k..][0] == polls[k];
    if Attempt(polls[k], minVersion).None? && k < |polls| - 1 {
      assert polls[k..][1..] == polls[k + 1..];
      AwaitFromIsAwaitVersion(polls, k + 1, minVersion);
    }
  }

  /**
   * version.Repo.Find on `repo`, where `later` are the entities other writers
   * put in the repository before the deadline, one before each further attempt.
   */
  method FindMinVersion(repo: Repo, ctx: Context.Context, id: ID, later: seq<map<ID, Entity>>) returns (r: FindResult)
    modifies repo`entities
    ensures var snapshots := [old(repo.entities)] + later;
            var w := VersionedFind(ctx, snapshots, id, repo.findErr);
            r == w.0 && repo.entities == snapshots[w.1]
  {
    VersionedFindUnfolds(ctx, [repo.entities] + later, id, repo.findErr);
    var (minVersion, ok) := Context.MinVersionFromContext(ctx);
    if !ok || minVersion < 1 {
      return repo.Find(id);
    }
    r := AwaitMinVersion(repo, id, later, minVersion);
  }

  /** The poll loop of the versioned find: one find per snapshot until an attempt settles or the snapshots run out. */
  method AwaitMinVersion(repo: Repo, id: ID, later: seq<map<ID, Entity>>, minVersion: int) returns (r: FindResult)
    modifies repo`entities
    ensures var snapshots := [old(repo.entities)] + later;
            var w := AwaitVersion(Polls(snapshots, id, repo.findErr), minVersion);
            r == w.0 && repo.entities == snapshots[w.1]
  {
    ghost var snapshots := [repo.entities] + later;
    ghost var polls := Polls(snapshots, id, repo.findErr);
    AwaitFromIsAwaitVersion(polls, 0, minVersion);
    assert polls[0..] == polls;
    ghost var target := AwaitFrom(polls, 0, minVersion);
    var k := 0;
    while true
      invariant 0 <= k < |snapshots|
      invariant repo.entities == snapshots[k]
      invariant target == AwaitFrom(polls, k, minVersion)
      decreases |snapshots| - k
    {
      assert polls[k] == repo.Find(id);
      var attempt := Attempt(repo.Find(id), minVersion);
      if attempt.Some? {
        return attempt.value;
      }
      if k == |later| {
        return FindFailed(DeadlineExceeded);
      }
      repo.entities := later[k];
      k := k + 1;
    }
  }

  /**
   * An entity at version 1 that a concurrent writer advances: a find
   * requiring version 2 (3) gives the advanced entity when the update lands
   * before the deadline, and DeadlineExceeded when it does not; an entity not
   * yet projected is waited for rather than reported missing; without a
   * requirement the current entity is returned at once.
   */
  lemma VersionedFindScenarios(id: ID, old1: Entity, new2: Entity)
    requires old1.id == id && old1.version == Some(1)
    requires new2.id == id && new2.version == Some(2)
    ensures var ctx := Context.NewContextWithMinVersion(Context.Background, 2);
      && VersionedFind(ctx, [map[id := old1], map[id := new2]], id, None) == (Found(new2), 1)
      && VersionedFind(ctx, [map[id := old1]], id, None) == (FindFailed(DeadlineExceeded), 0)
      && VersionedFind(ctx, [map[], map[id := new2]], id, None) == (Found(new2), 1)
      && VersionedFind(Context.Background, [map[id := old1], map[id := new2]], id, None) == (Found(old1), 0)
  {
    var ctx := Context.NewContextWithMinVersion(Context.Background, 2);
    assert Context.MinVersionFromContext(ctx) == (2, true);
    var polls := Polls([map[id := old1], map[id := new2]], id, None);
    assert polls[1..] == [Found(new2)];
    var empty: map<ID, Entity> := map[];
    var polls' := Polls([empty, map[id := new2]], id, None);
    assert polls'[1..] == [Found(new2)];
  }
}

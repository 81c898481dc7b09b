/** The entity revision lookup contract: a store seen through a replica snapshot
    and a master snapshot, read in one of three modes. A redirect at the
    requested id is reported, never followed; a missing entity gives null
    (None) rather than an error. */
module RevisionLookup {
  import opened Wrappers
  import opened EntityIds
  import opened DataModel

  /** One stored revision of an entity. */
  datatype EntityRevision = EntityRevision(entity: Entity, revisionId: nat, timestamp: string)

  /** What a snapshot holds for one entity id: the entity's revisions (oldest
      first), a redirect to another id (with the redirect's own revision id),
      or a page whose latest revision is known but whose content cannot be loaded. */
  datatype PageContent =
    | EntityPage(history: seq<EntityRevision>)
    | RedirectPage(target: EntityId, redirectRevisionId: nat)
    | UnreadablePage(latestRevisionId: nat, reason: string)

  type Snapshot = map<EntityId, PageContent>

  /** The lagging replica and the authoritative master. */
  datatype Store = Store(replica: Snapshot, master: Snapshot)

  /** LATEST_FROM_SLAVE, LATEST_FROM_SLAVE_WITH_FALLBACK and LATEST_FROM_MASTER. */
  datatype Mode = LatestFromSlave | LatestFromSlaveWithFallback | LatestFromMaster

  datatype StorageFailure =
    | RevisionNotFound(requested: nat)
    | RevisionOfOtherEntity(requested: nat)
    | ContentUnreadable(reason: string)

  /** The two exceptions getEntityRevision may raise. */
  datatype LookupError =
    | UnresolvedRedirect(redirectTarget: EntityId, redirectRevisionId: nat)
    | StorageError(failure: StorageFailure)

  /** EntityRevision|null, or a raised LookupError. */
  type RevisionResult = Result<Option<EntityRevision>, LookupError>

  function Last<T>(s: seq<T>): T
    requires |s| > 0
  {
    s[|s| - 1]
  }

  /** The position of the newest revision in `history` with the given id. */
  function FindRevision(history: seq<EntityRevision>, revisionId: nat): (r: Option<nat>)
    ensures r.Some? ==> r.value < |history| && history[r.value].revisionId == revisionId
    ensures r.Some? ==> forall k :: r.value < k < |history| ==> history[k].revisionId != revisionId
    ensures r.None? ==> forall k :: 0 <= k < |history| ==> history[k].revisionId != revisionId
  {
    if |history| == 0 then None
    else if Last(history).revisionId == revisionId then Some(|history| - 1)
    else FindRevision(history[..|history| - 1], revisionId)
  }

  /** `k` is the newest position in `history` holding revision `revisionId`. */
  predicate IsNewestWithId(history: seq<EntityRevision>, k: int, revisionId: nat) {
    && 0 <= k < |history| && history[k].revisionId == revisionId
    && forall j :: k < j < |history| ==> history[j].revisionId != revisionId
  }

  /** The snapshot holds revisions of `id`, none of them numbered `revisionId`. */
  predicate LacksRevision(snapshot: Snapshot, id: EntityId, revisionId: nat) {
    && id in snapshot && snapshot[id].EntityPage? && |snapshot[id].history| > 0
    && forall k :: 0 <= k < |snapshot[id].history| ==> snapshot[id].history[k].revisionId != revisionId
  }

  /** The page of `id` holds revision `revisionId`, but only with content of another entity. */
  predicate HoldsOnlyForeignRevision(snapshot: Snapshot, id: EntityId, revisionId: nat) {
    && id in snapshot && snapshot[id].EntityPage?
    && (exists k :: 0 <= k < |snapshot[id].history| && snapshot[id].history[k].revisionId == revisionId)
    && forall k :: 0 <= k < |snapshot[id].history| && snapshot[id].history[k].revisionId == revisionId ==>
         snapshot[id].history[k].entity.Id() != Some(id)
  }

  /** getEntityRevision against one snapshot. Revision 0 asks for the latest. */
  function ReadRevision(snapshot: Snapshot, id: EntityId, revisionId: nat): (r: RevisionResult)
    ensures id !in snapshot ==> r == Success(None)
    ensures id in snapshot && snapshot[id].RedirectPage? ==>
      r == Failure(UnresolvedRedirect(snapshot[id].target, snapshot[id].redirectRevisionId))
    ensures r.Success? && r.value.Some? ==>
      && id in snapshot && snapshot[id].EntityPage?
      && r.value.value in snapshot[id].history
      && r.value.value.entity.Id() == Some(id)
      && (revisionId == 0 ==> r.value.value == Last(snapshot[id].history))
      && (revisionId != 0 ==> r.value.value.revisionId == revisionId)
    ensures id in snapshot && snapshot[id].UnreadablePage? ==>
      r == Failure(StorageError(ContentUnreadable(snapshot[id].reason)))
    ensures id in snapshot && snapshot[id].EntityPage? && |snapshot[id].history| == 0 ==> r == Success(None)
    ensures revisionId == 0 && id in snapshot && snapshot[id].EntityPage? && |snapshot[id].history| > 0 ==>
      && (Last(snapshot[id].history).entity.Id() == Some(id) ==> r == Success(Some(Last(snapshot[id].history))))
      && (Last(snapshot[id].history).entity.Id() != Some(id) ==> r.Failure? && r.error.StorageError?)
    ensures revisionId != 0 && LacksRevision(snapshot, id, revisionId) ==>
      r == Failure(StorageError(RevisionNotFound(revisionId)))
    ensures revisionId != 0 && HoldsOnlyForeignRevision(snapshot, id, revisionId) ==>
      r == Failure(StorageError(RevisionOfOtherEntity(revisionId)))
    ensures revisionId != 0 && id in snapshot && snapshot[id].EntityPage? ==>
      forall k :: IsNewestWithId(snapshot[id].history, k, revisionId) && snapshot[id].history[k].entity.Id() == Some(id)
        ==> r == Success(Some(snapshot[id].history[k]))
  {
    if id !in snapshot then Success(None)
    else
      match snapshot[id]
      case RedirectPage(target, rev) => Failure(UnresolvedRedirect(target, rev))
      case UnreadablePage(_, reason) => Failure(StorageError(ContentUnreadable(reason)))
      case EntityPage(history) =>
        if |history| == 0 then Success(None)
        else
          var k := if revisionId == 0 then Some(|history| - 1) else FindRevision(history, revisionId);
          if k.None? then Failure(StorageError(RevisionNotFound(revisionId)))
          else if history[k.value].entity.Id() != Some(id) then
            Failure(StorageError(RevisionOfOtherEntity(revisionId)))
          else Success(Some(history[k.value]))
  }

  /** A replica read "could not find" the entity or the revision. */
  predicate IsMiss(r: RevisionResult) {
    r == Success(None) || (r.Failure? && r.error.StorageError? && r.error.failure.RevisionNotFound?)
  }

  /** EntityRevisionLookup::getEntityRevision. */
  function GetEntityRevision(
    store: Store, id: EntityId, revisionId: nat := 0, mode: Mode := LatestFromSlave): (r: RevisionResult)
    ensures r.Success? && r.value.Some? ==>
      && r.value.value.entity.Id() == Some(id)
      && (revisionId != 0 ==> r.value.value.revisionId == revisionId)
  {
    match mode
    case LatestFromSlave => ReadRevision(store.replica, id, revisionId)
    case LatestFromMaster => ReadRevision(store.master, id, revisionId)
    case LatestFromSlaveWithFallback =>
      var fromReplica := ReadRevision(store.replica, id, revisionId);
      if IsMiss(fromReplica) then ReadRevision(store.master, id, revisionId) else fromReplica
  }

  /** The latest revision id a snapshot records for `id`, raising for a redirect. */
  function ReadLatestRevision(snapshot: Snapshot, id: EntityId): (r: Result<Option<nat>, LookupError>)
    ensures r.Failure? <==> id in snapshot && snapshot[id].RedirectPage?
    ensures r.Failure? ==> r.error == UnresolvedRedirect(snapshot[id].target, snapshot[id].redirectRevisionId)
  {
    if id !in snapshot then Success(None)
    else
      match snapshot[id]
      case EntityPage(history) => if |history| == 0 then Success(None) else Success(Some(Last(history).revisionId))
      case RedirectPage(target, rev) => Failure(UnresolvedRedirect(target, rev))
      case UnreadablePage(latest, _) => Success(Some(latest))
  }

  /** The latest revision id in the given mode, raising for a redirect: the
      behaviour of a lookup that signals redirects by an exception. */
  function LatestRevisionOrRedirect(store: Store, id: EntityId, mode: Mode := LatestFromSlave)
    : (r: Result<Option<nat>, LookupError>)
    ensures r.Failure? ==> r.error.UnresolvedRedirect?
  {
    match mode
    case LatestFromSlave => ReadLatestRevision(store.replica, id)
    case LatestFromMaster => ReadLatestRevision(store.master, id)
    case LatestFromSlaveWithFallback =>
      var fromReplica := ReadLatestRevision(store.replica, id);
      if fromReplica == Success(None) then ReadLatestRevision(store.master, id) else fromReplica
  }

  /** EntityRevisionLookup::getLatestRevisionId: None stands for false, and a
      redirect counts as a missing entity. */
  function GetLatestRevisionId(store: Store, id: EntityId, mode: Mode := LatestFromSlave): (r: Option<nat>)
    ensures r.Some? <==> LatestRevisionOrRedirect(store, id, mode).Success?
                         && LatestRevisionOrRedirect(store, id, mode).value.Some?
  {
    match LatestRevisionOrRedirect(store, id, mode)
    case Success(latest) => latest
    case Failure(_) => None
  }

  /** The snapshot a read in this mode consults first. */
  function FirstSnapshot(store: Store, mode: Mode): Snapshot {
    if mode == LatestFromMaster then store.master else store.replica
  }

  // ---------------------------------------------------------------------------
  // Properties of the contract

  /** A redirect in the snapshot a mode reads first surfaces as an unresolved
      redirect naming its immediate target, in every mode, for any revision. */
  lemma RedirectIsReported(store: Store, id: EntityId, revisionId: nat, mode: Mode)
    requires id in FirstSnapshot(store, mode) && FirstSnapshot(store, mode)[id].RedirectPage?
    ensures GetEntityRevision(store, id, revisionId, mode)
      == Failure(UnresolvedRedirect(FirstSnapshot(store, mode)[id].target,
                                    FirstSnapshot(store, mode)[id].redirectRevisionId))
    ensures GetLatestRevisionId(store, id, mode) == None
  {
  }

  /** An entity missing from both snapshots is "not found": null and false, not an error. */
  lemma MissingEntityIsNull(store: Store, id: EntityId, revisionId: nat, mode: Mode)
    requires id !in store.replica && id !in store.master
    ensures GetEntityRevision(store, id, revisionId, mode) == Success(None)
    ensures GetLatestRevisionId(store, id, mode) == None
  {
  }

  /** Master mode never looks at the replica, slave mode never at the master,
      and the fallback mode answers from the replica unless the replica misses. */
  lemma ModesReadTheirSnapshots(store: Store, other: Store, id: EntityId, revisionId: nat)
    ensures other.master == store.master ==>
      GetEntityRevision(other, id, revisionId, LatestFromMaster)
        == GetEntityRevision(store, id, revisionId, LatestFromMaster)
    ensures other.replica == store.replica ==>
      GetEntityRevision(other, id, revisionId, LatestFromSlave)
        == GetEntityRevision(store, id, revisionId, LatestFromSlave)
    ensures !IsMiss(GetEntityRevision(store, id, revisionId, LatestFromSlave)) ==>
      GetEntityRevision(store, id, revisionId, LatestFromSlaveWithFallback)
        == GetEntityRevision(store, id, revisionId, LatestFromSlave)
    ensures IsMiss(GetEntityRevision(store, id, revisionId, LatestFromSlave)) ==>
      GetEntityRevision(store, id, revisionId, LatestFromSlaveWithFallback)
        == GetEntityRevision(store, id, revisionId, LatestFromMaster)
  {
  }

  /** Revision 0 means "latest": the revision it returns carries the id that
      getLatestRevisionId reports, and asking for that id explicitly gives the
      same answer. */
  lemma {:induction false} ZeroMeansLatest(store: Store, id: EntityId, mode: Mode)
    requires GetEntityRevision(store, id, 0, mode).Success?
    requires GetEntityRevision(store, id, 0, mode).value.Some?
    ensures GetLatestRevisionId(store, id, mode)
      == Some(GetEntityRevision(store, id, 0, mode).value.value.revisionId)
    ensures var latest := GetEntityRevision(store, id, 0, mode).value.value.revisionId;
      latest != 0 ==> GetEntityRevision(store, id, latest, mode) == GetEntityRevision(store, id, 0, mode)
  {
    var s := if mode == LatestFromMaster then store.master
             else if mode == LatestFromSlave then store.replica
             else if IsMiss(ReadRevision(store.replica, id, 0)) then store.master
             else store.replica;
    assert GetEntityRevision(store, id, 0, mode) == ReadRevision(s, id, 0);
    var h := s[id].history;
    var latest := Last(h).revisionId;
    assert ReadLatestRevision(s, id) == Success(Some(latest));
    var viaMaster := mode == LatestFromSlaveWithFallback && IsMiss(ReadRevision(store.replica, id, 0));
    if viaMaster {
      assert id !in store.replica || (store.replica[id].EntityPage? && store.replica[id].history == []);
    }
    if latest != 0 {
      assert FindRevision(h, latest) == Some(|h| - 1);
      assert ReadRevision(s, id, latest) == ReadRevision(s, id, 0);
    }
  }

  /** A nonzero revision the answering snapshot does not hold raises a storage
      error rather than giving null; in the fallback mode the replica's miss
      sends the read to the master, which must lack it too. */
  lemma MissingRevisionRaises(store: Store, id: EntityId, revisionId: nat, mode: Mode)
    requires revisionId != 0
    requires LacksRevision(FirstSnapshot(store, mode), id, revisionId)
    requires mode == LatestFromSlaveWithFallback ==> LacksRevision(store.master, id, revisionId)
    ensures GetEntityRevision(store, id, revisionId, mode) == Failure(StorageError(RevisionNotFound(revisionId)))
  {
  }

  /** A nonzero revision that belongs to another entity raises a storage error,
      in every mode: the replica's answer is not a miss, so the fallback mode keeps it. */
  lemma ForeignRevisionRaises(store: Store, id: EntityId, revisionId: nat, mode: Mode)
    requires revisionId != 0
    requires HoldsOnlyForeignRevision(FirstSnapshot(store, mode), id, revisionId)
    ensures GetEntityRevision(store, id, revisionId, mode) == Failure(StorageError(RevisionOfOtherEntity(revisionId)))
  {
  }

  /** A revision of the entity that the snapshot read first holds is returned, in every mode. */
  lemma ExistingRevisionIsFound(store: Store, id: EntityId, revisionId: nat, mode: Mode, k: nat)
    requires id in FirstSnapshot(store, mode) && FirstSnapshot(store, mode)[id].EntityPage?
    requires revisionId == 0 ==> k == |FirstSnapshot(store, mode)[id].history| - 1
    requires revisionId != 0 ==> IsNewestWithId(FirstSnapshot(store, mode)[id].history, k, revisionId)
    requires k < |FirstSnapshot(store, mode)[id].history|
    requires FirstSnapshot(store, mode)[id].history[k].entity.Id() == Some(id)
    ensures GetEntityRevision(store, id, revisionId, mode) == Success(Some(FirstSnapshot(store, mode)[id].history[k]))
  {
  }
}

/** Turning an entity into a redirect: the request-parameter parsing of the
    API front end, the guard checks on target and source, and the write into
    the entity store, with the string error codes the API reports. */
module CreateRedirect {
  import opened Wrappers
  import opened EntityIds
  import opened DataModel
  import opened RevisionLookup

  /** A redirect from `entityId` to `targetId`. */
  datatype EntityRedirect = EntityRedirect(entityId: EntityId, targetId: EntityId)

  /** What the EntityRedirect constructor accepts: ids of one type, and not the same id. */
  predicate IsWellFormedRedirect(entityId: EntityId, targetId: EntityId) {
    entityId.entityType == targetId.entityType && entityId != targetId
  }

  /** `new EntityRedirect(...)`; a Failure stands for its InvalidArgumentException. */
  function NewEntityRedirect(entityId: EntityId, targetId: EntityId): (r: Result<EntityRedirect, string>)
    ensures r.Success? <==> IsWellFormedRedirect(entityId, targetId)
    ensures r.Success? ==> r.value.entityId == entityId && r.value.targetId == targetId
  {
    if entityId.entityType != targetId.entityType then Failure("incompatible entity types")
    else if entityId == targetId then Failure("an entity cannot redirect to itself")
    else Success(EntityRedirect(entityId, targetId))
  }

  /** The string codes of RedirectCreationException and of the API errors. */
  datatype ErrorCode =
    | InvalidEntityId
    | NotEmpty
    | NoSuchEntity
    | TargetIsRedirect
    | TargetIsIncompatible
    | CantRedirect
    | CantLoadEntityContent

  function StringCode(code: ErrorCode): string {
    match code
    case InvalidEntityId => "invalid-entity-id"
    case NotEmpty => "not-empty"
    case NoSuchEntity => "no-such-entity"
    case TargetIsRedirect => "target-is-redirect"
    case TargetIsIncompatible => "target-is-incompatible"
    case CantRedirect => "cant-redirect"
    case CantLoadEntityContent => "cant-load-entity-content"
  }

  /** The code a client reads back from the error string. */
  function ErrorCodeOf(s: string): (r: Option<ErrorCode>)
    ensures r.Some? ==> StringCode(r.value) == s
  {
    if s == "invalid-entity-id" then Some(InvalidEntityId)
    else if s == "not-empty" then Some(NotEmpty)
    else if s == "no-such-entity" then Some(NoSuchEntity)
    else if s == "target-is-redirect" then Some(TargetIsRedirect)
    else if s == "target-is-incompatible" then Some(TargetIsIncompatible)
    else if s == "cant-redirect" then Some(CantRedirect)
    else if s == "cant-load-entity-content" then Some(CantLoadEntityContent)
    else None
  }

  /** Distinct errors are reported under distinct codes. */
  lemma StringCodesIdentifyErrors(code: ErrorCode)
    ensures ErrorCodeOf(StringCode(code)) == Some(code)
  {
  }

  // ---------------------------------------------------------------------------
  // The guard checks, read through the lookup in its default mode

  /** checkExists: the target must have a latest revision (a falsy id 0 counts
      as none) and must not be a redirect. */
  function CheckExists(lookup: Store, id: EntityId): (r: Outcome<ErrorCode>)
    ensures r == Fail(TargetIsRedirect) <==> id in lookup.replica && lookup.replica[id].RedirectPage?
    ensures r == Fail(NoSuchEntity) <==> GetLatestRevisionId(lookup, id) in {None, Some(0)} && r != Fail(TargetIsRedirect)
    ensures r.Pass? <==> GetLatestRevisionId(lookup, id).Some? && GetLatestRevisionId(lookup, id).value != 0
  {
    match LatestRevisionOrRedirect(lookup, id)
    case Failure(_) => Fail(TargetIsRedirect)
    case Success(latest) => if latest.None? || latest.value == 0 then Fail(NoSuchEntity) else Pass
  }

  /** checkEmpty: the source must exist and be empty, or already be a redirect. */
  function CheckEmpty(lookup: Store, id: EntityId): (r: Outcome<ErrorCode>)
    ensures r.Pass? <==>
      || (id in lookup.replica && lookup.replica[id].RedirectPage?)
      || (GetEntityRevision(lookup, id).Success? && GetEntityRevision(lookup, id).value.Some?
          && GetEntityRevision(lookup, id).value.value.entity.IsEmpty())
    ensures r == Fail(NoSuchEntity) <==> GetEntityRevision(lookup, id) == Success(None)
    ensures r == Fail(NotEmpty) <==>
      GetEntityRevision(lookup, id).Success? && GetEntityRevision(lookup, id).value.Some?
      && !GetEntityRevision(lookup, id).value.value.entity.IsEmpty()
    ensures r == Fail(CantLoadEntityContent) <==>
      GetEntityRevision(lookup, id).Failure? && GetEntityRevision(lookup, id).error.StorageError?
  {
    match GetEntityRevision(lookup, id)
    case Success(None) => Fail(NoSuchEntity)
    case Success(Some(revision)) => if revision.entity.IsEmpty() then Pass else Fail(NotEmpty)
    case Failure(UnresolvedRedirect(_, _)) => Pass
    case Failure(StorageError(_)) => Fail(CantLoadEntityContent)
  }

  /** RedirectCreator::createRedirect as a decision: the target is checked
      before the source, and the write is refused for types without redirects. */
  function CreationOutcome(lookup: Store, redirectable: set<EntityType>, redirect: EntityRedirect)
    : Outcome<ErrorCode>
  {
    var target := CheckExists(lookup, redirect.targetId);
    if target.Fail? then target
    else
      var source := CheckEmpty(lookup, redirect.entityId);
      if source.Fail? then source
      else if redirect.entityId.entityType in redirectable then Pass
      else Fail(CantRedirect)
  }

  /** A redirect is created exactly when both checks pass and the type supports
      redirects; a failing target check wins over a failing source check. */
  lemma CreationOutcomeCases(lookup: Store, redirectable: set<EntityType>, redirect: EntityRedirect)
    ensures CreationOutcome(lookup, redirectable, redirect).Pass? <==>
      && CheckExists(lookup, redirect.targetId).Pass?
      && CheckEmpty(lookup, redirect.entityId).Pass?
      && redirect.entityId.entityType in redirectable
    ensures CheckExists(lookup, redirect.targetId).Fail? ==>
      CreationOutcome(lookup, redirectable, redirect) == CheckExists(lookup, redirect.targetId)
    ensures CheckExists(lookup, redirect.targetId).Pass? && CheckEmpty(lookup, redirect.entityId).Fail? ==>
      CreationOutcome(lookup, redirectable, redirect) == CheckEmpty(lookup, redirect.entityId)
    ensures CreationOutcome(lookup, redirectable, redirect) != Fail(InvalidEntityId)
    ensures CreationOutcome(lookup, redirectable, redirect) != Fail(TargetIsIncompatible)
  {
  }

  /** A redirect is only ever created onto an existing non-redirect target, from
      a source that exists and is empty or is already a redirect. */
  lemma {:induction false} CreatedRedirectsAreSafe(
    lookup: Store, redirectable: set<EntityType>, redirect: EntityRedirect)
    requires CreationOutcome(lookup, redirectable, redirect).Pass?
    ensures redirect.targetId in lookup.replica && !lookup.replica[redirect.targetId].RedirectPage?
    ensures redirect.entityId in lookup.replica
    ensures lookup.replica[redirect.entityId].RedirectPage?
      || (lookup.replica[redirect.entityId].EntityPage?
          && Last(lookup.replica[redirect.entityId].history).entity.IsEmpty())
  {
    var t := redirect.targetId;
    var s := redirect.entityId;
    assert CheckExists(lookup, t).Pass?;
    assert CheckEmpty(lookup, s).Pass?;
    assert GetLatestRevisionId(lookup, t).Some?;
    if !(s in lookup.replica && lookup.replica[s].RedirectPage?) {
      var rev := GetEntityRevision(lookup, s);
      assert rev.Success? && rev.value.Some?;
      assert rev == ReadRevision(lookup.replica, s, 0);
    }
  }

  // ---------------------------------------------------------------------------
  // The store that is written

  /** Every revision id a snapshot records is below `bound`. */
  predicate RevisionIdsBelow(snapshot: Snapshot, bound: nat) {
    forall id :: id in snapshot ==>
      match snapshot[id]
      case EntityPage(history) => forall k :: 0 <= k < |history| ==> history[k].revisionId < bound
      case RedirectPage(_, rev) => rev < bound
      case UnreadablePage(latest, _) => latest < bound
  }

  /** Every stored redirect is one the EntityRedirect constructor accepts. */
  predicate RedirectsWellFormed(snapshot: Snapshot) {
    forall id :: id in snapshot && snapshot[id].RedirectPage? ==>
      IsWellFormedRedirect(id, snapshot[id].target)
  }

  /** The entity store behind the lookup: a replica and a master snapshot, the
      next revision id to hand out, and the entity types whose content
      supports redirects. A store without replication lag keeps both
      snapshots equal. */
  class EntityStore {
    var replica: Snapshot
    var master: Snapshot
    var nextRevisionId: nat
    const redirectableTypes: set<EntityType>
    const lagging: bool

    ghost predicate Valid()
      reads this
    {
      && nextRevisionId >= 1
      && RevisionIdsBelow(master, nextRevisionId)
      && RedirectsWellFormed(master)
      && (!lagging ==> replica == master)
    }

    function Lookup(): Store
      reads this
    {
      Store(replica, master)
    }

    constructor(replica: Snapshot, master: Snapshot, nextRevisionId: nat,
                redirectableTypes: set<EntityType>, lagging: bool)
      requires nextRevisionId >= 1 && RevisionIdsBelow(master, nextRevisionId) && RedirectsWellFormed(master)
      requires !lagging ==> replica == master
      ensures Valid()
      ensures this.replica == replica && this.master == master && this.nextRevisionId == nextRevisionId
      ensures this.redirectableTypes == redirectableTypes && this.lagging == lagging
    {
      this.replica := replica;
      this.master := master;
      this.nextRevisionId := nextRevisionId;
      this.redirectableTypes := redirectableTypes;
      this.lagging := lagging;
    }

    /** saveRedirect: writes the redirect as a new revision of the source page
        in master (and in the replica when there is no lag), or fails with a
        storage error when the type's content does not support redirects. */
    method SaveRedirect(redirect: EntityRedirect) returns (result: Result<nat, string>)
      requires Valid()
      requires IsWellFormedRedirect(redirect.entityId, redirect.targetId)
      modifies this
      ensures Valid()
      ensures redirect.entityId.entityType in redirectableTypes ==>
        && result == Success(old(nextRevisionId))
        && master == old(master)[redirect.entityId := RedirectPage(redirect.targetId, old(nextRevisionId))]
        && replica == (if lagging then old(replica) else master)
        && nextRevisionId == old(nextRevisionId) + 1
    ensures redirect.entityId.entityType !in redirectableTypes ==>
        && result.Failure?
        && master == old(master) && replica == old(replica) && nextRevisionId == old(nextRevisionId)
    {
      if redirect.entityId.entityType !in redirectableTypes {
        return Failure("the content model does not support redirects");
      }
      var rev := nextRevisionId;
      master := master[redirect.entityId := RedirectPage(redirect.targetId, rev)];
      if !lagging {
        replica := master;
      }
      nextRevisionId := rev + 1;
      result := Success(rev);
    }
  }

  /** RedirectCreator: reads through the store's lookup, writes through the store. */
  class RedirectCreator {
    const store: EntityStore

    constructor(store: EntityStore)
      ensures this.store == store
    {
      this.store := store;
    }

    /** createRedirect: the outcome is CreationOutcome on the state before the
        call; on success the source page of master (and of an unlagged replica)
        now holds the redirect, and on failure nothing was written. */
    method CreateRedirect(redirect: EntityRedirect, moduleName: string) returns (outcome: Outcome<ErrorCode>)
      requires store.Valid()
      requires IsWellFormedRedirect(redirect.entityId, redirect.targetId)
      modifies store
      ensures store.Valid()
      ensures outcome == CreationOutcome(old(store.Lookup()), store.redirectableTypes, redirect)
      ensures outcome.Pass? ==>
        && store.master == old(store.master)[redirect.entityId := RedirectPage(redirect.targetId, old(store.nextRevisionId))]
        && store.replica == (if store.lagging then old(store.replica) else store.master)
      ensures outcome.Pass? ==>
        GetEntityRevision(store.Lookup(), redirect.entityId, 0, LatestFromMaster)
          == Failure(UnresolvedRedirect(redirect.targetId, old(store.nextRevisionId)))
      ensures outcome.Pass? && !store.lagging ==> forall mode ::
        GetEntityRevision(store.Lookup(), redirect.entityId, 0, mode)
          == Failure(UnresolvedRedirect(redirect.targetId, old(store.nextRevisionId)))
      ensures outcome.Fail? ==> store.master == old(store.master) && store.replica == old(store.replica)
      ensures store.nextRevisionId == if outcome.Pass? then old(store.nextRevisionId) + 1 else old(store.nextRevisionId)
    {
      var lookup := store.Lookup();
      outcome := CheckExists(lookup, redirect.targetId);
      if outcome.Fail? {
        return;
      }
      outcome := CheckEmpty(lookup, redirect.entityId);
      if outcome.Fail? {
        return;
      }
      var rev := store.nextRevisionId;
      var saved := store.SaveRedirect(redirect);
      outcome := if saved.Success? then Pass else Fail(CantRedirect);
      if saved.Success? {
        forall mode | mode == LatestFromMaster || !store.lagging
          ensures GetEntityRevision(store.Lookup(), redirect.entityId, 0, mode)
            == Failure(UnresolvedRedirect(redirect.targetId, rev))
        {
          WrittenRedirectIsReported(store.Lookup(), redirect, rev, mode);
        }
      }
    }
  }

  /** After a redirect is written, reading its source from master (in any
      mode, when there is no lag) reports an unresolved redirect to the target. */
  lemma WrittenRedirectIsReported(store: Store, redirect: EntityRedirect, revisionId: nat, mode: Mode)
    requires redirect.entityId in FirstSnapshot(store, mode)
    requires FirstSnapshot(store, mode)[redirect.entityId] == RedirectPage(redirect.targetId, revisionId)
    ensures GetEntityRevision(store, redirect.entityId, 0, mode)
      == Failure(UnresolvedRedirect(redirect.targetId, revisionId))
  {
    RedirectIsReported(store, redirect.entityId, 0, mode);
  }

  // ---------------------------------------------------------------------------
  // The API front end

  /** extractEntityIdFromParams: a missing or unparsable parameter is an invalid id. */
  function ExtractEntityId(params: map<string, string>, name: string): (r: Result<EntityId, ErrorCode>)
    ensures r.Success? <==> name in params && Parse(params[name]).Some?
    ensures r.Success? ==> ValidEntityId(r.value) && Format(r.value) == params[name]
    ensures r.Failure? ==> r.error == InvalidEntityId
  {
    if name !in params then Failure(InvalidEntityId)
    else
      match Parse(params[name])
      case None => Failure(InvalidEntityId)
      case Some(id) => Success(id)
  }

  /** redirectFromRequestParams: `from` is parsed before `to`; a pair the
      EntityRedirect constructor rejects is reported as incompatible. */
  function RedirectFromRequestParams(params: map<string, string>): (r: Result<EntityRedirect, ErrorCode>)
    ensures ExtractEntityId(params, "from").Failure? ==> r == Failure(InvalidEntityId)
    ensures ExtractEntityId(params, "to").Failure? ==> r == Failure(InvalidEntityId)
    ensures r == Failure(TargetIsIncompatible) <==>
      && ExtractEntityId(params, "from").Success? && ExtractEntityId(params, "to").Success?
      && !IsWellFormedRedirect(ExtractEntityId(params, "from").value, ExtractEntityId(params, "to").value)
    ensures r.Success? ==>
      && Format(r.value.entityId) == params["from"] && Format(r.value.targetId) == params["to"]
      && IsWellFormedRedirect(r.value.entityId, r.value.targetId)
  {
    var from :- ExtractEntityId(params, "from");
    var to :- ExtractEntityId(params, "to");
    match NewEntityRedirect(from, to)
    case Success(redirect) => Success(redirect)
    case Failure(_) => Failure(TargetIsIncompatible)
  }

  /** The error code (or success) the API reports for a request. */
  function ApiOutcome(lookup: Store, redirectable: set<EntityType>, params: map<string, string>)
    : Outcome<ErrorCode>
  {
    match RedirectFromRequestParams(params)
    case Failure(code) => Fail(code)
    case Success(redirect) => CreationOutcome(lookup, redirectable, redirect)
  }

  /** ApiRedirectCreator: parses the request and hands the redirect to the creator. */
  class ApiRedirectCreator {
    const creator: RedirectCreator
    const moduleName: string

    constructor(creator: RedirectCreator, moduleName: string)
      ensures this.creator == creator && this.moduleName == moduleName
    {
      this.creator := creator;
      this.moduleName := moduleName;
    }

    method CreateRedirect(params: map<string, string>) returns (outcome: Outcome<ErrorCode>)
      requires creator.store.Valid()
      modifies creator.store
      ensures creator.store.Valid()
      ensures outcome == ApiOutcome(old(creator.store.Lookup()), creator.store.redirectableTypes, params)
      ensures outcome.Pass? ==>
        var redirect := RedirectFromRequestParams(params).value;
        creator.store.master
          == old(creator.store.master)[redirect.entityId := RedirectPage(redirect.targetId, old(creator.store.nextRevisionId))]
      ensures outcome.Pass? ==>
        creator.store.replica == (if creator.store.lagging then old(creator.store.replica) else creator.store.master)
      ensures outcome.Fail? ==>
        creator.store.master == old(creator.store.master) && creator.store.replica == old(creator.store.replica)
      ensures creator.store.nextRevisionId
        == if outcome.Pass? then old(creator.store.nextRevisionId) + 1 else old(creator.store.nextRevisionId)
    {
      var parsed := RedirectFromRequestParams(params);
      if parsed.Failure? {
        return Fail(parsed.error);
      }
      outcome := creator.CreateRedirect(parsed.value, moduleName);
    }
  }

  // ---------------------------------------------------------------------------
  // The repository of the API tests

  function Q(n: nat): EntityId { ItemId(n) }
  function P(n: nat): EntityId { PropertyId(n) }

  function ItemPage(id: EntityId, labels: map<string, string>, rev: nat): PageContent {
    EntityPage([EntityRevision(ItemEntity(Item(Some(id), Fingerprint(labels, map[], map[]), [], map[])), rev, "")])
  }

  function PropertyPage(id: EntityId, rev: nat): PageContent {
    EntityPage([EntityRevision(PropertyEntity(Property(Some(id), EmptyFingerprint(), "string", [])), rev, "")])
  }

  /** An empty item Q11, a labelled item Q12, properties P11 and P12, and a
      redirect Q22 → Q12; one snapshot, no lag. */
  function TestSnapshot(): Snapshot {
    map[
      Q(11) := ItemPage(Q(11), map[], 1),
      Q(12) := ItemPage(Q(12), map["en" := "Foo"], 2),
      P(11) := PropertyPage(P(11), 3),
      P(12) := PropertyPage(P(12), 4),
      Q(22) := RedirectPage(Q(12), 5)]
  }

  function TestStore(): Store { Store(TestSnapshot(), TestSnapshot()) }

  function Request(from: string, to: string): map<string, string> {
    map["from" := from, "to" := to]
  }

  lemma ParsesAs(s: string, id: EntityId)
    requires ValidEntityId(id) && Format(id) == s
    ensures Parse(s) == Some(id)
  {
    ParseFormat(id);
  }

  lemma TwoDigitFormat(id: EntityId, d1: nat, d2: nat)
    requires id.repository == "" && 1 <= d1 < 10 && d2 < 10 && id.number == 10 * d1 + d2
    ensures Parse([TypeLetter(id.entityType), DigitChar(d1), DigitChar(d2)]) == Some(id)
  {
    assert NatToDigits(id.number) == NatToDigits(d1) + [DigitChar(d2)];
    assert Format(id) == [TypeLetter(id.entityType), DigitChar(d1), DigitChar(d2)];
    ParseFormat(id);
  }

  lemma TestIdsParse()
    ensures Parse("Q11") == Some(Q(11)) && Parse("Q12") == Some(Q(12))
    ensures Parse("Q22") == Some(Q(22)) && Parse("Q77") == Some(Q(77))
    ensures Parse("P11") == Some(P(11)) && Parse("P12") == Some(P(12))
    ensures Parse("xyz") == None
  {
    TwoDigitFormat(Q(11), 1, 1);
    TwoDigitFormat(Q(12), 1, 2);
    TwoDigitFormat(Q(22), 2, 2);
    TwoDigitFormat(Q(77), 7, 7);
    TwoDigitFormat(P(11), 1, 1);
    TwoDigitFormat(P(12), 1, 2);
    assert IndexOf("xyz", ':') == None;
  }

  /** A request whose two parameters parse is decided by the EntityRedirect constructor. */
  lemma RequestParses(from: string, to: string, fromId: EntityId, toId: EntityId)
    requires Parse(from) == Some(fromId) && Parse(to) == Some(toId)
    ensures RedirectFromRequestParams(Request(from, to))
      == if IsWellFormedRedirect(fromId, toId) then Success(EntityRedirect(fromId, toId))
         else Failure(TargetIsIncompatible)
  {
    var params := Request(from, to);
    assert params["from"] == from && params["to"] == to;
  }

  lemma TestSnapshotPages()
    ensures Q(11) in TestSnapshot() && TestSnapshot()[Q(11)] == ItemPage(Q(11), map[], 1)
    ensures Q(12) in TestSnapshot() && TestSnapshot()[Q(12)] == ItemPage(Q(12), map["en" := "Foo"], 2)
    ensures P(11) in TestSnapshot() && TestSnapshot()[P(11)] == PropertyPage(P(11), 3)
    ensures P(12) in TestSnapshot() && TestSnapshot()[P(12)] == PropertyPage(P(12), 4)
    ensures Q(22) in TestSnapshot() && TestSnapshot()[Q(22)] == RedirectPage(Q(12), 5)
    ensures Q(77) !in TestSnapshot()
  {
  }

  /** The failure rows of the API tests on unparsable ids. */
  lemma {:induction false} FailureRowsInvalidId()
    ensures ApiOutcome(TestStore(), {ItemType}, Request("xyz", "Q12")) == Fail(InvalidEntityId)
    ensures ApiOutcome(TestStore(), {ItemType}, Request("Q11", "xyz")) == Fail(InvalidEntityId)
  {
    TestIdsParse();
    assert Request("xyz", "Q12")["from"] == "xyz";
    assert ExtractEntityId(Request("xyz", "Q12"), "from") == Failure(InvalidEntityId);
    assert RedirectFromRequestParams(Request("xyz", "Q12")) == Failure(InvalidEntityId);
    assert Request("Q11", "xyz")["to"] == "xyz";
    assert ExtractEntityId(Request("Q11", "xyz"), "to") == Failure(InvalidEntityId);
    assert RedirectFromRequestParams(Request("Q11", "xyz")) == Failure(InvalidEntityId);
  }

  /** The failure rows on a missing source or target. */
  lemma {:induction false} FailureRowsNotFound()
    ensures ApiOutcome(TestStore(), {ItemType}, Request("Q77", "Q12")) == Fail(NoSuchEntity)
    ensures ApiOutcome(TestStore(), {ItemType}, Request("Q11", "Q77")) == Fail(NoSuchEntity)
  {
    TestIdsParse();
    TestSnapshotPages();
    RequestParses("Q77", "Q12", Q(77), Q(12));
    RequestParses("Q11", "Q77", Q(11), Q(77));
    assert CheckExists(TestStore(), Q(12)) == Pass;
    assert CheckEmpty(TestStore(), Q(77)) == Fail(NoSuchEntity);
    assert CheckExists(TestStore(), Q(77)) == Fail(NoSuchEntity);
  }

  /** The failure rows on a redirect target and an incompatible target. */
  lemma {:induction false} FailureRowsBadTarget()
    ensures ApiOutcome(TestStore(), {ItemType}, Request("Q11", "Q22")) == Fail(TargetIsRedirect)
    ensures ApiOutcome(TestStore(), {ItemType}, Request("Q11", "P11")) == Fail(TargetIsIncompatible)
  {
    TestIdsParse();
    TestSnapshotPages();
    RequestParses("Q11", "Q22", Q(11), Q(22));
    RequestParses("Q11", "P11", Q(11), P(11));
    assert CheckExists(TestStore(), Q(22)) == Fail(TargetIsRedirect);
  }

  /** The failure row on a non-empty source. */
  lemma {:induction false} FailureRowNotEmpty()
    ensures ApiOutcome(TestStore(), {ItemType}, Request("Q12", "Q11")) == Fail(NotEmpty)
  {
    TestIdsParse();
    TestSnapshotPages();
    RequestParses("Q12", "Q11", Q(12), Q(11));
    assert CheckExists(TestStore(), Q(11)) == Pass;
    assert !FingerprintIsEmpty(Fingerprint(map["en" := "Foo"], map[], map[])) by {
      assert "en" in map["en" := "Foo"];
    }
    assert CheckEmpty(TestStore(), Q(12)) == Fail(NotEmpty);
  }

  /** The failure row on a type whose content does not support redirects. */
  lemma {:induction false} FailureRowCantRedirect()
    ensures ApiOutcome(TestStore(), {ItemType}, Request("P11", "P12")) == Fail(CantRedirect)
  {
    var redirect := EntityRedirect(P(11), P(12));
    assert RedirectFromRequestParams(Request("P11", "P12")) == Success(redirect) by {
      TestIdsParse();
      RequestParses("P11", "P12", P(11), P(12));
    }
    assert CreationOutcome(TestStore(), {ItemType}, redirect) == Fail(CantRedirect) by {
      TestSnapshotPages();
      assert CheckExists(TestStore(), P(12)) == Pass;
      EmptyPropertyPasses();
      assert PropertyType !in {ItemType};
    }
  }

  lemma EmptyPropertyPasses()
    ensures CheckEmpty(TestStore(), P(11)) == Pass
  {
    TestSnapshotPages();
    var page := TestSnapshot()[P(11)].history;
    ExistingRevisionIsFound(TestStore(), P(11), 0, LatestFromSlave, 0);
    assert GetEntityRevision(TestStore(), P(11)) == Success(Some(page[0]));
  }

  /** The success rows: an empty item and an existing redirect can both be
      turned into redirects. */
  lemma {:induction false} SuccessRows()
    ensures ApiOutcome(TestStore(), {ItemType}, Request("Q11", "Q12")) == Pass
    ensures ApiOutcome(TestStore(), {ItemType}, Request("Q22", "Q11")) == Pass
  {
    TestIdsParse();
    TestSnapshotPages();
    RequestParses("Q11", "Q12", Q(11), Q(12));
    RequestParses("Q22", "Q11", Q(22), Q(11));
    assert CheckExists(TestStore(), Q(12)) == Pass;
    assert CheckEmpty(TestStore(), Q(11)) == Pass;
    assert CheckExists(TestStore(), Q(11)) == Pass;
    assert CheckEmpty(TestStore(), Q(22)) == Pass;
  }
}

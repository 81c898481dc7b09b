/** Permission checks for entity actions, phrased as MediaWiki page rights: the
    rule table from an action to the rights it needs, the deduplication of the
    rights of several actions, and the fold of the per-right results into one
    status. */
module PermissionChecker {
  import opened Wrappers
  import opened EntityIds
  import opened DataModel

  /** The actions of the entity permission checker, including the legacy
      "item-merge" and "item-redirect" names. OtherAction stands for an
      action string equal to none of the six action constants and neither
      legacy name: a request naming a known action is always one of the
      other constructors, so `name` is never one of those strings. */
  datatype Action =
    | ActionRead
    | ActionEdit
    | ActionEditTerms
    | ActionMerge
    | ActionRedirect
    | ActionCreate
    | ItemMerge
    | ItemRedirect
    | OtherAction(name: string)

  /** A page title: a namespace and a page text. */
  datatype Title = Title(namespace: int, text: string)

  /** A status: good or not, and the errors collected so far. */
  datatype Status = Status(ok: bool, errors: seq<string>)

  function Good(): Status { Status(true, []) }

  /** Status::merge: good only if both are good; the errors are appended. */
  function Merge(a: Status, b: Status): (r: Status)
    ensures r.ok <==> a.ok && b.ok
    ensures r.errors == a.errors + b.errors
  {
    Status(a.ok && b.ok, a.errors + b.errors)
  }

  /** The good status is neutral and merging is associative, so merging the
      statuses of several checks one after another from a good status gives
      the same status however the merges are grouped. */
  lemma MergeLaws(a: Status, b: Status, c: Status)
    ensures Merge(Good(), a) == a && Merge(a, Good()) == a
    ensures Merge(Merge(a, b), c) == Merge(a, Merge(b, c))
  {
    assert a.errors + [] == a.errors;
    assert (a.errors + b.errors) + c.errors == a.errors + (b.errors + c.errors);
  }

  /** The errors getUserPermissionsErrors reports for the acting user: a
      right, a title and whether the check is rigorous (not "quick"). */
  type UserPermissionErrors = (string, Title, bool) -> seq<string>

  /** The checker's collaborators: the namespace of each entity type, the
      title of each entity id (if any), which titles exist, and the rights
      the wiki defines. */
  datatype Checker = Checker(
    namespaceOf: EntityType -> int,
    titleFor: EntityId -> Option<Title>,
    pageExists: Title -> bool,
    availableRights: seq<string>)

  predicate NoDuplicates(s: seq<string>) {
    forall i, j :: 0 <= i < j < |s| ==> s[i] != s[j]
  }

  // ---------------------------------------------------------------------------
  // The rule table

  /** mediawikiPermissionExists. */
  predicate PermissionExists(checker: Checker, right: string) {
    right in checker.availableRights
  }

  /** The type-specific right an action asks for when the wiki defines it. */
  function SpecificRight(action: Action, t: EntityType): Option<string> {
    match action
    case ActionCreate => Some(TypeName(t) + "-create")
    case ActionEditTerms => Some(TypeName(t) + "-term")
    case ActionMerge => Some(TypeName(t) + "-merge")
    case ItemMerge => Some(TypeName(t) + "-merge")
    case ActionRedirect => Some(TypeName(t) + "-redirect")
    case ItemRedirect => Some(TypeName(t) + "-redirect")
    case _ => None
  }

  /** The rights every action of the table asks for, whatever the wiki defines. */
  predicate IsBaseRight(right: string) {
    right == "read" || right == "edit" || right == "createpage"
  }

  lemma SpecificRightIsNotBase(action: Action, t: EntityType)
    requires SpecificRight(action, t).Some?
    ensures !IsBaseRight(SpecificRight(action, t).value)
  {
    var s := SpecificRight(action, t).value;
    var n := TypeName(t);
    assert s[..|n|] == n;
    assert s[0] == 'i' || s[0] == 'p';
  }

  /** getMediaWikiPermissionsToCheck; a Failure is its InvalidArgumentException
      for an unknown action. */
  function PermissionsToCheck(checker: Checker, action: Action, t: EntityType): (r: Result<seq<string>, string>)
    ensures r.Failure? <==> action.OtherAction?
    ensures r.Success? ==> NoDuplicates(r.value) && |r.value| >= 1 && r.value[0] == "read"
    ensures r.Success? ==> ("edit" in r.value <==> action != ActionRead)
    ensures r.Success? ==> ("createpage" in r.value <==> action == ActionCreate)
    ensures r.Success? ==> forall right :: !IsBaseRight(right) ==>
      (right in r.value <==> SpecificRight(action, t) == Some(right) && PermissionExists(checker, right))
  {
    match action
    case OtherAction(name) => Failure("Unknown action to check permissions for: " + name)
    case ActionRead => Success(["read"])
    case ActionEdit => Success(["read", "edit"])
    case _ =>
      var base := if action == ActionCreate then ["read", "edit", "createpage"] else ["read", "edit"];
      var specific := SpecificRight(action, t).value;
      SpecificRightIsNotBase(action, t);
      if PermissionExists(checker, specific) then Success(base + [specific]) else Success(base)
  }

  // ---------------------------------------------------------------------------
  // Several actions: concatenation, deduplication, fold

  /** The rights of several actions in turn (the array_merge loop); the first
      unknown action raises. */
  function RightsForActions(checker: Checker, actions: seq<Action>, t: EntityType): (r: Result<seq<string>, string>)
    ensures r.Failure? <==> exists i :: 0 <= i < |actions| && actions[i].OtherAction?
    ensures r.Success? ==> forall right :: right in r.value <==>
      exists i :: 0 <= i < |actions| && right in PermissionsToCheck(checker, actions[i], t).value
  {
    if |actions| == 0 then Success([])
    else
      var first :- PermissionsToCheck(checker, actions[0], t);
      var rest :- RightsForActions(checker, actions[1..], t);
      assert forall i :: 1 <= i < |actions| ==> actions[i] == actions[1..][i - 1];
      Success(first + rest)
  }

  /** array_unique: each right once. The order of first occurrences is
      stated by DedupKeepsFirstOccurrenceOrder. */
  function Dedup(s: seq<string>): (r: seq<string>)
    ensures NoDuplicates(r)
    ensures forall x :: x in r <==> x in s
    ensures |r| <= |s|
  {
    if |s| == 0 then []
    else
      var prefix := Dedup(s[..|s| - 1]);
      var x := s[|s| - 1];
      assert forall y :: y in s <==> y in s[..|s| - 1] || y == x by {
        assert s == s[..|s| - 1] + [x];
      }
      if x in prefix then prefix else prefix + [x]
  }

  /** The position of the first occurrence of `x` in `s`. */
  function FirstIndex(s: seq<string>, x: string): (k: nat)
    requires x in s
    ensures k < |s| && s[k] == x && x !in s[..k]
  {
    if s[0] == x then 0
    else
      var k := FirstIndex(s[1..], x);
      assert s[..k + 1] == [s[0]] + s[1..][..k];
      k + 1
  }

  /** Appending an element does not move the first occurrence of an earlier one. */
  lemma FirstIndexOfPrefix(p: seq<string>, y: string, x: string)
    requires x in p
    ensures FirstIndex(p + [y], x) == FirstIndex(p, x)
  {
    var s := p + [y];
    var k0 := FirstIndex(p, x);
    assert s[..k0 + 1] == p[..k0 + 1];
  }

  /** Deduplication keeps the rights in the order of their first occurrences. */
  lemma {:induction false} DedupKeepsFirstOccurrenceOrder(s: seq<string>)
    ensures forall i, j :: 0 <= i < j < |Dedup(s)| ==> FirstIndex(s, Dedup(s)[i]) < FirstIndex(s, Dedup(s)[j])
  {
    if |s| > 0 {
      var p := s[..|s| - 1];
      var x := s[|s| - 1];
      assert s == p + [x];
      DedupKeepsFirstOccurrenceOrder(p);
      var prefix := Dedup(p);
      forall y | y in prefix
        ensures FirstIndex(s, y) == FirstIndex(p, y) < |p|
      {
        FirstIndexOfPrefix(p, x, y);
      }
      if x !in prefix {
        assert x !in p;
        assert s[..|p|] == p;
        assert FirstIndex(s, x) == |p|;
        var r := prefix + [x];
        assert Dedup(s) == r;
        forall i, j | 0 <= i < j < |r|
          ensures FirstIndex(s, r[i]) < FirstIndex(s, r[j])
        {
          assert r[i] == prefix[i];
          if j < |prefix| {
            assert r[j] == prefix[j];
          }
        }
      }
    }
  }

  /** Deduplication leaves a list without repeats unchanged. */
  lemma {:induction false} DedupOfUnique(s: seq<string>)
    requires NoDuplicates(s)
    ensures Dedup(s) == s
  {
    if |s| > 0 {
      var p := s[..|s| - 1];
      DedupOfUnique(p);
      assert s[|s| - 1] !in p;
      assert s == p + [s[|s| - 1]];
    }
  }

  /** getPermissionStatus: good when the user has no errors for the right,
      otherwise failed with those errors. */
  function PermissionStatus(errorsFor: UserPermissionErrors, right: string, title: Title, quick: string): (r: Status)
    ensures r.ok <==> errorsFor(right, title, quick != "quick") == []
    ensures r.errors == errorsFor(right, title, quick != "quick")
  {
    var errors := errorsFor(right, title, quick != "quick");
    if errors == [] then Good() else Status(false, errors)
  }

  /** The merged status of the checks of `rights`, in order. */
  function FoldStatus(errorsFor: UserPermissionErrors, rights: seq<string>, title: Title, quick: string): Status {
    if |rights| == 0 then Good()
    else
      Merge(FoldStatus(errorsFor, rights[..|rights| - 1], title, quick),
            PermissionStatus(errorsFor, rights[|rights| - 1], title, quick))
  }

  /** The merged status is good iff no right's check reported an error. */
  lemma {:induction false} FoldStatusOk(errorsFor: UserPermissionErrors, rights: seq<string>, title: Title, quick: string)
    ensures FoldStatus(errorsFor, rights, title, quick).ok <==>
      forall right :: right in rights ==> errorsFor(right, title, quick != "quick") == []
    ensures FoldStatus(errorsFor, rights, title, quick).ok <==>
      FoldStatus(errorsFor, rights, title, quick).errors == []
  {
    if |rights| > 0 {
      var p := rights[..|rights| - 1];
      FoldStatusOk(errorsFor, p, title, quick);
      assert rights == p + [rights[|rights| - 1]];
      var a := FoldStatus(errorsFor, p, title, quick);
      var b := PermissionStatus(errorsFor, rights[|rights| - 1], title, quick);
      assert |a.errors + b.errors| == |a.errors| + |b.errors|;
      var last := rights[|rights| - 1];
      var rigorous := quick != "quick";
      assert FoldStatus(errorsFor, rights, title, quick) == Merge(a, b);
      assert forall right :: right in rights <==> right in p || right == last;
      assert (forall right :: right in rights ==> errorsFor(right, title, rigorous) == [])
        <==> (forall right :: right in p ==> errorsFor(right, title, rigorous) == [])
             && errorsFor(last, title, rigorous) == [];
    }
  }

  /** checkPermissionsForActions as a function of its inputs. */
  function ActionsStatus(
    checker: Checker, errorsFor: UserPermissionErrors, actions: seq<Action>,
    title: Title, t: EntityType, quick: string): Result<Status, string>
  {
    match RightsForActions(checker, actions, t)
    case Failure(e) => Failure(e)
    case Success(rights) => Success(FoldStatus(errorsFor, Dedup(rights), title, quick))
  }

  /** For known actions the status is good iff the user may do every right any
      of the actions asks for; each right is checked once. */
  lemma {:induction false} ActionsStatusOk(
    checker: Checker, errorsFor: UserPermissionErrors, actions: seq<Action>,
    title: Title, t: EntityType, quick: string)
    requires forall i :: 0 <= i < |actions| ==> !actions[i].OtherAction?
    ensures RightsForActions(checker, actions, t).Success?
    ensures NoDuplicates(Dedup(RightsForActions(checker, actions, t).value))
    ensures ActionsStatus(checker, errorsFor, actions, title, t, quick).Success?
    ensures ActionsStatus(checker, errorsFor, actions, title, t, quick).value.ok <==>
      forall i, right :: 0 <= i < |actions| && right in PermissionsToCheck(checker, actions[i], t).value ==>
        errorsFor(right, title, quick != "quick") == []
  {
    var rights := RightsForActions(checker, actions, t).value;
    var unique := Dedup(rights);
    var rigorous := quick != "quick";
    FoldStatusOk(errorsFor, unique, title, quick);
    assert ActionsStatus(checker, errorsFor, actions, title, t, quick) == Success(FoldStatus(errorsFor, unique, title, quick));
    var allClean := forall right :: right in rights ==> errorsFor(right, title, rigorous) == [];
    assert allClean <==> forall right :: right in unique ==> errorsFor(right, title, rigorous) == [];
    assert allClean <==>
      forall i, right :: 0 <= i < |actions| && right in PermissionsToCheck(checker, actions[i], t).value ==>
        errorsFor(right, title, rigorous) == [];
  }

  /** The two loops of checkPermissionsForActions: collect the rights of every
      action, drop repeats, and merge the status of each right's check. */
  method CheckPermissionsForActions(
    checker: Checker, errorsFor: UserPermissionErrors, actions: seq<Action>,
    title: Title, t: EntityType, quick: string) returns (r: Result<Status, string>)
    ensures r == ActionsStatus(checker, errorsFor, actions, title, t, quick)
  {
    var rights := CollectRights(checker, actions, t);
    if rights.Failure? {
      return Failure(rights.error);
    }
    var status := MergeStatuses(errorsFor, Dedup(rights.value), title, quick);
    r := Success(status);
  }

  /** The first loop of checkPermissionsForActions: the rights of every action
      in turn; the first unknown action raises. */
  method CollectRights(checker: Checker, actions: seq<Action>, t: EntityType)
    returns (r: Result<seq<string>, string>)
    ensures r == RightsForActions(checker, actions, t)
  {
    var rights: seq<string> := [];
    var i := 0;
    assert actions[0..] == actions;
    PrependNothing(RightsForActions(checker, actions, t));
    while i < |actions|
      invariant 0 <= i <= |actions|
      invariant RightsForActions(checker, actions, t) == Prepend(rights, RightsForActions(checker, actions[i..], t))
    {
      assert actions[i..][1..] == actions[i + 1..];
      var more := PermissionsToCheck(checker, actions[i], t);
      if more.Failure? {
        return Failure(more.error);
      }
      PrependStep(rights, more.value, RightsForActions(checker, actions[i + 1..], t));
      rights := rights + more.value;
      i := i + 1;
    }
    assert rights + [] == rights;
    r := Success(rights);
  }

  /** The second loop of checkPermissionsForActions: the status of each right,
      merged in order into a good status. */
  method MergeStatuses(errorsFor: UserPermissionErrors, rights: seq<string>, title: Title, quick: string)
    returns (status: Status)
    ensures status == FoldStatus(errorsFor, rights, title, quick)
  {
    status := Good();
    var j := 0;
    while j < |rights|
      invariant 0 <= j <= |rights|
      invariant status == FoldStatus(errorsFor, rights[..j], title, quick)
    {
      var partial := PermissionStatus(errorsFor, rights[j], title, quick);
      status := Merge(status, partial);
      assert rights[..j + 1][..j] == rights[..j];
      j := j + 1;
    }
    assert rights[..j] == rights;
  }

  /** `prefix` in front of a successful result; a failure stays as it is. */
  function Prepend(prefix: seq<string>, r: Result<seq<string>, string>): Result<seq<string>, string> {
    match r
    case Failure(e) => Failure(e)
    case Success(s) => Success(prefix + s)
  }

  lemma PrependNothing(r: Result<seq<string>, string>)
    ensures Prepend([], r) == r
  {
    if r.Success? {
      assert [] + r.value == r.value;
    }
  }

  lemma PrependStep(prefix: seq<string>, more: seq<string>, r: Result<seq<string>, string>)
    ensures Prepend(prefix, Prepend(more, r)) == Prepend(prefix + more, r)
  {
    if r.Success? {
      assert prefix + (more + r.value) == (prefix + more) + r.value;
    }
  }

  // ---------------------------------------------------------------------------
  // Entry points

  /** getPageTitleInEntityNamespace: the title "/" in the type's namespace. */
  function NamespaceTitle(checker: Checker, t: EntityType): Title {
    Title(checker.namespaceOf(t), "/")
  }

  /** getPermissionStatusForEntityType: the actions are checked against the
      type's namespace title. */
  method ForEntityType(
    checker: Checker, errorsFor: UserPermissionErrors, actions: seq<Action>, t: EntityType, quick: string)
    returns (r: Result<Status, string>)
    ensures r == ActionsStatus(checker, errorsFor, actions, NamespaceTitle(checker, t), t, quick)
  {
    r := CheckPermissionsForActions(checker, errorsFor, actions, NamespaceTitle(checker, t), t, quick);
  }

  /** Whether an id has an existing page. */
  predicate HasExistingPage(checker: Checker, id: EntityId) {
    checker.titleFor(id).Some? && checker.pageExists(checker.titleFor(id).value)
  }

  /** getPermissionStatusForEntityId: an id without an existing page is
      checked as a creation in its namespace; otherwise the action alone is
      checked against the page. */
  method ForEntityId(
    checker: Checker, errorsFor: UserPermissionErrors, action: Action, id: EntityId, quick: string)
    returns (r: Result<Status, string>)
    ensures !HasExistingPage(checker, id) ==>
      r == ActionsStatus(checker, errorsFor, [action, ActionCreate], NamespaceTitle(checker, id.entityType), id.entityType, quick)
    ensures HasExistingPage(checker, id) ==>
      r == ActionsStatus(checker, errorsFor, [action], checker.titleFor(id).value, id.entityType, quick)
  {
    var title := checker.titleFor(id);
    if title.None? || !checker.pageExists(title.value) {
      r := ForEntityType(checker, errorsFor, [action, ActionCreate], id.entityType, quick);
      return;
    }
    r := CheckPermissionsForActions(checker, errorsFor, [action], title.value, id.entityType, quick);
  }

  /** getPermissionStatusForEntity: an entity without an id is checked as a
      creation of its type; otherwise as its id. */
  method ForEntity(
    checker: Checker, errorsFor: UserPermissionErrors, action: Action, entity: Entity, quick: string)
    returns (r: Result<Status, string>)
    ensures entity.Id().None? ==>
      r == ActionsStatus(checker, errorsFor, [action, ActionCreate], NamespaceTitle(checker, entity.Type()), entity.Type(), quick)
    ensures entity.Id().Some? && !HasExistingPage(checker, entity.Id().value) ==>
      r == ActionsStatus(checker, errorsFor, [action, ActionCreate],
                         NamespaceTitle(checker, entity.Id().value.entityType), entity.Id().value.entityType, quick)
    ensures entity.Id().Some? && HasExistingPage(checker, entity.Id().value) ==>
      r == ActionsStatus(checker, errorsFor, [action], checker.titleFor(entity.Id().value).value,
                         entity.Id().value.entityType, quick)
  {
    var id := entity.Id();
    if id.None? {
      r := ForEntityType(checker, errorsFor, [action, ActionCreate], entity.Type(), quick);
      return;
    }
    r := ForEntityId(checker, errorsFor, action, id.value, quick);
  }

  // ---------------------------------------------------------------------------
  // Consequences

  /** Any action on an entity without a page needs the creation rights in the
      type's namespace, on top of the action's own rights. */
  lemma {:induction false} NewPagesNeedCreateRights(
    checker: Checker, errorsFor: UserPermissionErrors, action: Action, t: EntityType, quick: string)
    requires !action.OtherAction?
    ensures var r := ActionsStatus(checker, errorsFor, [action, ActionCreate], NamespaceTitle(checker, t), t, quick);
      && r.Success?
      && (r.value.ok <==>
           forall right :: (right in PermissionsToCheck(checker, action, t).value
                            || right in PermissionsToCheck(checker, ActionCreate, t).value) ==>
             errorsFor(right, NamespaceTitle(checker, t), quick != "quick") == [])
    ensures var r := ActionsStatus(checker, errorsFor, [action, ActionCreate], NamespaceTitle(checker, t), t, quick);
      r.value.ok ==>
        && errorsFor("read", NamespaceTitle(checker, t), quick != "quick") == []
        && errorsFor("edit", NamespaceTitle(checker, t), quick != "quick") == []
        && errorsFor("createpage", NamespaceTitle(checker, t), quick != "quick") == []
  {
    var actions := [action, ActionCreate];
    ActionsStatusOk(checker, errorsFor, actions, NamespaceTitle(checker, t), t, quick);
    var create := PermissionsToCheck(checker, ActionCreate, t).value;
    assert "read" in create && "edit" in create && "createpage" in create;
    assert forall right :: (right in PermissionsToCheck(checker, action, t).value || right in create) <==>
      exists i :: 0 <= i < |actions| && right in PermissionsToCheck(checker, actions[i], t).value by {
      assert actions[0] == action && actions[1] == ActionCreate;
    }
  }

  /** Reading an existing page needs exactly the read right. */
  lemma {:induction false} ReadingNeedsOnlyRead(
    checker: Checker, errorsFor: UserPermissionErrors, title: Title, t: EntityType, quick: string)
    ensures var r := ActionsStatus(checker, errorsFor, [ActionRead], title, t, quick);
      r.Success? && (r.value.ok <==> errorsFor("read", title, quick != "quick") == [])
  {
    var actions := [ActionRead];
    assert RightsForActions(checker, actions, t) == Success(["read"]) by {
      assert actions[0] == ActionRead && actions[1..] == [];
      assert PermissionsToCheck(checker, ActionRead, t) == Success(["read"]);
      assert RightsForActions(checker, [], t) == Success([]);
      assert ["read"] + [] == ["read"];
    }
    assert Dedup(["read"]) == ["read"] by {
      assert ["read"][..0] == [];
    }
    FoldStatusOk(errorsFor, ["read"], title, quick);
  }

  /** An unknown action raises, whatever else is asked for alongside it. */
  lemma UnknownActionRaises(
    checker: Checker, errorsFor: UserPermissionErrors, actions: seq<Action>, name: string,
    title: Title, t: EntityType, quick: string)
    requires OtherAction(name) in actions
    ensures ActionsStatus(checker, errorsFor, actions, title, t, quick).Failure?
  {
  }
}

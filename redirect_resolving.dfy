/** The redirect-resolving decorator: it forwards a call to the wrapped object
    and, when the call raises an unresolved redirect and its first argument is
    an entity id, retries with the redirect target in place of that argument,
    at most `levels` times. Every other exception passes through unchanged. */
module RedirectResolving {
  import opened Wrappers
  import opened EntityIds
  import opened DataModel
  import opened RevisionLookup

  /** An argument of a forwarded call. */
  datatype Arg = IdArg(id: EntityId) | IntArg(n: int) | ModeArg(mode: Mode) | StringArg(s: string)

  datatype Exception =
    | UnresolvedRedirectException(redirectTarget: EntityId)
    | StorageException(failure: StorageFailure)
    | InvalidArgumentException(message: string)
    | RuntimeException(message: string)

  /** What a call did: returned a value or threw. */
  datatype CallOutcome<T> = Returned(value: T) | Threw(exception: Exception)

  /** The value a constructor argument can take in PHP: an object exposing one
      method, or something that is not an object ('' or null). */
  datatype TargetValue<T> = ObjectTarget(call: seq<Arg> -> CallOutcome<T>) | NonObject

  /** A constructed decorator: the wrapped method and the number of levels. */
  datatype Decorator<T> = Decorator(call: seq<Arg> -> CallOutcome<T>, levels: nat)

  /** The level count used when the constructor is given none. */
  const DefaultLevels: nat := 1

  /** The constructor's validation: the target must be an object and the levels
      an integer that is not negative (None stands for a null argument). */
  function NewDecorator<T>(target: TargetValue<T>, levels: Option<int> := Some(DefaultLevels))
    : (r: Result<Decorator<T>, Exception>)
    ensures r.Success? <==> target.ObjectTarget? && levels.Some? && levels.value >= 0
    ensures r.Failure? ==> r.error.InvalidArgumentException?
    ensures r.Success? ==> r.value.levels == levels.value && r.value.call == target.call
  {
    if target.NonObject? then Failure(InvalidArgumentException("target must be an object"))
    else if levels.None? || levels.value < 0 then
      Failure(InvalidArgumentException("levels must be a non-negative integer"))
    else Success(Decorator(target.call, levels.value))
  }

  /** The call may be retried: it hit a redirect, levels remain, and its first
      argument is an entity id to retarget. */
  predicate Retries<T>(outcome: CallOutcome<T>, args: seq<Arg>, levels: nat) {
    outcome.Threw? && outcome.exception.UnresolvedRedirectException?
      && levels > 0 && |args| > 0 && args[0].IdArg?
  }

  /** The decorated call, as a function of the wrapped method, the arguments
      and the levels left. */
  function Resolved<T>(call: seq<Arg> -> CallOutcome<T>, args: seq<Arg>, levels: nat): CallOutcome<T>
    decreases levels
  {
    var outcome := call(args);
    if Retries(outcome, args, levels) then
      Resolved(call, args[0 := IdArg(outcome.exception.redirectTarget)], levels - 1)
    else outcome
  }

  /** The argument lists the decorator passes to the wrapped method, in order. */
  function CallsMade<T>(call: seq<Arg> -> CallOutcome<T>, args: seq<Arg>, levels: nat): (calls: seq<seq<Arg>>)
    ensures 1 <= |calls| <= levels + 1 && calls[0] == args
    ensures forall k :: 0 <= k < |calls| ==> |calls[k]| == |args| && (|args| > 0 ==> calls[k][1..] == args[1..])
    decreases levels
  {
    var outcome := call(args);
    if Retries(outcome, args, levels) then
      [args] + CallsMade(call, args[0 := IdArg(outcome.exception.redirectTarget)], levels - 1)
    else [args]
  }

  /** EntityRedirectResolvingDecorator::__call. */
  method Call<T>(d: Decorator<T>, args: seq<Arg>) returns (outcome: CallOutcome<T>)
    ensures outcome == Resolved(d.call, args, d.levels)
  {
    var levels := d.levels;
    var arguments := args;
    outcome := d.call(arguments);
    while Retries(outcome, arguments, levels)
      invariant outcome == d.call(arguments)
      invariant Resolved(d.call, arguments, levels) == Resolved(d.call, args, d.levels)
      decreases levels
    {
      levels := levels - 1;
      arguments := arguments[0 := IdArg(outcome.exception.redirectTarget)];
      outcome := d.call(arguments);
    }
  }

  // ---------------------------------------------------------------------------
  // Properties of the decorator

  /** The retry only ever replaces the entity id: revision and mode arguments
      stay the same on every hop, so a chain is read in one consistency mode. */
  lemma SameModeOnEveryHop<T>(call: seq<Arg> -> CallOutcome<T>, args: seq<Arg>, levels: nat, k: nat)
    requires k < |CallsMade(call, args, levels)| && |args| > 0
    ensures CallsMade(call, args, levels)[k][1..] == args[1..]
  {
  }

  /** An exception other than an unresolved redirect is passed on unchanged,
      and so is a redirect from a call whose first argument is not an entity id. */
  lemma {:induction false} OtherExceptionsPassThrough<T>(call: seq<Arg> -> CallOutcome<T>, args: seq<Arg>, levels: nat)
    requires call(args).Threw?
    requires !call(args).exception.UnresolvedRedirectException? || |args| == 0 || !args[0].IdArg?
    ensures Resolved(call, args, levels) == call(args)
  {
  }

  /** With zero levels the decorator is a pass-through. */
  lemma ZeroLevelsPassThrough<T>(call: seq<Arg> -> CallOutcome<T>, args: seq<Arg>)
    ensures Resolved(call, args, 0) == call(args)
  {
  }

  /** The decorated call ends either with a value, with an exception the
      wrapped method threw, or with the unresolved redirect of the last call made. */
  lemma {:induction false} ResolvedIsLastCall<T>(call: seq<Arg> -> CallOutcome<T>, args: seq<Arg>, levels: nat)
    ensures Resolved(call, args, levels) == call(Last(CallsMade(call, args, levels)))
    decreases levels
  {
    var outcome := call(args);
    if Retries(outcome, args, levels) {
      ResolvedIsLastCall(call, args[0 := IdArg(outcome.exception.redirectTarget)], levels - 1);
    }
  }

  /** More levels never change an answer that was not an unresolved redirect. */
  lemma {:induction false} MoreLevelsKeepAnswer<T>(call: seq<Arg> -> CallOutcome<T>, args: seq<Arg>, levels: nat, more: nat)
    requires levels <= more
    requires !(Resolved(call, args, levels).Threw? && Resolved(call, args, levels).exception.UnresolvedRedirectException?)
    ensures Resolved(call, args, more) == Resolved(call, args, levels)
    decreases levels
  {
    var outcome := call(args);
    if Retries(outcome, args, levels) {
      MoreLevelsKeepAnswer(call, args[0 := IdArg(outcome.exception.redirectTarget)], levels - 1, more - 1);
    }
  }

  // ---------------------------------------------------------------------------
  // The decorator around getEntityRevision

  /** getEntityRevision's exceptions as thrown exceptions. */
  function AsCallOutcome(r: RevisionResult): CallOutcome<Option<EntityRevision>> {
    match r
    case Success(v) => Returned(v)
    case Failure(UnresolvedRedirect(target, _)) => Threw(UnresolvedRedirectException(target))
    case Failure(StorageError(f)) => Threw(StorageException(f))
  }

  /** getEntityRevision( $entityId, $revisionId = 0, $mode = LATEST_FROM_SLAVE )
      called with a PHP argument list. A missing or non-integer revision is the
      default 0; a negative one is rejected like a missing id. */
  function EntityRevisionCall(store: Store): seq<Arg> -> CallOutcome<Option<EntityRevision>> {
    (args: seq<Arg>) =>
      if |args| == 0 || !args[0].IdArg? then
        Threw(InvalidArgumentException("an entity id is required"))
      else if |args| > 1 && args[1].IntArg? && args[1].n < 0 then
        Threw(InvalidArgumentException("the revision id must not be negative"))
      else
        var revisionId := if |args| > 1 && args[1].IntArg? then args[1].n else 0;
        var mode := if |args| > 2 && args[2].ModeArg? then args[2].mode else LatestFromSlave;
        AsCallOutcome(GetEntityRevision(store, args[0].id, revisionId, mode))
  }

  /** `chain[0] -> chain[1] -> ...`: each id but the last is a redirect to the next. */
  predicate RedirectChain(s: Snapshot, chain: seq<EntityId>) {
    |chain| >= 1 && forall i :: 0 <= i < |chain| - 1 ==>
      chain[i] in s && s[chain[i]].RedirectPage? && s[chain[i]].target == chain[i + 1]
  }

  /** The arguments (id, revision, mode) of a getEntityRevision call. */
  function LookupArgs(id: EntityId, revisionId: nat, mode: Mode): seq<Arg> {
    [IdArg(id), IntArg(revisionId), ModeArg(mode)]
  }

  /** Following a redirect chain of n hops that ends at an id that is not a
      redirect: with at least n levels the answer is that of the chain's end; with fewer, the unresolved redirect names the
      furthest target reached, chain[levels + 1]. */
  lemma {:induction false} ChainResolution(store: Store, chain: seq<EntityId>, revisionId: nat, mode: Mode, levels: nat)
    requires RedirectChain(FirstSnapshot(store, mode), chain)
    requires !EntityRevisionCall(store)(LookupArgs(Last(chain), revisionId, mode)).Threw?
      || !EntityRevisionCall(store)(LookupArgs(Last(chain), revisionId, mode)).exception.UnresolvedRedirectException?
    ensures levels >= |chain| - 1 ==>
      Resolved(EntityRevisionCall(store), LookupArgs(chain[0], revisionId, mode), levels)
        == EntityRevisionCall(store)(LookupArgs(Last(chain), revisionId, mode))
    ensures levels < |chain| - 1 ==>
      Resolved(EntityRevisionCall(store), LookupArgs(chain[0], revisionId, mode), levels)
        == Threw(UnresolvedRedirectException(chain[levels + 1]))
    decreases levels
  {
    var call := EntityRevisionCall(store);
    var args := LookupArgs(chain[0], revisionId, mode);
    if |chain| == 1 {
      assert Last(chain) == chain[0];
      assert !Retries(call(args), args, levels);
    } else {
      RedirectHop(store, chain[0], chain[1], revisionId, mode, levels);
      if levels > 0 {
        ChainTail(FirstSnapshot(store, mode), chain);
        ChainResolution(store, chain[1..], revisionId, mode, levels - 1);
        assert Last(chain[1..]) == Last(chain);
      } else {
        assert !Retries(call(args), args, levels);
      }
    }
  }

  /** A redirect chain without its first id is still a redirect chain. */
  lemma ChainTail(s: Snapshot, chain: seq<EntityId>)
    requires RedirectChain(s, chain) && |chain| > 1
    ensures RedirectChain(s, chain[1..])
  {
    forall i | 0 <= i < |chain[1..]| - 1
      ensures chain[1..][i] in s && s[chain[1..][i]].RedirectPage? && s[chain[1..][i]].target == chain[1..][i + 1]
    {
      assert chain[1..][i] == chain[i + 1] && chain[1..][i + 1] == chain[i + 2];
    }
  }

  /** One hop: looking up a redirect throws with its target, and the decorator,
      given a level, asks again for the target with one level less. */
  lemma RedirectHop(store: Store, from: EntityId, to: EntityId, revisionId: nat, mode: Mode, levels: nat)
    requires from in FirstSnapshot(store, mode) && FirstSnapshot(store, mode)[from].RedirectPage?
    requires FirstSnapshot(store, mode)[from].target == to
    ensures EntityRevisionCall(store)(LookupArgs(from, revisionId, mode)) == Threw(UnresolvedRedirectException(to))
    ensures levels > 0 ==>
      Resolved(EntityRevisionCall(store), LookupArgs(from, revisionId, mode), levels)
        == Resolved(EntityRevisionCall(store), LookupArgs(to, revisionId, mode), levels - 1)
  {
    RedirectIsReported(store, from, revisionId, mode);
    assert LookupArgs(from, revisionId, mode)[0 := IdArg(to)] == LookupArgs(to, revisionId, mode);
  }

  // ---------------------------------------------------------------------------
  // The redirect chain Q1 -> Q5 -> Q10 of the decorator's tests

  /** A store in which Q1 redirects to Q5, Q5 to Q10, and Q10 is an item at revision 777. */
  function ChainStore(): Store {
    var q10 := EntityRevision(ItemEntity(Item(Some(ItemId(10)), EmptyFingerprint(), [], map[])), 777, "");
    var pages := map[ItemId(1) := RedirectPage(ItemId(5), 1),
                     ItemId(5) := RedirectPage(ItemId(10), 5),
                     ItemId(10) := EntityPage([q10])];
    Store(pages, pages)
  }

  /** The entity id of a decorated getEntityRevision( id ) call, if it returned a revision. */
  function ResolvedEntityId(id: EntityId, levels: nat): Option<EntityId> {
    var outcome := Resolved(EntityRevisionCall(ChainStore()), [IdArg(id)], levels);
    if outcome.Returned? && outcome.value.Some? then outcome.value.value.entity.Id() else None
  }

  lemma ChainStoreResolution()
    ensures ResolvedEntityId(ItemId(10), 1) == Some(ItemId(10))
    ensures ResolvedEntityId(ItemId(5), 1) == Some(ItemId(10))
    ensures ResolvedEntityId(ItemId(1), 2) == Some(ItemId(10))
    ensures Resolved(EntityRevisionCall(ChainStore()), [IdArg(ItemId(5))], 0)
      == Threw(UnresolvedRedirectException(ItemId(10)))
    ensures Resolved(EntityRevisionCall(ChainStore()), [IdArg(ItemId(1))], 1)
      == Threw(UnresolvedRedirectException(ItemId(10)))
  {
    var s := ChainStore();
    var call := EntityRevisionCall(s);
    assert call([IdArg(ItemId(10))]).Returned?;
    assert call([IdArg(ItemId(5))]) == Threw(UnresolvedRedirectException(ItemId(10)));
    assert call([IdArg(ItemId(1))]) == Threw(UnresolvedRedirectException(ItemId(5)));
    assert [IdArg(ItemId(5))][0 := IdArg(ItemId(10))] == [IdArg(ItemId(10))];
    assert [IdArg(ItemId(1))][0 := IdArg(ItemId(5))] == [IdArg(ItemId(5))];
  }

  /** A call without an entity-id argument has nothing to retarget: the
      redirect it raises reaches the caller, and so does any other exception. */
  lemma ArgumentlessCallsPropagate(levels: nat)
    ensures Resolved((args: seq<Arg>) => Threw(UnresolvedRedirectException(ItemId(33))), [], levels)
      == CallOutcome<string>.Threw(UnresolvedRedirectException(ItemId(33)))
    ensures Resolved((args: seq<Arg>) => Threw(RuntimeException("")), [], levels)
      == CallOutcome<string>.Threw(RuntimeException(""))
  {
  }

  /** The constructor rejects '' and null targets and negative or null levels. */
  lemma ConstructionErrors(call: seq<Arg> -> CallOutcome<Option<EntityRevision>>)
    ensures NewDecorator(TargetValue<Option<EntityRevision>>.NonObject, Some(1)).Failure?
    ensures NewDecorator(ObjectTarget(call), Some(-3)).Failure?
    ensures NewDecorator(ObjectTarget(call), None).Failure?
    ensures NewDecorator(ObjectTarget(call)) == Success(Decorator(call, 1))
  {
  }
}

/** Term search: the options object whose limit setter clamps to a hard cap,
    and the immutable result object with its derived repository name. */
module TermSearch {
  import opened Wrappers
  import opened EntityIds
  import opened DataModel

  /** The largest limit a search may ask for. */
  const HardLimit: int := 2500

  /** The mutable search options: a result limit and three flags. */
  class TermSearchOptions {
    var limit: int
    var isCaseSensitive: bool
    var isPrefixSearch: bool
    var useLanguageFallback: bool

    /** The limit never exceeds the hard cap. */
    predicate Valid()
      reads this
    {
      limit <= HardLimit
    }

    constructor()
      ensures Valid()
    {
      limit := 500;
      isCaseSensitive := false;
      isPrefixSearch := true;
      useLanguageFallback := true;
    }

    /** setLimit: a limit above the hard cap is replaced by the cap. */
    method SetLimit(newLimit: int)
      modifies this
      ensures limit == if newLimit > HardLimit then HardLimit else newLimit
      ensures Valid()
      ensures isCaseSensitive == old(isCaseSensitive) && isPrefixSearch == old(isPrefixSearch)
      ensures useLanguageFallback == old(useLanguageFallback)
    {
      if newLimit > HardLimit {
        limit := HardLimit;
      } else {
        limit := newLimit;
      }
    }

    function GetLimit(): (r: int)
      requires Valid()
      reads this
      ensures r <= HardLimit
    {
      limit
    }

    method SetIsCaseSensitive(value: bool)
      modifies this
      ensures isCaseSensitive == value
      ensures limit == old(limit) && isPrefixSearch == old(isPrefixSearch)
      ensures useLanguageFallback == old(useLanguageFallback)
    {
      isCaseSensitive := value;
    }

    method SetIsPrefixSearch(value: bool)
      modifies this
      ensures isPrefixSearch == value
      ensures limit == old(limit) && isCaseSensitive == old(isCaseSensitive)
      ensures useLanguageFallback == old(useLanguageFallback)
    {
      isPrefixSearch := value;
    }

    method SetUseLanguageFallback(value: bool)
      modifies this
      ensures useLanguageFallback == value
      ensures limit == old(limit) && isCaseSensitive == old(isCaseSensitive)
      ensures isPrefixSearch == old(isPrefixSearch)
    {
      useLanguageFallback := value;
    }
  }

  /** A fresh options object given a limit reports the limit clamped to the cap:
      limits up to the cap are kept, larger ones become the cap. */
  method LimitRoundTrip(input: int) returns (got: int)
    ensures input <= HardLimit ==> got == input
    ensures input > HardLimit ==> got == HardLimit
  {
    var options := new TermSearchOptions();
    options.SetLimit(input);
    got := options.GetLimit();
  }

  /** Each flag reads back as it was set. */
  method FlagsRoundTrip(caseSensitive: bool, prefixSearch: bool, fallback: bool)
    returns (gotCase: bool, gotPrefix: bool, gotFallback: bool)
    ensures gotCase == caseSensitive && gotPrefix == prefixSearch && gotFallback == fallback
  {
    var options := new TermSearchOptions();
    options.SetIsCaseSensitive(caseSensitive);
    options.SetIsPrefixSearch(prefixSearch);
    options.SetUseLanguageFallback(fallback);
    gotCase := options.isCaseSensitive;
    gotPrefix := options.isPrefixSearch;
    gotFallback := options.useLanguageFallback;
  }

  /** The rows of the limit test: 1 → 1, 2500 → 2500, 999999 → 2500. */
  method LimitRows() returns (a: int, b: int, c: int)
    ensures a == 1 && b == 2500 && c == 2500
  {
    a := LimitRoundTrip(1);
    b := LimitRoundTrip(2500);
    c := LimitRoundTrip(999999);
  }

  // ---------------------------------------------------------------------------
  // Results

  /** A search hit: the term that matched, which kind of term it was, the entity,
      and the optional label and description to show. */
  datatype TermSearchResult = TermSearchResult(
    matchedTerm: Term,
    matchedTermType: string,
    entityId: EntityId,
    displayLabel: Option<Term>,
    displayDescription: Option<Term>)

  /** getRepositoryName: the prefix of the entity id's serialization. */
  function RepositoryName(result: TermSearchResult): (name: string)
    ensures ':' !in name
    ensures ':' !in Format(result.entityId) ==> name == ""
  {
    RepositoryNameOf(Format(result.entityId))
  }

  /** The repository name read off the serialization is the id's own prefix:
      "" for a local id. */
  lemma RepositoryNameIsPrefix(result: TermSearchResult)
    requires ValidEntityId(result.entityId)
    ensures RepositoryName(result) == result.entityId.repository
  {
    RepositoryNameOfFormat(result.entityId);
  }

  /** The rows of the result test: the getters give back the constructor's
      arguments, and the repository name is "" for Q1234 and P777 and "foo"
      for foo:P777. */
  lemma {:induction false} ResultRows()
    ensures var r := TermSearchResult(Term("br", "FooText"), "label", ItemId(1234),
                                      Some(Term("pt", "ImaLabel")), Some(Term("en", "ImaDescription")));
      && r.matchedTerm == Term("br", "FooText") && r.matchedTermType == "label"
      && r.entityId == ItemId(1234) && r.displayLabel == Some(Term("pt", "ImaLabel"))
      && r.displayDescription == Some(Term("en", "ImaDescription"))
      && RepositoryName(r) == ""
    ensures var r := TermSearchResult(Term("en-gb", "FooText"), "description", PropertyId(777), None, None);
      && r.displayLabel == None && r.displayDescription == None && RepositoryName(r) == ""
    ensures var r := TermSearchResult(Term("en-gb", "FooText"), "description",
                                      EntityId("foo", PropertyType, 777), None, None);
      && r.entityId.repository == "foo" && RepositoryName(r) == "foo"
  {
    RepositoryNameIsPrefix(TermSearchResult(Term("br", "FooText"), "label", ItemId(1234),
                                            Some(Term("pt", "ImaLabel")), Some(Term("en", "ImaDescription"))));
    RepositoryNameIsPrefix(TermSearchResult(Term("en-gb", "FooText"), "description", PropertyId(777), None, None));
    RepositoryNameIsPrefix(TermSearchResult(Term("en-gb", "FooText"), "description",
                                            EntityId("foo", PropertyType, 777), None, None));
  }
}

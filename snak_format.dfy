/** The snak output formats: each format's base format and whether output
    available in one format can serve a request for another. */
module SnakFormats {

  /** The FORMAT_* constants of the snak formatter. */
  datatype Format = Plain | Wiki | Html | HtmlDiff | HtmlVerbose | HtmlVerbosePreview

  /** The HTML family: every variant of HTML output. */
  predicate IsHtmlVariant(f: Format) {
    f == Html || f == HtmlDiff || f == HtmlVerbose || f == HtmlVerbosePreview
  }

  /** getBaseFormat: HTML for every HTML variant, the format itself otherwise.
      It is defined on every constant. */
  function GetBaseFormat(f: Format): (b: Format)
    ensures b == Html <==> IsHtmlVariant(f)
    ensures !IsHtmlVariant(f) ==> b == f
  {
    match f
    case Html => Html
    case HtmlDiff => Html
    case HtmlVerbose => Html
    case HtmlVerbosePreview => Html
    case Wiki => Wiki
    case Plain => Plain
  }

  /** A base format is its own base. */
  lemma BaseFormatIdempotent(f: Format)
    ensures GetBaseFormat(GetBaseFormat(f)) == GetBaseFormat(f)
  {
  }

  /** isPossibleFormat: output in `available` can serve `target` when it is the
      same format, or both are variants of HTML. */
  function IsPossibleFormat(available: Format, target: Format): (r: bool)
    ensures available == target ==> r
    ensures r ==> (available == target || (IsHtmlVariant(available) && IsHtmlVariant(target)))
  {
    available == target || (GetBaseFormat(available) == Html && GetBaseFormat(target) == Html)
  }

  /** Compatibility is exactly having the same base format. */
  lemma {:induction false} PossibleIffSameBase(available: Format, target: Format)
    ensures IsPossibleFormat(available, target) <==> GetBaseFormat(available) == GetBaseFormat(target)
  {
    if GetBaseFormat(available) == GetBaseFormat(target) && available != target {
      assert IsHtmlVariant(available) || IsHtmlVariant(target);
    }
  }

  /** Compatibility is an equivalence: reflexive, symmetric and transitive. */
  lemma {:induction false} PossibleIsEquivalence(a: Format, b: Format, c: Format)
    ensures IsPossibleFormat(a, a)
    ensures IsPossibleFormat(a, b) ==> IsPossibleFormat(b, a)
    ensures IsPossibleFormat(a, b) && IsPossibleFormat(b, c) ==> IsPossibleFormat(a, c)
  {
    PossibleIffSameBase(a, b);
    PossibleIffSameBase(b, a);
    PossibleIffSameBase(b, c);
    PossibleIffSameBase(a, c);
  }

  /** The rows of the base-format test. */
  lemma BaseFormatRows()
    ensures GetBaseFormat(HtmlVerbose) == Html
    ensures GetBaseFormat(HtmlVerbosePreview) == Html
    ensures GetBaseFormat(Wiki) == Wiki
  {
  }

  /** The rows of the possible-format test. */
  lemma PossibleFormatRows()
    ensures IsPossibleFormat(Html, Html)
    ensures IsPossibleFormat(Html, HtmlVerbose)
    ensures IsPossibleFormat(Html, HtmlVerbosePreview)
    ensures IsPossibleFormat(HtmlVerbose, HtmlVerbosePreview)
    ensures !IsPossibleFormat(Plain, Html)
  {
  }
}

/** The validator that checks a Commons media file name against a file-name
    lookup: a plain string or a StringValue wrapping one is valid when the
    lookup finds the file; any other value is an invalid argument. */
module CommonsMedia {
  import opened Wrappers

  /** The values the validator may be handed. */
  datatype Value =
    | PlainString(s: string)
    | StringValue(value: string)
    | IntValue(i: int)

  /** The file-name lookup: the normalised name of an existing file, or None. */
  type FileNameLookup = string -> Option<string>

  /** validate: Failure stands for the InvalidArgumentException raised for a
      value that is not a string; otherwise the result says whether the file
      exists. */
  function Validate(lookup: FileNameLookup, v: Value): (r: Result<bool, string>)
    ensures r.Failure? <==> v.IntValue?
    ensures v.PlainString? ==> r == Success(lookup(v.s).Some?)
    ensures v.StringValue? ==> r == Success(lookup(v.value).Some?)
  {
    match v
    case PlainString(s) => Success(lookup(s).Some?)
    case StringValue(s) => Success(lookup(s).Some?)
    case IntValue(_) => Failure("InvalidArgumentException")
  }

  /** A StringValue is judged exactly like the string it wraps. */
  lemma StringValueLikeString(lookup: FileNameLookup, s: string)
    ensures Validate(lookup, StringValue(s)) == Validate(lookup, PlainString(s))
  {
  }

  /** `t` occurs somewhere in `s`. */
  predicate Contains(s: string, t: string)
    decreases |s|
  {
    |t| <= |s| && (s[..|t|] == t || Contains(s[1..], t))
  }

  lemma {:induction false} ContainsAt(s: string, t: string, i: nat)
    requires i + |t| <= |s| && s[i..i + |t|] == t
    ensures Contains(s, t)
    decreases i
  {
    if i > 0 {
      assert s[1..][i - 1..i - 1 + |t|] == s[i..i + |t|];
      ContainsAt(s[1..], t, i - 1);
    }
  }

  /** The lookup of the validator test: names containing "NOT-FOUND" are missing. */
  function TestLookup(fileName: string): (r: Option<string>)
    ensures r.Some? ==> r.value == fileName
    ensures r.None? <==> Contains(fileName, "NOT-FOUND")
  {
    if Contains(fileName, "NOT-FOUND") then None else Some(fileName)
  }

  /** The rows of the validator test. */
  lemma {:induction false} ValidateRows()
    ensures Validate(TestLookup, PlainString("Foo.png")) == Success(true)
    ensures Validate(TestLookup, StringValue("Foo.png")) == Success(true)
    ensures Validate(TestLookup, StringValue("Foo.NOT-FOUND.png")) == Success(false)
    ensures Validate(TestLookup, IntValue(5)).Failure?
  {
    var s := "Foo.NOT-FOUND.png";
    assert s[4..4 + |"NOT-FOUND"|] == "NOT-FOUND";
    ContainsAt(s, "NOT-FOUND", 4);
  }
}

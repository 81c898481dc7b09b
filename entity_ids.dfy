/** Entity identifiers: the serialized form ("Q42", "P7", "foo:P777"), its parser,
    and the repository name derived from a prefixed serialization. */
module EntityIds {
  import opened Wrappers

  datatype EntityType = ItemType | PropertyType

  /** The entity type name used to build type-specific rights ("item-create"). */
  function TypeName(t: EntityType): string {
    match t
    case ItemType => "item"
    case PropertyType => "property"
  }

  /** The letter that starts the local part of an id of this type. */
  function TypeLetter(t: EntityType): char {
    match t
    case ItemType => 'Q'
    case PropertyType => 'P'
  }

  /** An id: repository prefix ("" for the local repository), type and number. */
  datatype EntityId = EntityId(repository: string, entityType: EntityType, number: nat)

  /** Ids that the parser can produce: a positive number and a prefix without ':'. */
  predicate ValidEntityId(id: EntityId) {
    id.number >= 1 && ':' !in id.repository
  }

  function ItemId(n: nat): EntityId { EntityId("", ItemType, n) }

  function PropertyId(n: nat): EntityId { EntityId("", PropertyType, n) }

  // ---------------------------------------------------------------------------
  // Decimal digits

  predicate IsDigit(c: char) { '0' <= c <= '9' }

  predicate AllDigits(s: string) {
    forall i :: 0 <= i < |s| ==> IsDigit(s[i])
  }

  /** A non-empty digit string without a leading zero. */
  predicate IsCanonicalNumber(s: string) {
    |s| >= 1 && AllDigits(s) && s[0] != '0'
  }

  function DigitChar(d: nat): (c: char)
    requires d < 10
    ensures IsDigit(c) && (c == '0' <==> d == 0)
  {
    ('0' as int + d) as char
  }

  function DigitValue(c: char): (d: nat)
    requires IsDigit(c)
    ensures d < 10 && DigitChar(d) == c
  {
    c as int - '0' as int
  }

  function NatToDigits(n: nat): (s: string)
    ensures |s| >= 1 && AllDigits(s)
    ensures n >= 1 ==> s[0] != '0'
    decreases n
  {
    if n < 10 then [DigitChar(n)] else NatToDigits(n / 10) + [DigitChar(n % 10)]
  }

  function DigitsToNat(s: string): nat
    requires AllDigits(s)
  {
    if |s| == 0 then 0 else DigitsToNat(s[..|s| - 1]) * 10 + DigitValue(s[|s| - 1])
  }

  lemma {:induction false} DigitsOfNat(n: nat)
    ensures DigitsToNat(NatToDigits(n)) == n
    decreases n
  {
    var s := NatToDigits(n);
    if n < 10 {
      assert s[..|s| - 1] == [];
    } else {
      DigitsOfNat(n / 10);
      assert s[..|s| - 1] == NatToDigits(n / 10);
    }
  }

  lemma {:induction false} CanonicalNumberPositive(s: string)
    requires IsCanonicalNumber(s)
    ensures DigitsToNat(s) >= 1
    ensures |s| >= 2 ==> DigitsToNat(s) >= 10
    decreases |s|
  {
    if |s| >= 2 {
      CanonicalNumberPositive(s[..|s| - 1]);
    }
  }

  lemma {:induction false} NatOfDigits(s: string)
    requires IsCanonicalNumber(s)
    ensures NatToDigits(DigitsToNat(s)) == s
    decreases |s|
  {
    var n := DigitsToNat(s);
    CanonicalNumberPositive(s);
    if |s| >= 2 {
      var p := s[..|s| - 1];
      NatOfDigits(p);
      assert n / 10 == DigitsToNat(p) && n % 10 == DigitValue(s[|s| - 1]);
      assert s == p + [s[|s| - 1]];
    }
  }

  // ---------------------------------------------------------------------------
  // Serialization and parsing

  function IndexOf(s: string, c: char): (r: Option<nat>)
    ensures r.Some? ==> r.value < |s| && s[r.value] == c && c !in s[..r.value]
    ensures r.None? <==> c !in s
  {
    if |s| == 0 then None
    else if s[0] == c then Some(0)
    else
      match IndexOf(s[1..], c)
      case None => None
      case Some(i) => assert s[..i + 1] == [s[0]] + s[1..][..i]; Some(i + 1)
  }

  /** The serialization of an id, e.g. "Q42" or "foo:P777". */
  function Format(id: EntityId): string {
    (if id.repository == "" then "" else id.repository + ":")
      + [TypeLetter(id.entityType)] + NatToDigits(id.number)
  }

  /** Parses an unprefixed local id such as "Q42". */
  function ParseLocal(s: string): (r: Option<(EntityType, nat)>)
    ensures r.Some? ==> r.value.1 >= 1 && [TypeLetter(r.value.0)] + NatToDigits(r.value.1) == s
  {
    if |s| >= 2 && (s[0] == 'Q' || s[0] == 'P') && IsCanonicalNumber(s[1..]) then
      var t := if s[0] == 'Q' then ItemType else PropertyType;
      var n := DigitsToNat(s[1..]);
      NatOfDigits(s[1..]);
      CanonicalNumberPositive(s[1..]);
      assert s == [s[0]] + s[1..];
      Some((t, n))
    else
      None
  }

  /** Parses a serialization; None for anything that is not a well-formed id. */
  function Parse(s: string): (r: Option<EntityId>)
    ensures r.Some? ==> ValidEntityId(r.value) && Format(r.value) == s
  {
    match IndexOf(s, ':')
    case None =>
      (match ParseLocal(s)
       case None => None
       case Some(local) => Some(EntityId("", local.0, local.1)))
    case Some(i) =>
      if i == 0 then None
      else
        match ParseLocal(s[i + 1..])
        case None => None
        case Some(local) =>
          assert s == s[..i] + ":" + s[i + 1..];
          Some(EntityId(s[..i], local.0, local.1))
  }

  lemma LocalPartHasNoColon(id: EntityId)
    ensures ':' !in [TypeLetter(id.entityType)] + NatToDigits(id.number)
  {
    var d := NatToDigits(id.number);
    assert forall k :: 0 <= k < |d| ==> d[k] != ':';
  }

  /** Every valid id survives a serialization round trip. */
  lemma {:induction false} ParseFormat(id: EntityId)
    requires ValidEntityId(id)
    ensures Parse(Format(id)) == Some(id)
  {
    var local := [TypeLetter(id.entityType)] + NatToDigits(id.number);
    var s := Format(id);
    LocalPartHasNoColon(id);
    DigitsOfNat(id.number);
    assert local[1..] == NatToDigits(id.number);
    assert ParseLocal(local) == Some((id.entityType, id.number));
    if id.repository == "" {
      assert s == local;
    } else {
      var r := id.repository;
      assert s == r + ":" + local;
      assert s[..|r|] == r && s[|r|] == ':';
      assert IndexOf(s, ':') == Some(|r|);
      assert s[|r| + 1..] == local;
    }
  }

  /** The repository name of a serialization: the part before the first ':', or "". */
  function RepositoryNameOf(serialization: string): (r: string)
    ensures ':' !in r
    ensures ':' !in serialization ==> r == ""
    ensures ':' in serialization ==> |r| < |serialization| && serialization[..|r|] == r && serialization[|r|] == ':'
  {
    match IndexOf(serialization, ':')
    case None => ""
    case Some(i) => serialization[..i]
  }

  /** The repository name read off a serialization is the id's own prefix. */
  lemma {:induction false} RepositoryNameOfFormat(id: EntityId)
    requires ValidEntityId(id)
    ensures RepositoryNameOf(Format(id)) == id.repository
  {
    LocalPartHasNoColon(id);
    var local := [TypeLetter(id.entityType)] + NatToDigits(id.number);
    if id.repository != "" {
      var r := id.repository;
      assert Format(id) == r + ":" + local;
      assert Format(id)[..|r|] == r && Format(id)[|r|] == ':';
      assert IndexOf(Format(id), ':') == Some(|r|);
    } else {
      assert Format(id) == local;
    }
  }
}

/** The current serialization of items: the entity type, the three term
    lists, the statements grouped by property under "claims", and the
    sitelinks keyed by site, optionally as an object. Decoders of each part
    are the partners its round trips are proved against. */
module ItemSerialization {
  import opened Wrappers
  import opened EntityIds
  import opened DataModel
  import opened Wire

  /** What a caller may hand to the serializer: an item, a property, or a plain value. */
  datatype Serializable =
    | ItemObject(item: Item)
    | PropertyObject(property: Property)
    | IntValue(i: int)
    | ArrayValue(array: Serial)

  /** isSerializerFor: the item serializer takes items and nothing else. */
  predicate IsSerializerFor(x: Serializable) {
    x.ItemObject?
  }

  // ---------------------------------------------------------------------------
  // Terms

  function TermSerial(lang: string, text: string): Serial {
    SMap(map["language" := SString(lang), "value" := SString(text)])
  }

  /** Labels or descriptions: language code → {language, value}. */
  function TermListSerial(terms: map<string, string>): Serial {
    SMap(map lang | lang in terms :: TermSerial(lang, terms[lang]))
  }

  function AliasSerials(lang: string, texts: seq<string>): (r: seq<Serial>)
    ensures |r| == |texts|
    ensures forall i :: 0 <= i < |texts| ==> r[i] == TermSerial(lang, texts[i])
  {
    if |texts| == 0 then [] else [TermSerial(lang, texts[0])] + AliasSerials(lang, texts[1..])
  }

  /** Languages whose alias list is not empty: the groups an alias group list holds. */
  function NonEmptyAliases(aliases: map<string, seq<string>>): map<string, seq<string>> {
    map lang | lang in aliases && aliases[lang] != [] :: aliases[lang]
  }

  /** Aliases: language code → list of {language, value}, one per alias. */
  function AliasGroupListSerial(aliases: map<string, seq<string>>): Serial {
    SMap(map lang | lang in NonEmptyAliases(aliases) :: SList(AliasSerials(lang, aliases[lang])))
  }

  /** Reads one {language, value} entry filed under `lang`. */
  function DecodeTerm(lang: string, s: Serial): Option<string> {
    if s.SMap? && "language" in s.entries && "value" in s.entries
       && s.entries["language"] == SString(lang) && s.entries["value"].SString?
    then Some(s.entries["value"].s)
    else None
  }

  function DecodeTermList(s: Serial): Option<map<string, string>> {
    match AsMap(s)
    case None => None
    case Some(m) =>
      if forall lang :: lang in m ==> DecodeTerm(lang, m[lang]).Some? then
        Some(map lang | lang in m :: DecodeTerm(lang, m[lang]).value)
      else None
  }

  /** Labels and descriptions survive serialization unchanged. */
  lemma TermListRoundTrip(terms: map<string, string>)
    ensures DecodeTermList(TermListSerial(terms)) == Some(terms)
  {
    var m := TermListSerial(terms).entries;
    assert AsMap(TermListSerial(terms)) == Some(m);
    forall lang | lang in m
      ensures DecodeTerm(lang, m[lang]) == Some(terms[lang])
    {
      TermRoundTrip(lang, terms[lang]);
    }
    DecodedTermsAreTerms(m, terms);
  }

  lemma TermRoundTrip(lang: string, text: string)
    ensures DecodeTerm(lang, TermSerial(lang, text)) == Some(text)
  {
    var e := TermSerial(lang, text).entries;
    assert e["language"] == SString(lang) && e["value"] == SString(text);
  }

  lemma DecodedTermsAreTerms(m: map<string, Serial>, terms: map<string, string>)
    requires m.Keys == terms.Keys
    requires forall lang :: lang in m ==> DecodeTerm(lang, m[lang]) == Some(terms[lang])
    ensures DecodeTermList(SMap(m)) == Some(terms)
  {
    var decoded := map lang | lang in m :: DecodeTerm(lang, m[lang]).value;
    assert decoded == terms;
  }

  function DecodeAliasTexts(lang: string, items: seq<Serial>): (r: Option<seq<string>>)
    ensures r.Some? ==> |r.value| == |items|
  {
    if |items| == 0 then Some([])
    else
      match DecodeTerm(lang, items[0])
      case None => None
      case Some(text) =>
        match DecodeAliasTexts(lang, items[1..])
        case None => None
        case Some(rest) => Some([text] + rest)
  }

  lemma {:induction false} AliasTextsRoundTrip(lang: string, texts: seq<string>)
    ensures DecodeAliasTexts(lang, AliasSerials(lang, texts)) == Some(texts)
  {
    if |texts| > 0 {
      var items := AliasSerials(lang, texts);
      AliasTextsRoundTrip(lang, texts[1..]);
      assert items[1..] == AliasSerials(lang, texts[1..]);
      assert DecodeTerm(lang, items[0]) == Some(texts[0]) by {
        TermRoundTrip(lang, texts[0]);
      }
      DecodeAliasTextsStep(lang, items, texts[0], texts[1..]);
      assert texts == [texts[0]] + texts[1..];
    }
  }

  lemma DecodeAliasTextsStep(lang: string, items: seq<Serial>, text: string, rest: seq<string>)
    requires |items| > 0 && DecodeTerm(lang, items[0]) == Some(text)
    requires DecodeAliasTexts(lang, items[1..]) == Some(rest)
    ensures DecodeAliasTexts(lang, items) == Some([text] + rest)
  {
  }

  function DecodeAliasGroup(lang: string, s: Serial): Option<seq<string>> {
    match AsList(s)
    case None => None
    case Some(items) => DecodeAliasTexts(lang, items)
  }

  function DecodeAliasGroupList(s: Serial): Option<map<string, seq<string>>> {
    match AsMap(s)
    case None => None
    case Some(m) =>
      if forall lang :: lang in m ==> DecodeAliasGroup(lang, m[lang]).Some? then
        Some(map lang | lang in m :: DecodeAliasGroup(lang, m[lang]).value)
      else None
  }

  /** Aliases come back for every language that had any; languages with an
      empty alias list are not written. */
  lemma AliasGroupListRoundTrip(aliases: map<string, seq<string>>)
    ensures DecodeAliasGroupList(AliasGroupListSerial(aliases)) == Some(NonEmptyAliases(aliases))
  {
    var m := AliasGroupListSerial(aliases).entries;
    var groups := NonEmptyAliases(aliases);
    AliasGroupsDecode(aliases);
    DecodedGroupsAreGroups(m, groups);
  }

  lemma AliasGroupsDecode(aliases: map<string, seq<string>>)
    ensures AliasGroupListSerial(aliases).entries.Keys == NonEmptyAliases(aliases).Keys
    ensures forall lang :: lang in AliasGroupListSerial(aliases).entries ==>
      DecodeAliasGroup(lang, AliasGroupListSerial(aliases).entries[lang]) == Some(NonEmptyAliases(aliases)[lang])
  {
    var m := AliasGroupListSerial(aliases).entries;
    forall lang | lang in m
      ensures DecodeAliasGroup(lang, m[lang]) == Some(NonEmptyAliases(aliases)[lang])
    {
      AliasTextsRoundTrip(lang, aliases[lang]);
    }
  }

  lemma DecodedGroupsAreGroups(m: map<string, Serial>, groups: map<string, seq<string>>)
    requires m.Keys == groups.Keys
    requires forall lang :: lang in m ==> DecodeAliasGroup(lang, m[lang]) == Some(groups[lang])
    ensures DecodeAliasGroupList(SMap(m)) == Some(groups)
  {
    var decoded := map lang | lang in m :: DecodeAliasGroup(lang, m[lang]).value;
    assert decoded == groups;
  }

  // ---------------------------------------------------------------------------
  // Statements

  function RankName(rank: Rank): string {
    match rank
    case Deprecated => "deprecated"
    case Normal => "normal"
    case Preferred => "preferred"
  }

  function SnakSerial(snak: Snak): Serial {
    match snak
    case PropertyNoValueSnak(p) =>
      SMap(map["snaktype" := SString("novalue"), "property" := SString(Format(p))])
    case PropertySomeValueSnak(p) =>
      SMap(map["snaktype" := SString("somevalue"), "property" := SString(Format(p))])
    case PropertyValueSnak(p, v) =>
      SMap(map["snaktype" := SString("value"), "property" := SString(Format(p)),
               "datavalue" := SMap(map["value" := SString(v), "type" := SString("string")])])
  }

  function StatementSerial(statement: Statement): Serial {
    SMap(map["mainsnak" := SnakSerial(statement.mainSnak), "type" := SString("statement"),
             "rank" := SString(RankName(statement.rank))])
  }

  /** The key a statement is filed under: its main snak's property id. */
  function PropertyKey(statement: Statement): string {
    Format(statement.mainSnak.propertyId)
  }

  function PropertyKeys(statements: seq<Statement>): set<string> {
    set s | s in statements :: PropertyKey(s)
  }

  /** `a` is `b` with some elements left out, the rest kept in order. */
  predicate IsSubsequence<T(==)>(a: seq<T>, b: seq<T>)
    decreases |b|
  {
    |a| == 0 || (|b| > 0 && (IsSubsequence(a, b[1..]) || (a[0] == b[0] && IsSubsequence(a[1..], b[1..]))))
  }

  /** The statements filed under `key`, in list order: every statement of
      that property as often as the list holds it, and no other. */
  function StatementsWithKey(statements: seq<Statement>, key: string): (r: seq<Statement>)
    ensures forall s :: s in r <==> s in statements && PropertyKey(s) == key
    ensures forall s :: multiset(r)[s] == if PropertyKey(s) == key then multiset(statements)[s] else 0
    ensures IsSubsequence(r, statements)
    ensures |r| <= |statements|
  {
    if |statements| == 0 then []
    else
      var rest := StatementsWithKey(statements[1..], key);
      assert statements == [statements[0]] + statements[1..];
      assert forall s :: s in statements <==> s == statements[0] || s in statements[1..];
      assert multiset(statements) == multiset{statements[0]} + multiset(statements[1..]);
      if PropertyKey(statements[0]) == key then
        assert ([statements[0]] + rest)[1..] == rest;
        [statements[0]] + rest
      else rest
  }

  function StatementSerials(statements: seq<Statement>): (r: seq<Serial>)
    ensures |r| == |statements|
    ensures forall i :: 0 <= i < |statements| ==> r[i] == StatementSerial(statements[i])
  {
    if |statements| == 0 then [] else [StatementSerial(statements[0])] + StatementSerials(statements[1..])
  }

  /** "claims": property id → list of that property's statements. */
  function StatementListSerial(statements: seq<Statement>): Serial {
    SMap(map key | key in PropertyKeys(statements) :: SList(StatementSerials(StatementsWithKey(statements, key))))
  }

  /** Each property with statements has one group; each group holds exactly
      the statements of its property, and every statement is in its group. */
  lemma {:induction false} StatementsGroupedByProperty(statements: seq<Statement>)
    ensures StatementListSerial(statements).entries.Keys == PropertyKeys(statements)
    ensures forall key :: key in StatementListSerial(statements).entries ==>
      StatementListSerial(statements).entries[key] == SList(StatementSerials(StatementsWithKey(statements, key)))
      && |StatementsWithKey(statements, key)| >= 1
    ensures forall i :: 0 <= i < |statements| ==>
      StatementSerial(statements[i]) in StatementListSerial(statements).entries[PropertyKey(statements[i])].items
  {
    GroupsAreKeyedByProperty(statements);
    EveryStatementInItsGroup(statements);
  }

  lemma GroupsAreKeyedByProperty(statements: seq<Statement>)
    ensures StatementListSerial(statements).entries.Keys == PropertyKeys(statements)
    ensures forall key :: key in StatementListSerial(statements).entries ==>
      StatementListSerial(statements).entries[key] == SList(StatementSerials(StatementsWithKey(statements, key)))
      && |StatementsWithKey(statements, key)| >= 1
  {
    forall key | key in PropertyKeys(statements)
      ensures |StatementsWithKey(statements, key)| >= 1
    {
      GroupIsNonEmpty(statements, key);
    }
  }

  lemma EveryStatementInItsGroup(statements: seq<Statement>)
    ensures forall i :: 0 <= i < |statements| ==>
      StatementSerial(statements[i]) in StatementListSerial(statements).entries[PropertyKey(statements[i])].items
  {
    forall i | 0 <= i < |statements|
      ensures StatementSerial(statements[i]) in StatementListSerial(statements).entries[PropertyKey(statements[i])].items
    {
      StatementInItsGroup(statements, i);
    }
  }

  lemma GroupIsNonEmpty(statements: seq<Statement>, key: string)
    requires key in PropertyKeys(statements)
    ensures |StatementsWithKey(statements, key)| >= 1
  {
    var s :| s in statements && PropertyKey(s) == key;
    assert s in StatementsWithKey(statements, key);
  }

  lemma StatementInItsGroup(statements: seq<Statement>, i: nat)
    requires i < |statements|
    ensures PropertyKey(statements[i]) in StatementListSerial(statements).entries
    ensures StatementSerial(statements[i]) in StatementListSerial(statements).entries[PropertyKey(statements[i])].items
  {
    var key := PropertyKey(statements[i]);
    var group := StatementsWithKey(statements, key);
    assert statements[i] in group;
    var j :| 0 <= j < |group| && group[j] == statements[i];
    assert StatementSerials(group)[j] == StatementSerial(statements[i]);
    assert StatementListSerial(statements).entries[key] == SList(StatementSerials(group));
  }

  function DecodeRank(name: string): Option<Rank> {
    if name == "deprecated" then Some(Deprecated)
    else if name == "normal" then Some(Normal)
    else if name == "preferred" then Some(Preferred)
    else None
  }

  /** Reads a {snaktype, property, datavalue} map back into a snak. */
  function DecodeMainSnak(s: Serial): Option<Snak> {
    if !(s.SMap? && "snaktype" in s.entries && "property" in s.entries
         && s.entries["snaktype"].SString? && s.entries["property"].SString?) then None
    else
      match Parse(s.entries["property"].s)
      case None => None
      case Some(p) =>
        var kind := s.entries["snaktype"].s;
        if kind == "novalue" then Some(PropertyNoValueSnak(p))
        else if kind == "somevalue" then Some(PropertySomeValueSnak(p))
        else if kind == "value" && "datavalue" in s.entries && s.entries["datavalue"].SMap?
                && "value" in s.entries["datavalue"].entries
                && s.entries["datavalue"].entries["value"].SString?
        then Some(PropertyValueSnak(p, s.entries["datavalue"].entries["value"].s))
        else None
  }

  function DecodeStatement(s: Serial): Option<Statement> {
    if !(s.SMap? && "mainsnak" in s.entries && "rank" in s.entries && s.entries["rank"].SString?) then None
    else
      match (DecodeMainSnak(s.entries["mainsnak"]), DecodeRank(s.entries["rank"].s))
      case (Some(snak), Some(rank)) => Some(Statement(snak, rank))
      case _ => None
  }

  function DecodeStatements(items: seq<Serial>): (r: Option<seq<Statement>>)
    ensures r.Some? ==> |r.value| == |items|
  {
    if |items| == 0 then Some([])
    else
      match DecodeStatement(items[0])
      case None => None
      case Some(statement) =>
        match DecodeStatements(items[1..])
        case None => None
        case Some(rest) => Some([statement] + rest)
  }

  function DecodeStatementGroup(s: Serial): Option<seq<Statement>> {
    match AsList(s)
    case None => None
    case Some(items) => DecodeStatements(items)
  }

  /** Reads "claims" back: property id → that property's statements. */
  function DecodeStatementList(s: Serial): Option<map<string, seq<Statement>>> {
    match AsMap(s)
    case None => None
    case Some(m) =>
      if forall key :: key in m ==> DecodeStatementGroup(m[key]).Some? then
        Some(map key | key in m :: DecodeStatementGroup(m[key]).value)
      else None
  }

  /** The statements of a list, grouped by property. */
  function GroupedStatements(statements: seq<Statement>): map<string, seq<Statement>> {
    map key | key in PropertyKeys(statements) :: StatementsWithKey(statements, key)
  }

  /** The groups together hold every statement exactly as often as the list
      does, each in the group of its own property. */
  lemma GroupsHoldEveryStatement(statements: seq<Statement>)
    ensures forall s :: s in statements ==>
      PropertyKey(s) in GroupedStatements(statements)
      && multiset(GroupedStatements(statements)[PropertyKey(s)])[s] == multiset(statements)[s]
    ensures forall key, s :: key in GroupedStatements(statements) && s in GroupedStatements(statements)[key] ==>
      PropertyKey(s) == key
  {
  }

  lemma MainSnakRoundTrip(snak: Snak)
    requires ValidEntityId(snak.propertyId)
    ensures DecodeMainSnak(SnakSerial(snak)) == Some(snak)
  {
    ParseFormat(snak.propertyId);
    var e := SnakSerial(snak).entries;
    assert e["property"] == SString(Format(snak.propertyId));
    match snak
    case PropertyNoValueSnak(p) =>
      assert e["snaktype"] == SString("novalue");
    case PropertySomeValueSnak(p) =>
      assert e["snaktype"] == SString("somevalue");
    case PropertyValueSnak(p, v) =>
      assert e["snaktype"] == SString("value");
      assert e["datavalue"].entries["value"] == SString(v);
  }

  /** Statements whose property ids are valid survive serialization. */
  lemma StatementRoundTrip(statement: Statement)
    requires ValidEntityId(statement.mainSnak.propertyId)
    ensures DecodeStatement(StatementSerial(statement)) == Some(statement)
  {
    MainSnakRoundTrip(statement.mainSnak);
    var e := StatementSerial(statement).entries;
    assert e["mainsnak"] == SnakSerial(statement.mainSnak);
    assert e["rank"] == SString(RankName(statement.rank));
    RankRoundTrip(statement.rank);
  }

  lemma RankRoundTrip(rank: Rank)
    ensures DecodeRank(RankName(rank)) == Some(rank)
  {
    match rank
    case Deprecated =>
    case Normal =>
      assert "normal"[0] != "deprecated"[0];
    case Preferred =>
      assert "preferred"[0] != "deprecated"[0] && "preferred"[0] != "normal"[0];
  }

  lemma {:induction false} StatementsRoundTrip(statements: seq<Statement>)
    requires forall i :: 0 <= i < |statements| ==> ValidEntityId(statements[i].mainSnak.propertyId)
    ensures DecodeStatements(StatementSerials(statements)) == Some(statements)
  {
    if |statements| > 0 {
      var items := StatementSerials(statements);
      StatementsRoundTrip(statements[1..]);
      assert items[1..] == StatementSerials(statements[1..]);
      assert DecodeStatement(items[0]) == Some(statements[0]) by {
        StatementRoundTrip(statements[0]);
      }
      DecodeStatementsStep(items, statements[0], statements[1..]);
      assert statements == [statements[0]] + statements[1..];
    }
  }

  lemma DecodeStatementsStep(items: seq<Serial>, statement: Statement, rest: seq<Statement>)
    requires |items| > 0 && DecodeStatement(items[0]) == Some(statement)
    requires DecodeStatements(items[1..]) == Some(rest)
    ensures DecodeStatements(items) == Some([statement] + rest)
  {
  }

  /** "claims" reads back as the statements grouped by property, each group in list order. */
  lemma {:induction false} StatementListRoundTrip(statements: seq<Statement>)
    requires forall i :: 0 <= i < |statements| ==> ValidEntityId(statements[i].mainSnak.propertyId)
    ensures DecodeStatementList(StatementListSerial(statements)) == Some(GroupedStatements(statements))
  {
    var m := StatementListSerial(statements).entries;
    var groups := GroupedStatements(statements);
    forall key | key in m
      ensures DecodeStatementGroup(m[key]) == Some(groups[key])
    {
      GroupRoundTrip(statements, key);
    }
    DecodedStatementGroups(m, groups);
  }

  lemma GroupRoundTrip(statements: seq<Statement>, key: string)
    requires forall i :: 0 <= i < |statements| ==> ValidEntityId(statements[i].mainSnak.propertyId)
    ensures DecodeStatementGroup(SList(StatementSerials(StatementsWithKey(statements, key))))
      == Some(StatementsWithKey(statements, key))
  {
    var group := StatementsWithKey(statements, key);
    forall i | 0 <= i < |group|
      ensures ValidEntityId(group[i].mainSnak.propertyId)
    {
      assert group[i] in statements;
    }
    StatementsRoundTrip(group);
  }

  lemma DecodedStatementGroups(m: map<string, Serial>, groups: map<string, seq<Statement>>)
    requires m.Keys == groups.Keys
    requires forall key :: key in m ==> DecodeStatementGroup(m[key]) == Some(groups[key])
    ensures DecodeStatementList(SMap(m)) == Some(groups)
  {
    var decoded := map key | key in m :: DecodeStatementGroup(m[key]).value;
    assert decoded == groups;
  }

  // ---------------------------------------------------------------------------
  // Sitelinks

  function BadgeSerials(badges: seq<EntityId>): (r: seq<Serial>)
    ensures |r| == |badges|
    ensures forall i :: 0 <= i < |badges| ==> r[i] == SString(Format(badges[i]))
  {
    if |badges| == 0 then [] else [SString(Format(badges[0]))] + BadgeSerials(badges[1..])
  }

  function SiteLinkSerial(link: SiteLink): Serial {
    SMap(map["site" := SString(link.siteId), "title" := SString(link.pageName),
             "badges" := SList(BadgeSerials(link.badges))])
  }

  function SiteLinkEntries(links: SiteLinkList): map<string, Serial> {
    map site | site in links :: SiteLinkSerial(links[site])
  }

  function DecodeBadges(items: seq<Serial>): Option<seq<EntityId>> {
    if |items| == 0 then Some([])
    else if !items[0].SString? then None
    else
      match Parse(items[0].s)
      case None => None
      case Some(id) =>
        match DecodeBadges(items[1..])
        case None => None
        case Some(rest) => Some([id] + rest)
  }

  lemma {:induction false} BadgesRoundTrip(badges: seq<EntityId>)
    requires forall i :: 0 <= i < |badges| ==> ValidEntityId(badges[i])
    ensures DecodeBadges(BadgeSerials(badges)) == Some(badges)
  {
    if |badges| > 0 {
      var items := BadgeSerials(badges);
      BadgesRoundTrip(badges[1..]);
      assert items[1..] == BadgeSerials(badges[1..]);
      assert items[0].SString? && Parse(items[0].s) == Some(badges[0]) by {
        ParseFormat(badges[0]);
      }
      DecodeBadgesStep(items, badges[0], badges[1..]);
      assert badges == [badges[0]] + badges[1..];
    }
  }

  lemma DecodeBadgesStep(items: seq<Serial>, id: EntityId, rest: seq<EntityId>)
    requires |items| > 0 && items[0].SString? && Parse(items[0].s) == Some(id)
    requires DecodeBadges(items[1..]) == Some(rest)
    ensures DecodeBadges(items) == Some([id] + rest)
  {
  }

  function DecodeSiteLink(s: Serial): Option<SiteLink> {
    if s.SMap? && "site" in s.entries && "title" in s.entries && "badges" in s.entries
       && s.entries["site"].SString? && s.entries["title"].SString?
    then
      match AsList(s.entries["badges"])
      case None => None
      case Some(items) =>
        match DecodeBadges(items)
        case None => None
        case Some(badges) => Some(SiteLink(s.entries["site"].s, s.entries["title"].s, badges))
    else None
  }

  /** Reads the sitelinks in either shape, array or object. */
  function DecodeSiteLinks(s: Serial): Option<SiteLinkList> {
    var entries := if s.SObject? then Some(s.fields) else AsMap(s);
    match entries
    case None => None
    case Some(m) =>
      if forall site :: site in m ==> DecodeSiteLink(m[site]).Some? then
        Some(map site | site in m :: DecodeSiteLink(m[site]).value)
      else None
  }

  /** Sitelinks keyed by their own site and with well-formed badges come back
      unchanged, from the array shape and from the object shape alike. */
  lemma SiteLinksRoundTrip(links: SiteLinkList)
    requires SiteLinkListIsKeyed(links)
    requires forall site, i :: site in links && 0 <= i < |links[site].badges| ==> ValidEntityId(links[site].badges[i])
    ensures DecodeSiteLinks(SMap(SiteLinkEntries(links))) == Some(links)
    ensures DecodeSiteLinks(SObject(SiteLinkEntries(links))) == Some(links)
  {
    var m := SiteLinkEntries(links);
    forall site | site in m
      ensures DecodeSiteLink(m[site]) == Some(links[site])
    {
      SiteLinkRoundTrip(links[site]);
    }
    DecodedLinksAreLinks(m, links);
  }

  lemma SiteLinkRoundTrip(link: SiteLink)
    requires forall i :: 0 <= i < |link.badges| ==> ValidEntityId(link.badges[i])
    ensures DecodeSiteLink(SiteLinkSerial(link)) == Some(link)
  {
    var e := SiteLinkSerial(link).entries;
    assert e["site"] == SString(link.siteId) && e["title"] == SString(link.pageName);
    assert AsList(e["badges"]) == Some(BadgeSerials(link.badges));
    assert DecodeBadges(BadgeSerials(link.badges)) == Some(link.badges) by {
      BadgesRoundTrip(link.badges);
    }
  }

  lemma DecodedLinksAreLinks(m: map<string, Serial>, links: SiteLinkList)
    requires m.Keys == links.Keys
    requires forall site :: site in m ==> DecodeSiteLink(m[site]) == Some(links[site])
    ensures DecodeSiteLinks(SMap(m)) == Some(links)
    ensures DecodeSiteLinks(SObject(m)) == Some(links)
  {
    var decoded := map site | site in m :: DecodeSiteLink(m[site]).value;
    assert decoded == links;
  }

  // ---------------------------------------------------------------------------
  // The item

  /** The keys of an item's serialization: the type, the five map fields, and
      the id when the item has one. */
  function ItemKeys(item: Item): set<string> {
    {"type", "labels", "descriptions", "aliases", "sitelinks", "claims"} + (if item.id.Some? then {"id"} else {})
  }

  function ItemFields(item: Item, useObjectsForMaps: bool): map<string, Serial> {
    var links := SiteLinkEntries(item.siteLinks);
    var fields := map[
      "type" := SString("item"),
      "labels" := TermListSerial(item.fingerprint.labels),
      "descriptions" := TermListSerial(item.fingerprint.descriptions),
      "aliases" := AliasGroupListSerial(item.fingerprint.aliases),
      "claims" := StatementListSerial(item.statements),
      "sitelinks" := if useObjectsForMaps then SObject(links) else SMap(links)];
    if item.id.Some? then fields["id" := SString(Format(item.id.value))] else fields
  }

  /** ItemSerializer::serialize; a Failure is its UnsupportedObjectException. */
  function Serialize(x: Serializable, useObjectsForMaps: bool): (r: Result<Serial, string>)
    ensures r.Success? <==> IsSerializerFor(x)
    ensures r.Success? ==> r.value.SMap? && r.value.entries.Keys == ItemKeys(x.item)
    ensures r.Success? ==> r.value.entries["type"] == SString("item")
  {
    match x
    case ItemObject(item) => Success(SMap(ItemFields(item, useObjectsForMaps)))
    case _ => Failure("ItemSerializer can only serialize Item objects")
  }

  /** With objects for maps only "sitelinks" changes, to an object with the same entries. */
  lemma ObjectsForMapsOnlyChangesSiteLinks(item: Item)
    ensures var plain := Serialize(ItemObject(item), false).value.entries;
      var objects := Serialize(ItemObject(item), true).value.entries;
      && plain.Keys == objects.Keys
      && (forall key :: key in plain && key != "sitelinks" ==> objects[key] == plain[key])
      && plain["sitelinks"] == SMap(SiteLinkEntries(item.siteLinks))
      && objects["sitelinks"] == SObject(SiteLinkEntries(item.siteLinks))
  {
  }

  /** The serialization of an item carries back its id, terms, aliases,
      statements (grouped by property) and sitelinks. */
  lemma {:induction false} ItemRoundTrip(item: Item, useObjectsForMaps: bool)
    requires item.id.Some? ==> ValidEntityId(item.id.value)
    requires forall i :: 0 <= i < |item.statements| ==> ValidEntityId(item.statements[i].mainSnak.propertyId)
    requires SiteLinkListIsKeyed(item.siteLinks)
    requires forall site, i :: site in item.siteLinks && 0 <= i < |item.siteLinks[site].badges| ==>
      ValidEntityId(item.siteLinks[site].badges[i])
    ensures var e := Serialize(ItemObject(item), useObjectsForMaps).value.entries;
      && ("id" in e <==> item.id.Some?)
      && ("id" in e ==> e["id"].SString? && Parse(e["id"].s) == item.id)
      && DecodeStatementList(e["claims"]) == Some(GroupedStatements(item.statements))
      && DecodeTermList(e["labels"]) == Some(item.fingerprint.labels)
      && DecodeTermList(e["descriptions"]) == Some(item.fingerprint.descriptions)
      && DecodeAliasGroupList(e["aliases"]) == Some(NonEmptyAliases(item.fingerprint.aliases))
      && DecodeSiteLinks(e["sitelinks"]) == Some(item.siteLinks)
  {
    var e := Serialize(ItemObject(item), useObjectsForMaps).value.entries;
    assert e == ItemFields(item, useObjectsForMaps);
    ItemFieldsEntries(item, useObjectsForMaps);
    assert DecodeTermList(e["labels"]) == Some(item.fingerprint.labels) by {
      TermListRoundTrip(item.fingerprint.labels);
    }
    assert DecodeTermList(e["descriptions"]) == Some(item.fingerprint.descriptions) by {
      TermListRoundTrip(item.fingerprint.descriptions);
    }
    assert DecodeAliasGroupList(e["aliases"]) == Some(NonEmptyAliases(item.fingerprint.aliases)) by {
      AliasGroupListRoundTrip(item.fingerprint.aliases);
    }
    assert DecodeSiteLinks(e["sitelinks"]) == Some(item.siteLinks) by {
      SiteLinksRoundTrip(item.siteLinks);
    }
    ItemIdAndClaimsRoundTrip(item, useObjectsForMaps);
  }

  /** Where each field of an item lands in its serialization. */
  lemma ItemFieldsEntries(item: Item, useObjectsForMaps: bool)
    ensures var e := ItemFields(item, useObjectsForMaps);
      && "type" in e && e["type"] == SString("item")
      && "labels" in e && e["labels"] == TermListSerial(item.fingerprint.labels)
      && "descriptions" in e && e["descriptions"] == TermListSerial(item.fingerprint.descriptions)
      && "aliases" in e && e["aliases"] == AliasGroupListSerial(item.fingerprint.aliases)
      && "claims" in e && e["claims"] == StatementListSerial(item.statements)
      && "sitelinks" in e
      && e["sitelinks"] == (if useObjectsForMaps then SObject(SiteLinkEntries(item.siteLinks))
                            else SMap(SiteLinkEntries(item.siteLinks)))
      && ("id" in e <==> item.id.Some?)
      && (item.id.Some? ==> e["id"] == SString(Format(item.id.value)))
  {
  }

  lemma ItemIdAndClaimsRoundTrip(item: Item, useObjectsForMaps: bool)
    requires item.id.Some? ==> ValidEntityId(item.id.value)
    requires forall i :: 0 <= i < |item.statements| ==> ValidEntityId(item.statements[i].mainSnak.propertyId)
    ensures var e := ItemFields(item, useObjectsForMaps);
      && ("id" in e <==> item.id.Some?)
      && ("id" in e ==> e["id"].SString? && Parse(e["id"].s) == item.id)
      && DecodeStatementList(e["claims"]) == Some(GroupedStatements(item.statements))
  {
    var e := ItemFields(item, useObjectsForMaps);
    ItemFieldsEntries(item, useObjectsForMaps);
    assert DecodeStatementList(e["claims"]) == Some(GroupedStatements(item.statements)) by {
      StatementListRoundTrip(item.statements);
    }
    if item.id.Some? {
      assert Parse(Format(item.id.value)) == item.id by {
        ParseFormat(item.id.value);
      }
    }
  }

  // ---------------------------------------------------------------------------
  // The rows of the serializer tests

  /** Plain values and properties are not serializable; any item is. */
  lemma SerializableSplit(item: Item)
    ensures IsSerializerFor(ItemObject(item)) && IsSerializerFor(ItemObject(NewItem()))
    ensures !IsSerializerFor(IntValue(5))
    ensures !IsSerializerFor(ArrayValue(EmptyArray()))
    ensures !IsSerializerFor(PropertyObject(Property(None, EmptyFingerprint(), "", [])))
    ensures Serialize(IntValue(5), false).Failure?
    ensures Serialize(ArrayValue(EmptyArray()), false).Failure?
    ensures Serialize(PropertyObject(Property(None, EmptyFingerprint(), "", [])), false).Failure?
  {
  }

  /** An empty item: the type and five empty arrays. */
  lemma EmptyItemRow()
    ensures Serialize(ItemObject(NewItem()), false) == Success(SMap(map[
      "type" := SString("item"),
      "labels" := EmptyArray(),
      "descriptions" := EmptyArray(),
      "aliases" := EmptyArray(),
      "claims" := EmptyArray(),
      "sitelinks" := EmptyArray()]))
  {
    var f := NewItem().fingerprint;
    assert f == Fingerprint(map[], map[], map[]);
    assert NonEmptyAliases(f.aliases) == map[];
    assert PropertyKeys([]) == {};
    assert TermListSerial(f.labels) == EmptyArray();
    assert TermListSerial(f.descriptions) == EmptyArray();
    assert AliasGroupListSerial(f.aliases) == EmptyArray();
    assert StatementListSerial([]) == EmptyArray();
    assert SiteLinkEntries(map[]) == map[];
    assert ItemFields(NewItem(), false) == map[
      "type" := SString("item"),
      "labels" := EmptyArray(),
      "descriptions" := EmptyArray(),
      "aliases" := EmptyArray(),
      "claims" := EmptyArray(),
      "sitelinks" := EmptyArray()];
    assert Serialize(ItemObject(NewItem()), false) == Success(SMap(ItemFields(NewItem(), false)));
  }

  /** One no-value statement on P42 is filed under "P42". */
  lemma {:induction false} StatementRow()
    ensures var statement := Statement(PropertyNoValueSnak(PropertyId(42)), Normal);
      Serialize(ItemObject(Item(None, EmptyFingerprint(), [statement], map[])), false).value.entries["claims"]
        == SMap(map["P42" := SList([SMap(map[
             "mainsnak" := SMap(map["snaktype" := SString("novalue"), "property" := SString("P42")]),
             "type" := SString("statement"),
             "rank" := SString("normal")])])])
  {
    var statement := Statement(PropertyNoValueSnak(PropertyId(42)), Normal);
    assert Format(PropertyId(42)) == "P42" by {
      assert NatToDigits(42) == NatToDigits(4) + [DigitChar(2)];
    }
    var serial := SMap(map[
      "mainsnak" := SMap(map["snaktype" := SString("novalue"), "property" := SString("P42")]),
      "type" := SString("statement"),
      "rank" := SString("normal")]);
    assert StatementSerial(statement) == serial;
    SingleStatementClaims(statement);
    var item := Item(None, EmptyFingerprint(), [statement], map[]);
    assert Serialize(ItemObject(item), false).value.entries == ItemFields(item, false);
    ItemFieldsEntries(item, false);
  }

  lemma SingleStatementClaims(statement: Statement)
    ensures StatementListSerial([statement])
      == SMap(map[PropertyKey(statement) := SList([StatementSerial(statement)])])
  {
    var key := PropertyKey(statement);
    assert statement in [statement];
    assert PropertyKeys([statement]) == {key};
    assert StatementsWithKey([statement], key) == [statement];
    assert StatementSerials([statement]) == [StatementSerial(statement)];
    var claims := StatementListSerial([statement]);
    assert claims.entries.Keys == {key};
  }

  /** The sitelink to enwiki "Nyan Cat" is filed under its site, with no badges. */
  lemma SiteLinkRow()
    ensures var item := Item(None, EmptyFingerprint(), [], map["enwiki" := SiteLink("enwiki", "Nyan Cat", [])]);
      var nyan := SMap(map["site" := SString("enwiki"), "title" := SString("Nyan Cat"), "badges" := SList([])]);
      && Serialize(ItemObject(item), false).value.entries["sitelinks"] == SMap(map["enwiki" := nyan])
      && Serialize(ItemObject(item), true).value.entries["sitelinks"] == SObject(map["enwiki" := nyan])
  {
    var links := map["enwiki" := SiteLink("enwiki", "Nyan Cat", [])];
    assert SiteLinkEntries(links) == map["enwiki" := SiteLinkSerial(links["enwiki"])];
  }
}

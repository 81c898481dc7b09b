/** Decoders of the legacy internal serialization: entity ids as plain
    strings, snaks as flat tuples, claims as m/q/g maps and sitelink lists as
    site → title maps. Each decoder is paired with the encoder of the same
    legacy shape, and the round trips are proved. */
module LegacyDeserialization {
  import opened Wrappers
  import opened EntityIds
  import opened DataModel
  import opened Wire
  import ItemSerialization

  // ---------------------------------------------------------------------------
  // Entity ids

  function DecodeEntityId(s: Serial): (r: Option<EntityId>)
    ensures r.Some? ==> s.SString? && ValidEntityId(r.value) && Format(r.value) == s.s
  {
    if s.SString? then Parse(s.s) else None
  }

  function EncodeEntityId(id: EntityId): Serial {
    SString(Format(id))
  }

  lemma EntityIdRoundTrip(id: EntityId)
    requires ValidEntityId(id)
    ensures DecodeEntityId(EncodeEntityId(id)) == Some(id)
  {
    ParseFormat(id);
  }

  // ---------------------------------------------------------------------------
  // Snaks

  /** The property ids a legacy snak can name: local, by positive number. */
  predicate IsLegacyPropertyId(p: EntityId) {
    p.repository == "" && p.entityType == PropertyType && p.number >= 1
  }

  function SnakProperty(snak: Snak): EntityId {
    match snak
    case PropertyNoValueSnak(p) => p
    case PropertySomeValueSnak(p) => p
    case PropertyValueSnak(p, _) => p
  }

  /** A flat snak tuple: [snak type, property number], with the data value type
      and value appended for a value snak. */
  function DecodeSnak(s: Serial): (r: Option<Snak>)
    ensures r.Some? ==> IsLegacyPropertyId(SnakProperty(r.value))
  {
    match AsList(s)
    case None => None
    case Some(items) =>
      if |items| < 2 || !items[0].SString? || !items[1].SInt? || items[1].i < 1 then None
      else
        var p := PropertyId(items[1].i);
        var snakType := items[0].s;
        if snakType == "novalue" && |items| == 2 then Some(PropertyNoValueSnak(p))
        else if snakType == "somevalue" && |items| == 2 then Some(PropertySomeValueSnak(p))
        else if snakType == "value" && |items| == 4 && items[2] == SString("string") && items[3].SString? then
          Some(PropertyValueSnak(p, items[3].s))
        else None
  }

  function EncodeSnak(snak: Snak): Serial {
    match snak
    case PropertyNoValueSnak(p) => SList([SString("novalue"), SInt(p.number)])
    case PropertySomeValueSnak(p) => SList([SString("somevalue"), SInt(p.number)])
    case PropertyValueSnak(p, v) => SList([SString("value"), SInt(p.number), SString("string"), SString(v)])
  }

  lemma SnakRoundTrip(snak: Snak)
    requires IsLegacyPropertyId(SnakProperty(snak))
    ensures DecodeSnak(EncodeSnak(snak)) == Some(snak)
  {
  }

  function DecodeSnaks(items: seq<Serial>): (r: Option<seq<Snak>>)
    ensures r.Some? ==> |r.value| == |items|
    ensures r.Some? ==> forall i :: 0 <= i < |items| ==> DecodeSnak(items[i]) == Some(r.value[i])
  {
    if |items| == 0 then Some([])
    else
      match DecodeSnak(items[0])
      case None => None
      case Some(first) =>
        match DecodeSnaks(items[1..])
        case None => None
        case Some(rest) => Some([first] + rest)
  }

  function EncodeSnaks(snaks: seq<Snak>): (r: seq<Serial>)
    ensures |r| == |snaks|
  {
    if |snaks| == 0 then [] else [EncodeSnak(snaks[0])] + EncodeSnaks(snaks[1..])
  }

  lemma {:induction false} SnaksRoundTrip(snaks: seq<Snak>)
    requires forall i :: 0 <= i < |snaks| ==> IsLegacyPropertyId(SnakProperty(snaks[i]))
    ensures DecodeSnaks(EncodeSnaks(snaks)) == Some(snaks)
  {
    if |snaks| > 0 {
      SnakRoundTrip(snaks[0]);
      SnaksRoundTrip(snaks[1..]);
      assert EncodeSnaks(snaks)[1..] == EncodeSnaks(snaks[1..]);
      assert snaks == [snaks[0]] + snaks[1..];
    }
  }

  // ---------------------------------------------------------------------------
  // Claims

  /** A legacy claim: "m" the main snak, "q" the qualifiers, "g" the guid or null. */
  function DecodeClaim(s: Serial): (r: Option<Claim>)
    ensures r.Some? ==> IsLegacyPropertyId(SnakProperty(r.value.mainSnak))
  {
    match AsMap(s)
    case None => None
    case Some(m) =>
      if "m" !in m || "q" !in m || "g" !in m then None
      else
        var guid := if m["g"] == SNull then Some(None)
                    else if m["g"].SString? then Some(Some(m["g"].s))
                    else None;
        match (DecodeSnak(m["m"]), AsList(m["q"]), guid)
        case (Some(main), Some(items), Some(g)) =>
          (match DecodeSnaks(items)
           case Some(qualifiers) => Some(Claim(main, qualifiers, g))
           case None => None)
        case _ => None
  }

  function EncodeClaim(claim: Claim): Serial {
    SMap(map[
      "m" := EncodeSnak(claim.mainSnak),
      "q" := SList(EncodeSnaks(claim.qualifiers)),
      "g" := if claim.guid.Some? then SString(claim.guid.value) else SNull])
  }

  lemma ClaimRoundTrip(claim: Claim)
    requires IsLegacyPropertyId(SnakProperty(claim.mainSnak))
    requires forall i :: 0 <= i < |claim.qualifiers| ==> IsLegacyPropertyId(SnakProperty(claim.qualifiers[i]))
    ensures DecodeClaim(EncodeClaim(claim)) == Some(claim)
  {
    SnakRoundTrip(claim.mainSnak);
    SnaksRoundTrip(claim.qualifiers);
  }

  // ---------------------------------------------------------------------------
  // Sitelink lists

  /** A legacy sitelink list: site id → page title; the links carry no badges. */
  function DecodeSiteLinkList(s: Serial): (r: Option<SiteLinkList>)
    ensures r.Some? ==> SiteLinkListIsKeyed(r.value)
    ensures r.Some? ==> forall site :: site in r.value ==> r.value[site].badges == []
  {
    match AsMap(s)
    case None => None
    case Some(m) =>
      if forall site :: site in m ==> m[site].SString? then
        Some(map site | site in m :: SiteLink(site, m[site].s, []))
      else None
  }

  function EncodeSiteLinkList(links: SiteLinkList): Serial {
    SMap(map site | site in links :: SString(links[site].pageName))
  }

  lemma SiteLinkListRoundTrip(links: SiteLinkList)
    requires SiteLinkListIsKeyed(links)
    requires forall site :: site in links ==> links[site].badges == []
    ensures DecodeSiteLinkList(EncodeSiteLinkList(links)) == Some(links)
  {
    var m := EncodeSiteLinkList(links).entries;
    var decoded := map site | site in m :: SiteLink(site, m[site].s, []);
    assert decoded == links;
  }

  /** A badge-free sitelink list reads back the same from its legacy
      site → title form as from the current site → {site, title, badges} form. */
  lemma LegacyAndCurrentSiteLinksAgree(links: SiteLinkList)
    requires SiteLinkListIsKeyed(links)
    requires forall site :: site in links ==> links[site].badges == []
    ensures DecodeSiteLinkList(EncodeSiteLinkList(links))
      == ItemSerialization.DecodeSiteLinks(SMap(ItemSerialization.SiteLinkEntries(links)))
  {
    SiteLinkListRoundTrip(links);
    ItemSerialization.SiteLinksRoundTrip(links);
  }

  // ---------------------------------------------------------------------------
  // The rows of the deserializer tests

  lemma {:induction false} EntityIdRow()
    ensures DecodeEntityId(SString("Q1")) == Some(ItemId(1))
  {
    assert EncodeEntityId(ItemId(1)) == SString("Q1");
    EntityIdRoundTrip(ItemId(1));
  }

  lemma SnakRow()
    ensures DecodeSnak(SList([SString("novalue"), SInt(1)])) == Some(PropertyNoValueSnak(PropertyId(1)))
  {
  }

  lemma ClaimRow()
    ensures DecodeClaim(SMap(map["m" := SList([SString("novalue"), SInt(1)]), "q" := EmptyArray(), "g" := SNull]))
      == Some(Claim(PropertyNoValueSnak(PropertyId(1)), [], None))
  {
  }

  lemma SiteLinkListRow()
    ensures DecodeSiteLinkList(SMap(map["foo" := SString("bar")])) == Some(map["foo" := SiteLink("foo", "bar", [])])
  {
    var m := map["foo" := SString("bar")];
    assert (map site | site in m :: SiteLink(site, m[site].s, [])) == map["foo" := SiteLink("foo", "bar", [])];
  }
}

/** The canonical entity model: terms, snaks, statements, claims, sitelinks,
    items and properties, and the emptiness test used before redirecting. */
module DataModel {
  import opened Wrappers
  import opened EntityIds

  /** A text in one language (label, description or alias). */
  datatype Term = Term(languageCode: string, text: string)

  /** Labels and descriptions map a language code to a text; aliases map a
      language code to its list of alias texts. */
  datatype Fingerprint = Fingerprint(
    labels: map<string, string>,
    descriptions: map<string, string>,
    aliases: map<string, seq<string>>)

  function EmptyFingerprint(): Fingerprint {
    Fingerprint(map[], map[], map[])
  }

  /** No label, no description and no language with an alias. */
  predicate FingerprintIsEmpty(f: Fingerprint) {
    f.labels == map[] && f.descriptions == map[]
      && forall lang :: lang in f.aliases ==> f.aliases[lang] == []
  }

  /** A property-value assertion: no value, some (unknown) value, or a string value. */
  datatype Snak =
    | PropertyNoValueSnak(propertyId: EntityId)
    | PropertySomeValueSnak(propertyId: EntityId)
    | PropertyValueSnak(propertyId: EntityId, value: string)

  datatype Rank = Deprecated | Normal | Preferred

  datatype Statement = Statement(mainSnak: Snak, rank: Rank)

  /** A claim of the legacy model: main snak, qualifiers and an optional guid. */
  datatype Claim = Claim(mainSnak: Snak, qualifiers: seq<Snak>, guid: Option<string>)

  datatype SiteLink = SiteLink(siteId: string, pageName: string, badges: seq<EntityId>)

  /** A list of sitelinks, keyed by site id as the data model keys them. */
  type SiteLinkList = map<string, SiteLink>

  predicate SiteLinkListIsKeyed(links: SiteLinkList) {
    forall site :: site in links ==> links[site].siteId == site
  }

  datatype Item = Item(
    id: Option<EntityId>,
    fingerprint: Fingerprint,
    statements: seq<Statement>,
    siteLinks: SiteLinkList)

  datatype Property = Property(
    id: Option<EntityId>,
    fingerprint: Fingerprint,
    dataTypeId: string,
    statements: seq<Statement>)

  function NewItem(): Item {
    Item(None, EmptyFingerprint(), [], map[])
  }

  datatype Entity = ItemEntity(item: Item) | PropertyEntity(property: Property) {
    function Id(): Option<EntityId> {
      match this
      case ItemEntity(i) => i.id
      case PropertyEntity(p) => p.id
    }

    function Type(): EntityType {
      match this
      case ItemEntity(_) => ItemType
      case PropertyEntity(_) => PropertyType
    }

    /** An entity is empty when it holds no terms, statements or (for items) sitelinks. */
    predicate IsEmpty() {
      match this
      case ItemEntity(i) =>
        FingerprintIsEmpty(i.fingerprint) && i.statements == [] && i.siteLinks == map[]
      case PropertyEntity(p) =>
        FingerprintIsEmpty(p.fingerprint) && p.statements == []
    }
  }
}

/** The two records the mapping connects: a harvested Core Research Center
    well record (the source) and a ScienceBase item (the target). A Python
    `None`, a missing optional key and, where the code tests `isinstance(..,
    str)`, a value that is not a string are all `None` here. */
module Records {
  import opened Wrappers

  /** One entry of `intervals`: its `Formation` and `Age` values. */
  datatype Interval = Interval(formation: Option<string>, age: Option<string>)

  /** One entry of `thin_sections`; the mapping reads only its `View` URL. */
  datatype ThinSection = ThinSection(view: string)

  /** A harvested well record. The keys the code always reads are plain
      fields; the keys it first looks up with `in crc_record.keys()` are
      `Option`s whose `None` means "key absent". */
  datatype SourceRecord = SourceRecord(
    sbParentId: string,                            // `sb_parent_id`
    crcwcUrl: string,                              // `crcwc_url`
    libNum: string,                                // `Lib Num`
    apiNum: Option<string>,                        // `API Num`: Some iff it is a string
    collectionName: string,                        // `crc_collection_name`
    operator: Option<string>,                      // `Operator`: None iff it is None
    latitude: Option<string>,                      // `Latitude`: Some iff it is a string
    longitude: Option<string>,                     // `Longitude`: None if None or absent
    intervals: seq<Interval>,                      // `intervals`
    documents: Option<seq<string>>,                // `documents`
    photos: Option<seq<string>>,                   // `photos`
    thinSections: Option<seq<ThinSection>>,        // `thin_sections`
    surfaceRocktype: Option<seq<Option<string>>>,  // `surface_rocktype`
    surfaceAge: Option<string>,                    // `surface_age`
    gmuName: Option<string>,                       // `gmu_name`
    stratUnit: Option<string>                      // `strat_unit`
  )

  /** An entry of `identifiers`; `kind` is the entry's `type` key. */
  datatype Identifier = Identifier(kind: string, scheme: string, key: string)

  /** An entry of `contacts`; `kind` is the entry's `type` key, and
      `oldPartyId` is None when the entry has no such key. */
  datatype Contact = Contact(name: string, oldPartyId: Option<int>, kind: string, contactType: string)

  /** An entry of `webLinks`; `kind` is the entry's `type` key. */
  datatype WebLink = WebLink(
    kind: string,
    typeLabel: string,
    uri: string,
    rel: string,
    title: string,
    hidden: bool,
    itemWebLinkTypeId: string
  )

  /** An entry of `tags`; `kind` is the entry's `type` key. */
  datatype Tag = Tag(kind: string, scheme: string, name: string)

  /** The `spatial` value. Its point holds the coordinate texts that the code
      hands to `float`, in the order longitude, latitude. */
  datatype Spatial = Spatial(representationalPoint: seq<string>)

  /** A ScienceBase item. `spatial` and `tags` are None when the item has no
      such key. */
  datatype Item = Item(
    parentId: string,
    identifiers: seq<Identifier>,
    title: string,
    body: string,
    contacts: seq<Contact>,
    provenance: string,                            // the `annotation` of `provenance`
    browseCategories: seq<string>,
    webLinks: seq<WebLink>,
    spatial: Option<Spatial>,
    tags: Option<seq<Tag>>
  )

  /** Why a mapping can fail: when `Latitude` is a string and `Longitude`
      is None, `float(None)` raises. An absent `Longitude` key, which raises
      `KeyError` instead, gives the same failure. */
  datatype MapError = LongitudeNotText
}

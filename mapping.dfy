/** The mapping from a harvested well record to a ScienceBase item
    (`sb_item_from_crcwc` and its field mappers). Each field group has a
    function that defines it and, where the code builds it step by step, a
    method that builds it the same way and is proved to produce the
    function's value. */
module Mapping {
  import opened Wrappers
  import opened Text
  import opened Records

  // ---------------------------------------------------------------- identifiers

  const UNIQUE_KEY := "uniqueKey"
  const CATALOG_ID_SCHEME := "CRC Well Catalog Database ID"
  const LIBRARY_NUMBER_SCHEME := "CRC Library Number"
  const API_NUMBER_SCHEME := "American Petroleum Institute Number"

  /** `crc_identifiers`: the catalog ID (last segment of the page URL) and the
      library number, then the API number when there is one. */
  function Identifiers(rec: SourceRecord): (ids: seq<Identifier>)
    ensures |ids| == if rec.apiNum.Some? then 3 else 2
    ensures ids[0] == Identifier(UNIQUE_KEY, CATALOG_ID_SCHEME, LastSegment(rec.crcwcUrl))
    ensures ids[1] == Identifier(UNIQUE_KEY, LIBRARY_NUMBER_SCHEME, rec.libNum)
    ensures rec.apiNum.Some? ==> ids[2] == Identifier(UNIQUE_KEY, API_NUMBER_SCHEME, rec.apiNum.value)
  {
    [ Identifier(UNIQUE_KEY, CATALOG_ID_SCHEME, LastSegment(rec.crcwcUrl)),
      Identifier(UNIQUE_KEY, LIBRARY_NUMBER_SCHEME, rec.libNum) ]
    + (match rec.apiNum
       case Some(api) => [Identifier(UNIQUE_KEY, API_NUMBER_SCHEME, api)]
       case None => [])
  }

  /** Builds the list literal and appends the API number in place. */
  method MakeIdentifiers(rec: SourceRecord) returns (ids: seq<Identifier>)
    ensures ids == Identifiers(rec)
  {
    ids := [ Identifier(UNIQUE_KEY, CATALOG_ID_SCHEME, LastSegment(rec.crcwcUrl)),
             Identifier(UNIQUE_KEY, LIBRARY_NUMBER_SCHEME, rec.libNum) ];
    if rec.apiNum.Some? {
      ids := ids + [Identifier(UNIQUE_KEY, API_NUMBER_SCHEME, rec.apiNum.value)];
    }
  }

  // ---------------------------------------------------------------- title

  const TITLE_PREFIX := "Core Research Center "

  /** `crc_title`: the collection name capitalized, then the library number. */
  function Title(rec: SourceRecord): string
  {
    TITLE_PREFIX + Capitalize(rec.collectionName) + " " + rec.libNum
  }

  /** The title is the fixed prefix, the capitalized collection name, a
      space, and the library number verbatim. */
  lemma TitleLayout(rec: SourceRecord)
    ensures var t, n := Title(rec), |rec.collectionName|;
            && |t| == |TITLE_PREFIX| + n + 1 + |rec.libNum|
            && t[..|TITLE_PREFIX|] == TITLE_PREFIX
            && t[|TITLE_PREFIX|..|TITLE_PREFIX| + n] == Capitalize(rec.collectionName)
            && t[|TITLE_PREFIX| + n..] == " " + rec.libNum
  {
    var name := Capitalize(rec.collectionName);
    var t := Title(rec);
    assert t == TITLE_PREFIX + name + (" " + rec.libNum);
    assert t[..|TITLE_PREFIX|] == TITLE_PREFIX;
    assert t[|TITLE_PREFIX|..|TITLE_PREFIX| + |name|] == name;
  }

  // ---------------------------------------------------------------- body

  const BODY_HEADING := "<h4>Raw Properties from download, web scrape, MapServer, and Macrostrat API</h4>"
  const BODY_PARAGRAPH_START := "<p>Core Research Center, "

  /** How an f-string renders `Operator`: the name, or "None". */
  function OperatorText(op: Option<string>): string
  {
    match op
    case Some(name) => name
    case None => "None"
  }

  /** The opening paragraph of the body. */
  function BodyParagraph(rec: SourceRecord): string
  {
    BODY_PARAGRAPH_START + rec.collectionName + " " + rec.libNum
    + ", from well operated by " + OperatorText(rec.operator) + "</p>"
  }

  /** `crc_body`: a paragraph, the fixed heading, and the whole record as
      serialized by `dumps` (`json.dumps`) inside a `div`. */
  function Body(rec: SourceRecord, dumps: SourceRecord -> string): string
  {
    BodyParagraph(rec) + BODY_HEADING + "<div>" + dumps(rec) + "</div>"
  }

  /** The body starts with the paragraph, followed by the fixed heading, and
      ends with the serialized record, verbatim, inside the closing `div`. */
  lemma BodyEmbedsRecord(rec: SourceRecord, dumps: SourceRecord -> string)
    ensures var b, j, p := Body(rec, dumps), dumps(rec), BodyParagraph(rec);
            && BODY_PARAGRAPH_START <= p <= b
            && |b| == |p| + |BODY_HEADING| + 11 + |j|
            && b[|p|..|p| + |BODY_HEADING|] == BODY_HEADING
            && |b| >= |j| + 11
            && b[|b| - |j| - 6..] == j + "</div>"
            && b[|b| - |j| - 11..|b| - |j| - 6] == "<div>"
  {
    var b, j := Body(rec, dumps), dumps(rec);
    var p := BodyParagraph(rec);
    assert b == p + BODY_HEADING + ("<div>" + (j + "</div>"));
    assert b == p + (BODY_HEADING + "<div>" + j + "</div>");
    assert BODY_PARAGRAPH_START <= p;
  }

  /** Builds the body by successive appends. */
  method MakeBody(rec: SourceRecord, dumps: SourceRecord -> string) returns (body: string)
    ensures body == Body(rec, dumps)
  {
    body := BodyParagraph(rec);
    body := body + BODY_HEADING;
    body := body + "<div>";
    body := body + dumps(rec);
    body := body + "</div>";
  }

  // ---------------------------------------------------------------- contacts

  const CRC_PARTY_ID := 17172
  const STEWARD_PARTY_ID := 4685

  const CRC_CONTACT := Contact("Core Research Center", Some(CRC_PARTY_ID), "Data Owner", "organization")
  const STEWARD_CONTACT := Contact("Jeannine Honey", Some(STEWARD_PARTY_ID), "Data Steward", "person")

  /** `crc_contacts`: the data owner and the data steward, then the operator
      (with no party id) whenever `Operator` is not None, even when empty. */
  function Contacts(rec: SourceRecord): (cs: seq<Contact>)
    ensures |cs| == if rec.operator.Some? then 3 else 2
    ensures cs[0] == CRC_CONTACT && cs[1] == STEWARD_CONTACT
    ensures rec.operator.Some? ==>
              cs[2] == Contact(rec.operator.value, None, "Site Operator", "organization")
    ensures rec.operator.Some? ==> cs[2].oldPartyId.None? && cs[2].name == rec.operator.value
  {
    [CRC_CONTACT, STEWARD_CONTACT]
    + (match rec.operator
       case Some(op) => [Contact(op, None, "Site Operator", "organization")]
       case None => [])
  }

  /** Builds the list literal and appends the operator in place. */
  method MakeContacts(rec: SourceRecord) returns (cs: seq<Contact>)
    ensures cs == Contacts(rec)
  {
    cs := [CRC_CONTACT, STEWARD_CONTACT];
    if rec.operator.Some? {
      cs := cs + [Contact(rec.operator.value, None, "Site Operator", "organization")];
    }
  }

  // ---------------------------------------------------------------- provenance

  const PROVENANCE := "Harvested and assembled from: CRC web site download, CRC web site scrape, MapServer layers, Macrostrat API. Data were assembled in an intermediary MongoDB instance, structured with code to product ScienceBase Items, and loaded to ScienceBase collection."

  const BROWSE_CATEGORIES := ["Physical Item"]

  // ---------------------------------------------------------------- web links

  const PAGE_LINK_TYPE_ID := "4f4e475de4b07f02db47debf"
  const DOWNLOAD_LINK_TYPE_ID := "4f4e475de4b07f02db47dec0"

  /** The three kinds of downloadable file, in the order they are linked. */
  datatype DownloadKind = AnalysisFile | Photo | ThinSectionImage

  function TypeLabel(k: DownloadKind): string
  {
    match k
    case AnalysisFile => "Download"
    case Photo => "Photo"
    case ThinSectionImage => "Thin Section"
  }

  function TitlePrefix(k: DownloadKind): string
  {
    match k
    case AnalysisFile => "Core Research Center Analysis File "
    case Photo => "Core Research Center Photo "
    case ThinSectionImage => "Core Research Center Thin Section "
  }

  /** The link to the well's catalog page. */
  function PageLink(url: string): WebLink
  {
    WebLink("webLink", "Web Link", url, "related",
            "Core Research Center Well Catalog Web Page", false, PAGE_LINK_TYPE_ID)
  }

  /** The download link for one file URL. */
  function DownloadLink(k: DownloadKind, uri: string): WebLink
  {
    WebLink("download", TypeLabel(k), uri, "related",
            TitlePrefix(k) + LastSegment(uri), false, DOWNLOAD_LINK_TYPE_ID)
  }

  /** The comprehension `[d for d in us if len(d) > 0]`. */
  function NonEmpty(us: seq<string>): (r: seq<string>)
    ensures |r| <= |us|
    ensures forall k :: 0 <= k < |r| ==> |r[k]| > 0
    decreases |us|
  {
    if us == [] then []
    else
      var u := us[|us| - 1];
      NonEmpty(us[..|us| - 1]) + (if |u| > 0 then [u] else [])
  }

  /** The `View` URLs of the thin sections, in order. */
  function Views(ts: seq<ThinSection>): (vs: seq<string>)
    ensures |vs| == |ts| && forall k :: 0 <= k < |ts| ==> vs[k] == ts[k].view
  {
    seq(|ts|, k requires 0 <= k < |ts| => ts[k].view)
  }

  /** One download link of kind `k` per URL, in order. */
  function DownloadLinks(k: DownloadKind, us: seq<string>): (ls: seq<WebLink>)
    ensures |ls| == |us|
    ensures forall j :: 0 <= j < |us| ==> ls[j] == DownloadLink(k, us[j])
    decreases |us|
  {
    if us == [] then []
    else DownloadLinks(k, us[..|us| - 1]) + [DownloadLink(k, us[|us| - 1])]
  }

  /** The `documents` URLs that are not empty, or none when the key is absent. */
  function DocumentUrls(rec: SourceRecord): seq<string>
  {
    NonEmpty(rec.documents.GetOr([]))
  }

  /** The `photos` URLs that are not empty, or none when the key is absent. */
  function PhotoUrls(rec: SourceRecord): seq<string>
  {
    NonEmpty(rec.photos.GetOr([]))
  }

  /** The thin sections' `View` URLs that are not empty, or none when the
      key is absent. */
  function ThinSectionUrls(rec: SourceRecord): seq<string>
  {
    NonEmpty(Views(rec.thinSections.GetOr([])))
  }

  /** `crc_weblinks`: the catalog page, then the non-empty document, photo and
      thin-section URLs as downloads, each group in input order. */
  function WebLinks(rec: SourceRecord): (ls: seq<WebLink>)
    ensures |ls| == 1 + |DocumentUrls(rec)| + |PhotoUrls(rec)| + |ThinSectionUrls(rec)|
    ensures ls[0] == PageLink(rec.crcwcUrl) && ls[0].uri == rec.crcwcUrl
  {
    [PageLink(rec.crcwcUrl)]
    + DownloadLinks(AnalysisFile, DocumentUrls(rec))
    + DownloadLinks(Photo, PhotoUrls(rec))
    + DownloadLinks(ThinSectionImage, ThinSectionUrls(rec))
  }

  /** The body of one of the `for` loops of `crc_weblinks`: appends one
      download link per URL, in order. */
  method AppendDownloads(links: seq<WebLink>, k: DownloadKind, us: seq<string>)
    returns (out: seq<WebLink>)
    ensures out == links + DownloadLinks(k, us)
  {
    out := links;
    for i := 0 to |us|
      invariant out == links + DownloadLinks(k, us[..i])
    {
      assert us[..i + 1][..i] == us[..i];
      out := out + [DownloadLink(k, us[i])];
    }
    assert us[..|us|] == us;
  }

  /** Builds the web links as `crc_weblinks` does: the page link, then one
      loop per optional sequence that is present. */
  method MakeWebLinks(rec: SourceRecord) returns (links: seq<WebLink>)
    ensures links == WebLinks(rec)
  {
    links := [PageLink(rec.crcwcUrl)];
    if rec.documents.Some? {
      links := AppendDownloads(links, AnalysisFile, NonEmpty(rec.documents.value));
    } else {
      assert links == links + DownloadLinks(AnalysisFile, DocumentUrls(rec));
    }
    ghost var withDocuments := links;
    if rec.photos.Some? {
      links := AppendDownloads(links, Photo, NonEmpty(rec.photos.value));
    } else {
      assert links == links + DownloadLinks(Photo, PhotoUrls(rec));
    }
    assert links == withDocuments + DownloadLinks(Photo, PhotoUrls(rec));
    ghost var withPhotos := links;
    if rec.thinSections.Some? {
      links := AppendDownloads(links, ThinSectionImage, NonEmpty(Views(rec.thinSections.value)));
    } else {
      assert links == links + DownloadLinks(ThinSectionImage, ThinSectionUrls(rec));
    }
    assert links == withPhotos + DownloadLinks(ThinSectionImage, ThinSectionUrls(rec));
  }

  // ---------------------------------------------------------------- spatial

  /** `crc_location`, called when `Latitude` is a string: the point is
      longitude first, then latitude. `float(None)` fails when `Longitude` is
      not a string; parsing the texts as numbers is not modelled. */
  function Location(rec: SourceRecord): (r: Result<Spatial, MapError>)
    requires rec.latitude.Some?
    ensures r.Failure? <==> rec.longitude.None?
    ensures r.Success? ==>
              r.value.representationalPoint == [rec.longitude.value, rec.latitude.value]
  {
    match rec.longitude
    case Some(lon) => Success(Spatial([lon, rec.latitude.value]))
    case None => Failure(LongitudeNotText)
  }

  // ---------------------------------------------------------------- tags

  const THEME := "Theme"
  const FORMATION_SCHEME := "Geologic Formation at Depth"
  const AGE_SCHEME := "Geologic Age at Depth"
  const ROCK_TYPE_SCHEME := "Surface Rock Type"
  const SURFACE_AGE_SCHEME := "Surface Geologic Age"
  const MAP_UNIT_SCHEME := "Geologic Map Unit Name"
  const STRAT_UNIT_SCHEME := "Stratigraphic Unit Name"
  const UNKNOWN_FORMATION := "UNKNOWN"
  const UNKNOWN_AGE := "UNKN"
  const MAX_TAG_NAME := 80

  /** A formation that is neither None nor the "UNKNOWN" sentinel. */
  predicate KnownFormation(iv: Interval)
  {
    iv.formation.Some? && iv.formation.value != UNKNOWN_FORMATION
  }

  /** An age that is neither None nor the "UNKN" sentinel. */
  predicate KnownAge(iv: Interval)
  {
    iv.age.Some? && iv.age.value != UNKNOWN_AGE
  }

  predicate IsIntervalScheme(scheme: string)
  {
    scheme == FORMATION_SCHEME || scheme == AGE_SCHEME
  }

  /** The four schemes of the tags that describe the surface. */
  predicate IsSurfaceScheme(scheme: string)
  {
    scheme == ROCK_TYPE_SCHEME || scheme == SURFACE_AGE_SCHEME
    || scheme == MAP_UNIT_SCHEME || scheme == STRAT_UNIT_SCHEME
  }

  /** The tags of one interval: its formation, then its age, each only when
      known. Interval values are not truncated. */
  function IntervalTagsOf(iv: Interval): (ts: seq<Tag>)
    ensures |ts| == (if KnownFormation(iv) then 1 else 0) + (if KnownAge(iv) then 1 else 0)
    ensures KnownFormation(iv) ==> ts[0] == Tag(THEME, FORMATION_SCHEME, iv.formation.value)
    ensures KnownAge(iv) ==> ts[|ts| - 1] == Tag(THEME, AGE_SCHEME, iv.age.value)
  {
    (if KnownFormation(iv) then [Tag(THEME, FORMATION_SCHEME, iv.formation.value)] else [])
    + (if KnownAge(iv) then [Tag(THEME, AGE_SCHEME, iv.age.value)] else [])
  }

  /** The tags of all intervals, interval by interval. */
  function IntervalTags(ivs: seq<Interval>): (ts: seq<Tag>)
    ensures |ts| <= 2 * |ivs|
    ensures forall j :: 0 <= j < |ts| ==> ts[j].kind == THEME && IsIntervalScheme(ts[j].scheme)
    decreases |ivs|
  {
    if ivs == [] then []
    else IntervalTags(ivs[..|ivs| - 1]) + IntervalTagsOf(ivs[|ivs| - 1])
  }

  /** The rock-type tag of one `surface_rocktype` entry. */
  function RockTypeTag(rock: string): Tag
  {
    Tag(THEME, ROCK_TYPE_SCHEME, Truncate(rock, MAX_TAG_NAME))
  }

  /** One tag per entry of `surface_rocktype` that is not None, in order,
      named by the entry truncated to 80 characters. */
  function RockTypeTags(rs: seq<Option<string>>): (ts: seq<Tag>)
    ensures |ts| <= |rs|
    ensures forall j :: 0 <= j < |ts| ==>
              ts[j].kind == THEME && ts[j].scheme == ROCK_TYPE_SCHEME && |ts[j].name| <= MAX_TAG_NAME
    decreases |rs|
  {
    if rs == [] then []
    else
      RockTypeTags(rs[..|rs| - 1])
      + (match rs[|rs| - 1]
         case Some(rock) => [RockTypeTag(rock)]
         case None => [])
  }

  /** The tag for one of `surface_age`, `gmu_name`, `strat_unit`: present
      only when the key is there and its value is non-empty, named by the
      first 80 characters of the value. */
  function SurfaceTag(scheme: string, v: Option<string>): (ts: seq<Tag>)
    ensures |ts| <= 1
    ensures |ts| == 1 <==> v.Some? && |v.value| > 0
    ensures |ts| == 1 ==> ts[0].kind == THEME && ts[0].scheme == scheme
    ensures |ts| == 1 ==> |ts[0].name| == (if |v.value| < MAX_TAG_NAME then |v.value| else MAX_TAG_NAME)
    ensures |ts| == 1 ==> ts[0].name == v.value[..|ts[0].name|]
  {
    if v.Some? && |v.value| > 0 then [Tag(THEME, scheme, Truncate(v.value, MAX_TAG_NAME))] else []
  }

  /** Every tag the record yields: the interval tags, then the rock-type
      tags, then the surface age, map unit name and stratigraphic unit name
      tags. */
  function TagList(rec: SourceRecord): seq<Tag>
  {
    IntervalTags(rec.intervals)
    + RockTypeTags(rec.surfaceRocktype.GetOr([]))
    + SurfaceTag(SURFACE_AGE_SCHEME, rec.surfaceAge)
    + SurfaceTag(MAP_UNIT_SCHEME, rec.gmuName)
    + SurfaceTag(STRAT_UNIT_SCHEME, rec.stratUnit)
  }

  /** `crc_tags`: the tag list, or None when it would be empty, so that a
      tag list is never empty. */
  function Tags(rec: SourceRecord): (r: Option<seq<Tag>>)
    ensures r.None? <==> TagList(rec) == []
    ensures r.Some? ==> r.value == TagList(rec) && |r.value| > 0
  {
    var ts := TagList(rec);
    if |ts| == 0 then None else Some(ts)
  }

  /** The `for` loop of `crc_tags` over the intervals: appends, interval by
      interval, the formation tag and then the age tag when they are known. */
  method AppendIntervalTags(tags: seq<Tag>, ivs: seq<Interval>) returns (out: seq<Tag>)
    ensures out == tags + IntervalTags(ivs)
  {
    out := tags;
    for i := 0 to |ivs|
      invariant out == tags + IntervalTags(ivs[..i])
    {
      assert ivs[..i + 1][..i] == ivs[..i];
      assert IntervalTags(ivs[..i + 1]) == IntervalTags(ivs[..i]) + IntervalTagsOf(ivs[i]);
      ghost var before := out;
      if KnownFormation(ivs[i]) {
        out := out + [Tag(THEME, FORMATION_SCHEME, ivs[i].formation.value)];
      }
      if KnownAge(ivs[i]) {
        out := out + [Tag(THEME, AGE_SCHEME, ivs[i].age.value)];
      }
      assert out == before + IntervalTagsOf(ivs[i]);
    }
    assert ivs[..|ivs|] == ivs;
  }

  /** The `for` loop of `crc_tags` over `surface_rocktype`: appends a
      truncated rock-type tag for each entry that is not None. */
  method AppendRockTypeTags(tags: seq<Tag>, rs: seq<Option<string>>) returns (out: seq<Tag>)
    ensures out == tags + RockTypeTags(rs)
  {
    out := tags;
    for i := 0 to |rs|
      invariant out == tags + RockTypeTags(rs[..i])
    {
      assert rs[..i + 1][..i] == rs[..i];
      if rs[i].Some? {
        out := out + [RockTypeTag(rs[i].value)];
      }
    }
    assert rs[..|rs|] == rs;
  }

  /** Appends the tag for one of `surface_age`, `gmu_name`, `strat_unit`. */
  method AppendSurfaceTag(tags: seq<Tag>, scheme: string, v: Option<string>) returns (out: seq<Tag>)
    ensures out == tags + SurfaceTag(scheme, v)
  {
    out := tags;
    if v.Some? && |v.value| > 0 {
      out := out + [Tag(THEME, scheme, Truncate(v.value, MAX_TAG_NAME))];
    }
  }

  /** Builds the tags as `crc_tags` does: the interval loop, the rock-type
      loop when the key is present, the three surface values, and None for an
      empty list. */
  method MakeTags(rec: SourceRecord) returns (tags: Option<seq<Tag>>)
    ensures tags == Tags(rec)
  {
    var list := AppendIntervalTags([], rec.intervals);
    assert list == IntervalTags(rec.intervals);
    if rec.surfaceRocktype.Some? {
      list := AppendRockTypeTags(list, rec.surfaceRocktype.value);
    } else {
      assert list == list + RockTypeTags([]);
    }
    ghost var withRockTypes := list;
    assert withRockTypes == IntervalTags(rec.intervals) + RockTypeTags(rec.surfaceRocktype.GetOr([]));
    list := AppendSurfaceTag(list, SURFACE_AGE_SCHEME, rec.surfaceAge);
    list := AppendSurfaceTag(list, MAP_UNIT_SCHEME, rec.gmuName);
    list := AppendSurfaceTag(list, STRAT_UNIT_SCHEME, rec.stratUnit);
    if |list| == 0 {
      tags := None;
    } else {
      tags := Some(list);
    }
  }

  // ---------------------------------------------------------------- the item

  /** `sb_item_from_crcwc`: the fixed keys, then `spatial` exactly when
      `Latitude` is a string and `tags` exactly when some tag was derived. The
      mapping fails only where `crc_location` does. */
  function ItemOf(rec: SourceRecord, dumps: SourceRecord -> string): (r: Result<Item, MapError>)
    ensures r.Failure? <==> rec.latitude.Some? && rec.longitude.None?
    ensures r.Success? ==> (r.value.spatial.Some? <==> rec.latitude.Some?)
    ensures r.Success? ==> (r.value.tags.Some? <==> TagList(rec) != [])
    ensures r.Success? && r.value.tags.Some? ==> |r.value.tags.value| > 0
    ensures r.Success? ==> r.value.parentId == rec.sbParentId && r.value.webLinks == WebLinks(rec)
  {
    var base := Item(rec.sbParentId, Identifiers(rec), Title(rec), Body(rec, dumps),
                     Contacts(rec), PROVENANCE, BROWSE_CATEGORIES, WebLinks(rec), None, Tags(rec));
    if rec.latitude.None? then Success(base)
    else match Location(rec)
      case Success(spatial) => Success(base.(spatial := Some(spatial)))
      case Failure(e) => Failure(e)
  }

  /** Builds the item as `sb_item_from_crcwc` does: the fixed keys first,
      then `spatial` and `tags` added to it when they apply. */
  method MakeItem(rec: SourceRecord, dumps: SourceRecord -> string) returns (r: Result<Item, MapError>)
    ensures r == ItemOf(rec, dumps)
  {
    var identifiers := MakeIdentifiers(rec);
    var body := MakeBody(rec, dumps);
    var contacts := MakeContacts(rec);
    var webLinks := MakeWebLinks(rec);
    var item := Item(rec.sbParentId, identifiers, Title(rec), body, contacts,
                     PROVENANCE, BROWSE_CATEGORIES, webLinks, None, None);
    if rec.latitude.Some? {
      var location := Location(rec);
      if location.Failure? {
        return Failure(location.error);
      }
      item := item.(spatial := Some(location.value));
    }
    var tags := MakeTags(rec);
    if tags.Some? {
      item := item.(tags := tags);
    }
    return Success(item);
  }
}

# CRC well record to ScienceBase item, in Dafny

This project models `sb_item_from_crcwc` from the `crc-experiment` repository.
The function takes one harvested Core Research Center (CRC) core-sample well
record and maps it to one ScienceBase item. The record comes from the CRC web
catalog download, a web scrape, MapServer layers and the Macrostrat API. The
model follows the field mappers one by one: identifiers, title, body, contacts,
provenance, web links, spatial point and tags. It then proves what the item
looks like.

Files and modules:

- `wrappers.dfy` (`Wrappers`): `Option`, standing for Python's `None` and for
  absent keys, and `Result`, standing for the one exception the model keeps.
- `text.dfy` (`Text`): the string operations the mappers use.
  `Split` is `s.split(sep)`; `LastSegment` is `s.split("/")[-1]`, with its own
  recursive definition proved equal to the last piece of `Split`.
  `Capitalize` is `str.capitalize()` over ASCII. `Truncate` is the head slice
  `s[0:n]`.
- `records.dfy` (`Records`): the source record and the item, as datatypes.
  A key the code tests with `in crc_record.keys()` is an `Option` field, and
  `None` means the key is absent. `API Num` and `Latitude` are `Some` exactly
  when the code's `isinstance(.., str)` test is true.
- `mapping.dfy` (`Mapping`): one function per field mapper. Where the Python
  builds a value step by step (list literals with conditional `append`, the
  `for` loops of `crc_weblinks` and `crc_tags`, the `+=` of `crc_body`, the
  dict `sb_item` that gains `spatial` and `tags`), a `Make…` or `Append…`
  method builds it the same way. Each such method is proved to return the
  function's value.
- `lemmas.dfy` (`MappingLemmas`): the properties that relate several parts.
  They cover what the URL filter keeps and in which order, where each download
  link sits, which tags exist (each stated as an if-and-only-if), that interval
  tags come before all others and that interval and rock-type tags keep their
  entries' order and repeats, when there are no tags at all, and the invariants of a mapped
  item.

Three details of the code are easy to misread:

- A document download's `typeLabel` is `"Download"`. Only its title says
  "Analysis File".
- An `Operator` that is the empty string still yields a third contact. The
  code tests `is not None`, not emptiness.
- The body's paragraph shows `None` when `Operator` is None, because an
  f-string renders `None` that way.

## Model

| member | source | states |
|---|---|---|
| `Text.Split` | sbitem_from_crcrecord.py:31 | `split` always returns at least one piece, and no piece contains the separator |
| `Text.JoinSplit` | sbitem_from_crcrecord.py:31 | joining the pieces of `s.split(sep)` with `sep` gives back `s`, so splitting loses nothing |
| `Text.LastSegmentIsLastPiece` | sbitem_from_crcrecord.py:31 | the recursive last-segment definition equals `s.split("/")[-1]` |
| `Text.LastSegmentIsFinal` | sbitem_from_crcrecord.py:31 | the catalog key contains no `/` and ends the URL. It is either the whole URL or follows a `/`, and it is the whole URL exactly when the URL has no `/` |
| `Text.ToUpper` | sbitem_from_crcrecord.py:51 | ASCII upper-casing: a lower-case letter moves to its upper-case partner; every other character is unchanged |
| `Text.ToLower` | sbitem_from_crcrecord.py:51 | ASCII lower-casing, the mirror of `ToUpper` |
| `Text.Capitalize` | sbitem_from_crcrecord.py:51 | same length; first character upper-cased; every later character lower-cased; so no later character is an upper-case letter |
| `Text.CapitalizeIdempotent` | sbitem_from_crcrecord.py:51 | capitalizing twice gives the same result as capitalizing once |
| `Text.CapitalizeTwoWords` | sbitem_from_crcrecord.py:51 | `"abc def"` becomes `"Abc def"`, not the title case `"Abc Def"` |
| `Text.Truncate` | sbitem_from_crcrecord.py:193-220 | `s[0:n]` is the prefix of `s` whose length is the smaller of the length of `s` and `n` |
| `Mapping.Identifiers` | sbitem_from_crcrecord.py:26-47 | exactly 2 identifiers without an API number and 3 with one. The order is catalog ID (last URL segment), library number (`Lib Num`), then API number (`API Num`), each with its scheme and type `uniqueKey` |
| `Mapping.MakeIdentifiers` | sbitem_from_crcrecord.py:26-47 | the list literal plus the conditional `append` build exactly `Identifiers` |
| `Text.LastSegment` | sbitem_from_crcrecord.py:31 | `s.split("/")[-1]`, defined by recursion on the last character. It has no contract of its own; `LastSegmentIsFinal` and `LastSegmentIsLastPiece` state its meaning |
| `Mapping.Title` | sbitem_from_crcrecord.py:50-51 | `crc_title`. It has no contract of its own; `TitleLayout` states its layout, and `ItemIdentifiersAndContacts` states that it is the item's title |
| `Mapping.Body` | sbitem_from_crcrecord.py:54-62 | `crc_body`. It has no contract of its own; `BodyEmbedsRecord` states its layout, and `ItemIdentifiersAndContacts` states that it is the item's body |
| `Mapping.PageLink` | sbitem_from_crcrecord.py:98-107 | the catalog page link: type "webLink", label "Web Link", type id `…debf`. It has no contract of its own; `WebLinks` places it first |
| `Mapping.DownloadLink` | sbitem_from_crcrecord.py:110-150 | one download link: type "download", the kind's label, the kind's title prefix plus the URI's last segment, type id `…dec0`. It has no contract of its own; `DownloadLinks` and `WebLinksDownloads` state where it appears |
| `Mapping.OperatorText` | sbitem_from_crcrecord.py:55 | how the f-string renders `Operator`: the name, or "None". It has no contract of its own; `MakeBody` and `BodyEmbedsRecord` use it through `BodyParagraph` |
| `Mapping.BodyParagraph` | sbitem_from_crcrecord.py:55 | the body's opening paragraph. It has no contract of its own; `BodyEmbedsRecord` states that the body starts with it, that it opens with "<p>Core Research Center, ", and that the heading follows it |
| `Mapping.TitleLayout` | sbitem_from_crcrecord.py:50-51 | the title is "Core Research Center ", then the capitalized collection name, a space, and `Lib Num` verbatim |
| `Mapping.BodyEmbedsRecord` | sbitem_from_crcrecord.py:54-62 | the body starts with the paragraph, which opens with "<p>Core Research Center, ". The fixed heading follows it directly. The body ends with `"<div>"`, the serialized record verbatim, and `"</div>"` |
| `Mapping.MakeBody` | sbitem_from_crcrecord.py:54-62 | the successive appends build exactly `Body` |
| `Mapping.Contacts` | sbitem_from_crcrecord.py:65-90 | the data owner (17172), then the data steward (4685). A third contact, named by the operator, typed "Site Operator" and with no party id, is present exactly when `Operator` is not None |
| `Mapping.MakeContacts` | sbitem_from_crcrecord.py:65-90 | the list literal plus the conditional `append` build exactly `Contacts` |
| `Mapping.TypeLabel` | sbitem_from_crcrecord.py:115-143 | the `typeLabel` of a download: "Download" for documents, "Photo" for photos, "Thin Section" for thin sections. It has no contract of its own; `DownloadLinks` and `WebLinksLayout` place the links that carry it |
| `Mapping.TitlePrefix` | sbitem_from_crcrecord.py:118-146 | the fixed start of a download's title, before the URI's last segment. It has no contract of its own; `WebLinksDownloads` and `DocumentsExample` state the titles built from it |
| `Mapping.DocumentUrls` | sbitem_from_crcrecord.py:110-111 | the non-empty `documents` URLs, or none when the key is absent. It has no contract of its own; `NonEmptyMembership` and `NonEmptyConcat` state what the filter keeps, and `WebLinksLayout` where the links go |
| `Mapping.PhotoUrls` | sbitem_from_crcrecord.py:124-125 | the non-empty `photos` URLs, or none when the key is absent. It has no contract of its own; `NonEmptyMembership` and `WebLinksLayout` state its meaning |
| `Mapping.ThinSectionUrls` | sbitem_from_crcrecord.py:138-139 | the `View` URLs of the thin sections that are not empty, or none when the key is absent. It has no contract of its own; `Views`, `NonEmptyMembership` and `WebLinksLayout` state its meaning |
| `Mapping.NonEmpty` | sbitem_from_crcrecord.py:111 | the filter `[d for d in us if len(d) > 0]` is no longer than its input and keeps only non-empty URLs |
| `Mapping.Views` | sbitem_from_crcrecord.py:139 | the thin sections' `View` values, one per entry, in order |
| `Mapping.DownloadLinks` | sbitem_from_crcrecord.py:110-150 | one link per URL, the `j`-th being the download link for the `j`-th URL |
| `Mapping.WebLinks` | sbitem_from_crcrecord.py:97-152 | there are 1 + (non-empty documents) + (non-empty photos) + (thin sections whose `View` is not empty) links, and the first is the page link whose `uri` is `crcwc_url` |
| `Mapping.AppendDownloads` | sbitem_from_crcrecord.py:111-122 | one `for` loop of `crc_weblinks`, proved by its invariant to append exactly `DownloadLinks` |
| `Mapping.MakeWebLinks` | sbitem_from_crcrecord.py:97-152 | the page link and the three guarded loops build exactly `WebLinks` |
| `Mapping.Location` | sbitem_from_crcrecord.py:155-163 | the point is `[Longitude, Latitude]`, longitude first. It fails exactly when `Longitude` is None, as `float(None)` does |
| `Mapping.IntervalTagsOf` | sbitem_from_crcrecord.py:170-185 | one interval yields its formation tag exactly when the formation is known, then its age tag exactly when the age is known, with names not truncated |
| `Mapping.KnownFormation` | sbitem_from_crcrecord.py:170 | an interval's `Formation` is neither None nor "UNKNOWN". It has no contract of its own; `IntervalTagsOf` and `FormationTagIff` state the tag it decides |
| `Mapping.KnownAge` | sbitem_from_crcrecord.py:178 | an interval's `Age` is neither None nor "UNKN". It has no contract of its own; `IntervalTagsOf` and `AgeTagIff` state the tag it decides |
| `Mapping.IntervalTags` | sbitem_from_crcrecord.py:169-185 | there are at most twice as many interval tags as intervals, each a Theme tag with an at-depth scheme |
| `Mapping.RockTypeTag` | sbitem_from_crcrecord.py:189-195 | the tag of one rock type: Theme, "Surface Rock Type", the name truncated to 80 characters. It has no contract of its own; `RockTypeTags` and `RockTypeTagIff` state its fields and where it appears |
| `Mapping.RockTypeTags` | sbitem_from_crcrecord.py:187-195 | at most one tag per `surface_rocktype` entry, each a Theme "Surface Rock Type" tag with a name of at most 80 characters. `RockTypeTagsConcat` gives the exact count and order |
| `Mapping.SurfaceTag` | sbitem_from_crcrecord.py:197-222 | a surface tag exists exactly when the key is present and its value is non-empty. Its name is the value's prefix of length min(len, 80) |
| `Mapping.TagList` | sbitem_from_crcrecord.py:166-222 | the list `crc_tags` builds: interval tags, rock-type tags, then the surface age, map unit and stratigraphic unit tags. It has no contract of its own; `TagOrder`, `NoTagsIff` and `Tags` state its properties |
| `Mapping.Tags` | sbitem_from_crcrecord.py:224-227 | `crc_tags` is None exactly when no tag is derived. Otherwise it is the tag list, which is never empty |
| `Mapping.AppendIntervalTags` | sbitem_from_crcrecord.py:169-185 | the interval loop, proved by its invariant to append exactly `IntervalTags` |
| `Mapping.AppendRockTypeTags` | sbitem_from_crcrecord.py:187-195 | the rock-type loop, proved by its invariant to append exactly `RockTypeTags` |
| `Mapping.AppendSurfaceTag` | sbitem_from_crcrecord.py:197-204 | one guarded append of a surface tag builds exactly `SurfaceTag` |
| `Mapping.MakeTags` | sbitem_from_crcrecord.py:166-227 | the loops and appends of `crc_tags` build exactly `Tags` |
| `Mapping.ItemOf` | sbitem_from_crcrecord.py:4-23 | the item has `spatial` exactly when `Latitude` is a string, and `tags` exactly when a tag is derived (never an empty list). The mapping fails exactly when `Latitude` is a string and `Longitude` is None |
| `Mapping.MakeItem` | sbitem_from_crcrecord.py:4-23 | building the dict and then adding `spatial` and `tags` in place gives exactly `ItemOf` |
| `MappingLemmas.NonEmptyMembership` | sbitem_from_crcrecord.py:111 | a URL survives the filter exactly when it is in the input and non-empty |
| `MappingLemmas.NonEmptyConcat` | sbitem_from_crcrecord.py:111 | filtering a concatenation gives the concatenation of the filtered parts, so input order is kept |
| `MappingLemmas.NonEmptyKeepsAll` | sbitem_from_crcrecord.py:111 | a list with no empty URL passes the filter unchanged |
| `MappingLemmas.NonEmptyExample` | sbitem_from_crcrecord.py:111 | `["http://x/a.pdf", "", "http://x/b.pdf"]` filters to its two non-empty URLs |
| `MappingLemmas.LastSegmentOfDirectory` | sbitem_from_crcrecord.py:118 | for a directory ending in `/`, followed by a name with no `/`, the last segment is the name |
| `MappingLemmas.DocumentsExample` | sbitem_from_crcrecord.py:110-122 | those documents give exactly two downloads, titled for `a.pdf` and then `b.pdf` |
| `MappingLemmas.WebLinksLayout` | sbitem_from_crcrecord.py:97-152 | after the page link come the document downloads, then the photo downloads, then the thin-section downloads, each group in input order |
| `MappingLemmas.WebLinksDownloads` | sbitem_from_crcrecord.py:110-150 | every link after the first is a download. Its type id is `…dec0`, its `uri` is a non-empty entry of `documents`, `photos` or a `View`, and its title is its kind's prefix plus the URI's last segment. The first link has type id `…debf` |
| `MappingLemmas.IntervalTagsConcat` | sbitem_from_crcrecord.py:169-185 | the interval tags of a concatenation are those of the parts, in order |
| `MappingLemmas.FormationTagIff` | sbitem_from_crcrecord.py:170-177 | there is a formation tag named `f` exactly when some interval's formation is `f` and `f` is not "UNKNOWN" |
| `MappingLemmas.AgeTagIff` | sbitem_from_crcrecord.py:178-185 | there is an age tag named `a` exactly when some interval's age is `a` and `a` is not "UNKN" |
| `MappingLemmas.IntervalTagsEmptyIff` | sbitem_from_crcrecord.py:169-185 | the intervals yield no tag exactly when every formation and every age is None or its sentinel |
| `MappingLemmas.RockTypeTagIff` | sbitem_from_crcrecord.py:187-195 | as a set, the rock-type tags are exactly the truncated entries that are not None |
| `MappingLemmas.RockTypeTagsConcat` | sbitem_from_crcrecord.py:187-195 | the rock-type tags of a concatenation are those of the parts, in order. With the one-entry case, this means one tag per non-None entry, in entry order |
| `MappingLemmas.RockTypeTagsRepeat` | sbitem_from_crcrecord.py:187-195 | two equal entries give two equal tags: repeats are kept |
| `MappingLemmas.RockTypeTagsEmptyIff` | sbitem_from_crcrecord.py:187-195 | there are no rock-type tags exactly when every entry is None |
| `MappingLemmas.NoTagsIff` | sbitem_from_crcrecord.py:166-227 | `crc_tags` returns None exactly when all of these hold: every interval value is None or a sentinel, every rock type is None or the key is absent, and `surface_age`, `gmu_name` and `strat_unit` are each absent or empty |
| `MappingLemmas.SurfaceTagsBounded` | sbitem_from_crcrecord.py:187-222 | every surface tag has one of the four surface schemes ("Surface Rock Type", "Surface Geologic Age", "Geologic Map Unit Name", "Stratigraphic Unit Name"), never an at-depth scheme, and a name of at most 80 characters |
| `MappingLemmas.TagOrder` | sbitem_from_crcrecord.py:166-222 | the interval tags come first: a tag's position is among them exactly when it has an at-depth scheme. Every later tag has a surface scheme and a name of at most 80 characters. There are at most twice as many interval tags as intervals |
| `MappingLemmas.ItemIdentifiersAndContacts` | sbitem_from_crcrecord.py:4-14 | a mapped item's identifiers, title, body, contacts and provenance are exactly those the mappers give. So it has 3 identifiers exactly when `API Num` is a string, the first keyed by the URL's last segment. It has 3 contacts exactly when `Operator` is not None, starting with the two fixed ones |
| `MappingLemmas.ItemBodyAndPageLink` | sbitem_from_crcrecord.py:4-14 | a mapped item's body ends with the serialized record inside the closing `div`, and its first web link is the page link |
| `MappingLemmas.ItemSpatialAndTags` | sbitem_from_crcrecord.py:4-23 | a mapped item's point is longitude then latitude. Its tags, when present, are the non-empty derived list. Its browse category is "Physical Item" |

## Left out

- `cores_aggregation.js` is not part of this model. It is a MongoDB aggregation pipeline (`$group`, `$lookup`, `$out`) that runs in the database server and assembles the source records.
- `json.dumps(crc_record)` in `crc_body` is a foreign serializer. It is the parameter `dumps`, and the model only proves that the body embeds `dumps(rec)` verbatim.
- `float(...)` in `crc_location`: the point holds the two coordinate texts, not parsed numbers, because floating-point conversion is not modelled. So the `ValueError` for a non-numeric coordinate text is not modelled. `float(None)`, when `Longitude` is null, is modelled as the failure `LongitudeNotText`. A `Longitude` key that is absent is also `None` in the model, and gives the same failure. In Python that case raises `KeyError` instead of `TypeError`, and the model does not tell the two apart. A `Longitude` that is a number rather than text is not representable.
- `SourceRecord` holds only the keys the mappers read. The other keys are not represented: `Well Name`, `Field`, `State`, `County`, `Type`, `Photos`, `Thin Sec`, `Analysis`, `coordinates_geohash`, `Source`, `Security Flag`, `gmu_ref`, and each interval's `Min Depth` and `Max Depth`. Those keys are seen only by `json.dumps`. A non-string `API Num` or `Latitude` is also `None` in the model. So `dumps(rec)` serializes this projection of the record, not the whole record. Two records that differ only in such a key, `Well Name` for example, have different bodies in Python but the same body in the model.
- `crc_provenance` is the constant `PROVENANCE`. It is a fixed string, with nothing to prove beyond its value.
- `Capitalize`: only ASCII letters change case. Python's Unicode case mapping, including title-casing of the first character, is not modelled.
- A missing required key (`sb_parent_id`, `crcwc_url`, `Lib Num`, `API Num`, `crc_collection_name`, `Operator`, `Latitude`, `intervals`) raises `KeyError` in Python. Here these keys are mandatory fields, so that error cannot occur. The same holds for malformed optional entries: an interval without `Formation` or `Age`, or a thin section without `View`.
- Values of unexpected types are not representable. Examples are a `Lib Num` that is a number (then the title shows its decimal text), a `None` inside `documents` or `photos`, a `surface_age` that is `None` (`len(None)` raises), and a `Formation` that is neither a string nor `None`.
- The fixed field `provenance` is tied to the constant `PROVENANCE` by `ItemIdentifiersAndContacts`, and `browseCategories` to `["Physical Item"]` by `ItemSpatialAndTags`. Nothing more is stated about either, since both are constants.

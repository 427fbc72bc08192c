/** Properties of the item mapping that relate several of its parts: what the
    URL filter keeps and in which order, where each download link sits, which
    tags appear and in which order, and when there are no tags at all. */
module MappingLemmas {
  import opened Wrappers
  import opened Text
  import opened Records
  import opened Mapping

  // ---------------------------------------------------------------- the URL filter

  /** The filter keeps exactly the non-empty URLs. */
  lemma {:induction false} NonEmptyMembership(us: seq<string>, u: string)
    ensures u in NonEmpty(us) <==> u in us && |u| > 0
    decreases |us|
  {
    if us != [] {
      var init := us[..|us| - 1];
      NonEmptyMembership(init, u);
      assert us == init + [us[|us| - 1]];
    }
  }

  /** The filter works piecewise, so it keeps the input order. */
  lemma {:induction false} NonEmptyConcat(a: seq<string>, b: seq<string>)
    ensures NonEmpty(a + b) == NonEmpty(a) + NonEmpty(b)
    decreases |b|
  {
    if b == [] {
      assert a + b == a;
    } else {
      var init := b[..|b| - 1];
      NonEmptyConcat(a, init);
      assert (a + b)[..|a + b| - 1] == a + init;
    }
  }

  /** A list without empty URLs passes the filter unchanged. */
  lemma {:induction false} NonEmptyKeepsAll(us: seq<string>)
    requires forall k :: 0 <= k < |us| ==> |us[k]| > 0
    ensures NonEmpty(us) == us
    decreases |us|
  {
    if us != [] {
      NonEmptyKeepsAll(us[..|us| - 1]);
    }
  }

  /** The filter drops the empty entry of ["http://x/a.pdf", "", "http://x/b.pdf"]. */
  lemma NonEmptyExample()
    ensures NonEmpty(["http://x/a.pdf", "", "http://x/b.pdf"]) == ["http://x/a.pdf", "http://x/b.pdf"]
  {
    var us := ["http://x/a.pdf", "", "http://x/b.pdf"];
    assert us[..2] == ["http://x/a.pdf", ""];
    assert us[..2][..1] == ["http://x/a.pdf"];
    assert NonEmpty(us[..2]) == ["http://x/a.pdf"];
  }

  /** The documents ["http://x/a.pdf", "", "http://x/b.pdf"] give two
      downloads, for a.pdf and then b.pdf. */
  lemma DocumentsExample()
    ensures var ls := DownloadLinks(AnalysisFile, NonEmpty(["http://x/a.pdf", "", "http://x/b.pdf"]));
            && |ls| == 2
            && ls[0].title == "Core Research Center Analysis File a.pdf"
            && ls[1].title == "Core Research Center Analysis File b.pdf"
  {
    NonEmptyExample();
    assert LastSegment("http://x/a.pdf") == "a.pdf" by {
      assert "http://x/" + "a.pdf" == "http://x/a.pdf";
      LastSegmentOfDirectory("http://x/", "a.pdf");
    }
    assert LastSegment("http://x/b.pdf") == "b.pdf" by {
      assert "http://x/" + "b.pdf" == "http://x/b.pdf";
      LastSegmentOfDirectory("http://x/", "b.pdf");
    }
  }

  /** A path ending in `/` followed by a name without `/` has that name as
      its last segment. */
  lemma {:induction false} LastSegmentOfDirectory(dir: string, name: string)
    requires |dir| > 0 && dir[|dir| - 1] == '/'
    requires '/' !in name
    ensures LastSegment(dir + name) == name
    decreases |name|
  {
    if name == [] {
      assert dir + name == dir;
    } else {
      var init := name[..|name| - 1];
      assert '/' !in init by {
        assert forall k :: 0 <= k < |init| ==> init[k] == name[k];
      }
      LastSegmentOfDirectory(dir, init);
      assert (dir + name)[..|dir + name| - 1] == dir + init;
      assert name == init + [name[|name| - 1]];
    }
  }

  // ---------------------------------------------------------------- web links

  /** In `a + b`, the element `j` places past the end of `a` is `b[j]`. */
  lemma AtOffset<T>(a: seq<T>, b: seq<T>, j: nat)
    requires j < |b|
    ensures (a + b)[|a| + j] == b[j]
  {
  }

  /** The links right after the page link are the document downloads. */
  lemma WebLinksDocuments(rec: SourceRecord)
    ensures var ls, d := WebLinks(rec), DocumentUrls(rec);
            forall j :: 0 <= j < |d| ==> ls[1 + j] == DownloadLink(AnalysisFile, d[j])
  {
    var page := [PageLink(rec.crcwcUrl)];
    var docs := DownloadLinks(AnalysisFile, DocumentUrls(rec));
    var ls := WebLinks(rec);
    assert ls == page + docs + DownloadLinks(Photo, PhotoUrls(rec))
                 + DownloadLinks(ThinSectionImage, ThinSectionUrls(rec));
    forall j | 0 <= j < |DocumentUrls(rec)|
      ensures ls[1 + j] == DownloadLink(AnalysisFile, DocumentUrls(rec)[j])
    {
      AtOffset(page, docs, j);
    }
  }

  /** The photo downloads follow the document downloads. */
  lemma WebLinksPhotos(rec: SourceRecord)
    ensures var ls, n, p := WebLinks(rec), 1 + |DocumentUrls(rec)|, PhotoUrls(rec);
            forall j :: 0 <= j < |p| ==> ls[n + j] == DownloadLink(Photo, p[j])
  {
    var front := [PageLink(rec.crcwcUrl)] + DownloadLinks(AnalysisFile, DocumentUrls(rec));
    var photos := DownloadLinks(Photo, PhotoUrls(rec));
    var ls := WebLinks(rec);
    assert ls == front + photos + DownloadLinks(ThinSectionImage, ThinSectionUrls(rec));
    forall j | 0 <= j < |PhotoUrls(rec)|
      ensures ls[1 + |DocumentUrls(rec)| + j] == DownloadLink(Photo, PhotoUrls(rec)[j])
    {
      AtOffset(front, photos, j);
    }
  }

  /** The thin-section downloads come last. */
  lemma WebLinksThinSections(rec: SourceRecord)
    ensures var ls, n, t := WebLinks(rec), 1 + |DocumentUrls(rec)| + |PhotoUrls(rec)|, ThinSectionUrls(rec);
            forall j :: 0 <= j < |t| ==> ls[n + j] == DownloadLink(ThinSectionImage, t[j])
  {
    var front := [PageLink(rec.crcwcUrl)] + DownloadLinks(AnalysisFile, DocumentUrls(rec))
                 + DownloadLinks(Photo, PhotoUrls(rec));
    var thins := DownloadLinks(ThinSectionImage, ThinSectionUrls(rec));
    var ls := WebLinks(rec);
    assert ls == front + thins;
    forall j | 0 <= j < |ThinSectionUrls(rec)|
      ensures ls[1 + |DocumentUrls(rec)| + |PhotoUrls(rec)| + j]
              == DownloadLink(ThinSectionImage, ThinSectionUrls(rec)[j])
    {
      AtOffset(front, thins, j);
    }
  }

  /** After the page link come the document downloads, then the photo
      downloads, then the thin-section downloads, each in input order. */
  lemma WebLinksLayout(rec: SourceRecord)
    ensures var ls := WebLinks(rec);
            var d, p, t := DocumentUrls(rec), PhotoUrls(rec), ThinSectionUrls(rec);
            && (forall j :: 0 <= j < |d| ==> ls[1 + j] == DownloadLink(AnalysisFile, d[j]))
            && (forall j :: 0 <= j < |p| ==> ls[1 + |d| + j] == DownloadLink(Photo, p[j]))
            && (forall j :: 0 <= j < |t| ==> ls[1 + |d| + |p| + j] == DownloadLink(ThinSectionImage, t[j]))
  {
    WebLinksDocuments(rec);
    WebLinksPhotos(rec);
    WebLinksThinSections(rec);
  }

  /** Every link after the first is a download of one of the three kinds:
      its URL is a non-empty entry of `documents`, `photos` or a thin
      section's `View`, and its title is the kind's prefix followed by the
      URL's last segment. */
  lemma WebLinksDownloads(rec: SourceRecord)
    ensures var ls := WebLinks(rec);
            && ls[0].kind == "webLink" && ls[0].itemWebLinkTypeId == PAGE_LINK_TYPE_ID
            && forall j :: 1 <= j < |ls| ==>
                 && ls[j].kind == "download"
                 && ls[j].itemWebLinkTypeId == DOWNLOAD_LINK_TYPE_ID
                 && |ls[j].uri| > 0
                 && (ls[j].uri in rec.documents.GetOr([]) || ls[j].uri in rec.photos.GetOr([])
                     || ls[j].uri in Views(rec.thinSections.GetOr([])))
                 && exists k :: ls[j] == DownloadLink(k, ls[j].uri)
  {
    var ls := WebLinks(rec);
    var d, p, t := DocumentUrls(rec), PhotoUrls(rec), ThinSectionUrls(rec);
    WebLinksLayout(rec);
    forall j | 1 <= j < |ls|
      ensures && ls[j].kind == "download"
              && ls[j].itemWebLinkTypeId == DOWNLOAD_LINK_TYPE_ID
              && |ls[j].uri| > 0
              && (ls[j].uri in rec.documents.GetOr([]) || ls[j].uri in rec.photos.GetOr([])
                  || ls[j].uri in Views(rec.thinSections.GetOr([])))
              && exists k :: ls[j] == DownloadLink(k, ls[j].uri)
    {
      if j < 1 + |d| {
        NonEmptyMembership(rec.documents.GetOr([]), d[j - 1]);
        assert ls[j] == DownloadLink(AnalysisFile, d[j - 1]);
      } else if j < 1 + |d| + |p| {
        NonEmptyMembership(rec.photos.GetOr([]), p[j - 1 - |d|]);
        assert ls[j] == DownloadLink(Photo, p[j - 1 - |d|]);
      } else {
        NonEmptyMembership(Views(rec.thinSections.GetOr([])), t[j - 1 - |d| - |p|]);
        assert ls[j] == DownloadLink(ThinSectionImage, t[j - 1 - |d| - |p|]);
      }
    }
  }

  // ---------------------------------------------------------------- interval tags

  /** The interval tags of a list are those of its parts, in order. */
  lemma {:induction false} IntervalTagsConcat(a: seq<Interval>, b: seq<Interval>)
    ensures IntervalTags(a + b) == IntervalTags(a) + IntervalTags(b)
    decreases |b|
  {
    if b == [] {
      assert a + b == a;
    } else {
      var init := b[..|b| - 1];
      IntervalTagsConcat(a, init);
      assert (a + b)[..|a + b| - 1] == a + init;
    }
  }

  /** There is a formation tag named `f` exactly when some interval's
      formation is `f` and `f` is not the "UNKNOWN" sentinel. */
  lemma {:induction false} FormationTagIff(ivs: seq<Interval>, f: string)
    ensures Tag(THEME, FORMATION_SCHEME, f) in IntervalTags(ivs) <==>
            f != UNKNOWN_FORMATION && exists i :: 0 <= i < |ivs| && ivs[i].formation == Some(f)
    decreases |ivs|
  {
    if ivs != [] {
      var init, last := ivs[..|ivs| - 1], ivs[|ivs| - 1];
      FormationTagIff(init, f);
      assert IntervalTags(ivs) == IntervalTags(init) + IntervalTagsOf(last);
      // The two at-depth schemes differ at index 9, so a formation tag is never an age tag.
      assert AGE_SCHEME[9] != FORMATION_SCHEME[9];
      if KnownAge(last) {
        assert Tag(THEME, FORMATION_SCHEME, f) != IntervalTagsOf(last)[|IntervalTagsOf(last)| - 1];
      }
      assert Tag(THEME, FORMATION_SCHEME, f) in IntervalTagsOf(last) <==>
             f != UNKNOWN_FORMATION && last.formation == Some(f);
      if f != UNKNOWN_FORMATION && exists i :: 0 <= i < |ivs| && ivs[i].formation == Some(f) {
        var i :| 0 <= i < |ivs| && ivs[i].formation == Some(f);
        if i < |init| {
          assert init[i] == ivs[i];
        }
      }
    }
  }

  /** There is an age tag named `a` exactly when some interval's age is `a`
      and `a` is not the "UNKN" sentinel. */
  lemma {:induction false} AgeTagIff(ivs: seq<Interval>, a: string)
    ensures Tag(THEME, AGE_SCHEME, a) in IntervalTags(ivs) <==>
            a != UNKNOWN_AGE && exists i :: 0 <= i < |ivs| && ivs[i].age == Some(a)
    decreases |ivs|
  {
    if ivs != [] {
      var init, last := ivs[..|ivs| - 1], ivs[|ivs| - 1];
      AgeTagIff(init, a);
      assert IntervalTags(ivs) == IntervalTags(init) + IntervalTagsOf(last);
      // The two at-depth schemes differ at index 9, so a formation tag is never an age tag.
      assert AGE_SCHEME[9] != FORMATION_SCHEME[9];
      if KnownFormation(last) {
        assert Tag(THEME, AGE_SCHEME, a) != IntervalTagsOf(last)[0];
      }
      assert Tag(THEME, AGE_SCHEME, a) in IntervalTagsOf(last) <==>
             a != UNKNOWN_AGE && last.age == Some(a);
      if a != UNKNOWN_AGE && exists i :: 0 <= i < |ivs| && ivs[i].age == Some(a) {
        var i :| 0 <= i < |ivs| && ivs[i].age == Some(a);
        if i < |init| {
          assert init[i] == ivs[i];
        }
      }
    }
  }

  /** The intervals give no tag exactly when every formation and every age
      is None or its sentinel. */
  lemma {:induction false} IntervalTagsEmptyIff(ivs: seq<Interval>)
    ensures IntervalTags(ivs) == [] <==>
            forall i :: 0 <= i < |ivs| ==> !KnownFormation(ivs[i]) && !KnownAge(ivs[i])
    decreases |ivs|
  {
    if ivs != [] {
      var init := ivs[..|ivs| - 1];
      IntervalTagsEmptyIff(init);
      assert forall i :: 0 <= i < |init| ==> init[i] == ivs[i];
    }
  }

  // ---------------------------------------------------------------- surface tags

  /** The rock-type tags are exactly the truncated entries that are not
      None. */
  lemma {:induction false} RockTypeTagIff(rs: seq<Option<string>>, t: Tag)
    ensures t in RockTypeTags(rs) <==>
            exists i :: 0 <= i < |rs| && rs[i].Some? && t == RockTypeTag(rs[i].value)
    decreases |rs|
  {
    if rs != [] {
      var init, last := rs[..|rs| - 1], rs[|rs| - 1];
      var lastTags := if last.Some? then [RockTypeTag(last.value)] else [];
      assert RockTypeTags(rs) == RockTypeTags(init) + lastTags;
      RockTypeTagIff(init, t);
      if exists i :: 0 <= i < |rs| && rs[i].Some? && t == RockTypeTag(rs[i].value) {
        var i :| 0 <= i < |rs| && rs[i].Some? && t == RockTypeTag(rs[i].value);
        if i < |init| {
          assert init[i] == rs[i];
        }
      }
      if t in RockTypeTags(init) {
        var i :| 0 <= i < |init| && init[i].Some? && t == RockTypeTag(init[i].value);
        assert rs[i] == init[i];
      } else if t in lastTags {
        assert rs[|rs| - 1].Some? && t == RockTypeTag(rs[|rs| - 1].value);
      }
    }
  }

  /** The rock-type tags of a concatenation are the tags of each part in
      turn: one tag per entry that is not None, kept in entry order and with
      repeats kept. */
  lemma {:induction false} RockTypeTagsConcat(a: seq<Option<string>>, b: seq<Option<string>>)
    ensures RockTypeTags(a + b) == RockTypeTags(a) + RockTypeTags(b)
    decreases |b|
  {
    if b == [] {
      assert a + b == a;
    } else {
      var init := b[..|b| - 1];
      RockTypeTagsConcat(a, init);
      assert (a + b)[..|a + b| - 1] == a + init;
    }
  }

  /** Two equal entries give two equal tags, in that order: the rock-type
      tags are a list, not a set. */
  lemma RockTypeTagsRepeat(rock: string)
    ensures RockTypeTags([Some(rock), Some(rock)]) == [RockTypeTag(rock), RockTypeTag(rock)]
  {
    assert [Some(rock), Some(rock)][..1] == [Some(rock)];
    assert [Some(rock)][..0] == [];
  }

  /** `surface_rocktype` gives no tag exactly when every entry is None. */
  lemma {:induction false} RockTypeTagsEmptyIff(rs: seq<Option<string>>)
    ensures RockTypeTags(rs) == [] <==> forall i :: 0 <= i < |rs| ==> rs[i].None?
    decreases |rs|
  {
    if rs != [] {
      var init := rs[..|rs| - 1];
      RockTypeTagsEmptyIff(init);
      assert forall i :: 0 <= i < |init| ==> init[i] == rs[i];
    }
  }

  /** A surface value that yields no tag: absent or empty. */
  predicate Blank(v: Option<string>)
  {
    v.None? || v.value == ""
  }

  /** `crc_tags` returns None exactly when every interval value is None or a
      sentinel, every rock type is None (or the key is absent), and the three
      surface values are absent or empty. */
  lemma NoTagsIff(rec: SourceRecord)
    ensures Tags(rec).None? <==>
            && (forall i :: 0 <= i < |rec.intervals| ==>
                  !KnownFormation(rec.intervals[i]) && !KnownAge(rec.intervals[i]))
            && (forall i :: 0 <= i < |rec.surfaceRocktype.GetOr([])| ==>
                  rec.surfaceRocktype.GetOr([])[i].None?)
            && Blank(rec.surfaceAge) && Blank(rec.gmuName) && Blank(rec.stratUnit)
  {
    IntervalTagsEmptyIff(rec.intervals);
    RockTypeTagsEmptyIff(rec.surfaceRocktype.GetOr([]));
    var ivTags := IntervalTags(rec.intervals);
    var rocks := RockTypeTags(rec.surfaceRocktype.GetOr([]));
    var age := SurfaceTag(SURFACE_AGE_SCHEME, rec.surfaceAge);
    var gmu := SurfaceTag(MAP_UNIT_SCHEME, rec.gmuName);
    var strat := SurfaceTag(STRAT_UNIT_SCHEME, rec.stratUnit);
    assert TagList(rec) == ivTags + rocks + age + gmu + strat;
    assert |TagList(rec)| == |ivTags| + |rocks| + |age| + |gmu| + |strat|;
    assert age == [] <==> Blank(rec.surfaceAge);
    assert gmu == [] <==> Blank(rec.gmuName);
    assert strat == [] <==> Blank(rec.stratUnit);
  }

  /** Helper for `TagOrder`: no surface scheme is an at-depth scheme. */
  lemma SurfaceSchemesDiffer()
    ensures !IsIntervalScheme(ROCK_TYPE_SCHEME) && !IsIntervalScheme(SURFACE_AGE_SCHEME)
    ensures !IsIntervalScheme(MAP_UNIT_SCHEME) && !IsIntervalScheme(STRAT_UNIT_SCHEME)
  {
    // The six schemes have six different lengths, so no surface scheme equals an at-depth one.
    assert |FORMATION_SCHEME| == 27 && |AGE_SCHEME| == 21;
    assert |ROCK_TYPE_SCHEME| == 17 && |SURFACE_AGE_SCHEME| == 20;
    assert |MAP_UNIT_SCHEME| == 22 && |STRAT_UNIT_SCHEME| == 23;
  }

  /** Every surface tag has one of the four surface schemes, which is not
      an at-depth scheme, and a name of at most 80 characters. */
  lemma SurfaceTagsBounded(rec: SourceRecord)
    ensures var surface := RockTypeTags(rec.surfaceRocktype.GetOr([]))
                           + SurfaceTag(SURFACE_AGE_SCHEME, rec.surfaceAge)
                           + SurfaceTag(MAP_UNIT_SCHEME, rec.gmuName)
                           + SurfaceTag(STRAT_UNIT_SCHEME, rec.stratUnit);
            forall j :: 0 <= j < |surface| ==>
              && IsSurfaceScheme(surface[j].scheme)
              && !IsIntervalScheme(surface[j].scheme)
              && |surface[j].name| <= MAX_TAG_NAME
  {
    SurfaceSchemesDiffer();
    var rocks := RockTypeTags(rec.surfaceRocktype.GetOr([]));
    var age := SurfaceTag(SURFACE_AGE_SCHEME, rec.surfaceAge);
    var gmu := SurfaceTag(MAP_UNIT_SCHEME, rec.gmuName);
    var strat := SurfaceTag(STRAT_UNIT_SCHEME, rec.stratUnit);
    var surface := rocks + age + gmu + strat;
    forall j | 0 <= j < |surface|
      ensures IsSurfaceScheme(surface[j].scheme) && !IsIntervalScheme(surface[j].scheme)
      ensures |surface[j].name| <= MAX_TAG_NAME
    {
      if j < |rocks| {
        assert surface[j] == rocks[j];
      } else if j < |rocks| + |age| {
        assert surface[j] == age[j - |rocks|];
      } else if j < |rocks| + |age| + |gmu| {
        assert surface[j] == gmu[j - |rocks| - |age|];
      } else {
        assert surface[j] == strat[j - |rocks| - |age| - |gmu|];
      }
    }
  }

  /** The interval tags come first: a tag's position is among the first
      |IntervalTags| exactly when its scheme is an at-depth scheme. After
      them every tag has a surface scheme and a name of at most 80
      characters. */
  lemma TagOrder(rec: SourceRecord)
    ensures var ts, n := TagList(rec), |IntervalTags(rec.intervals)|;
            && n <= 2 * |rec.intervals|
            && forall j :: 0 <= j < |ts| ==>
                 && (j < n <==> IsIntervalScheme(ts[j].scheme))
                 && (j >= n ==> IsSurfaceScheme(ts[j].scheme) && |ts[j].name| <= MAX_TAG_NAME)
  {
    SurfaceTagsBounded(rec);
    var ivTags := IntervalTags(rec.intervals);
    var surface := RockTypeTags(rec.surfaceRocktype.GetOr([]))
                   + SurfaceTag(SURFACE_AGE_SCHEME, rec.surfaceAge)
                   + SurfaceTag(MAP_UNIT_SCHEME, rec.gmuName)
                   + SurfaceTag(STRAT_UNIT_SCHEME, rec.stratUnit);
    var ts := ivTags + surface;
    assert TagList(rec) == ts;
    forall j | 0 <= j < |ts|
      ensures && (j < |ivTags| <==> IsIntervalScheme(ts[j].scheme))
              && (j >= |ivTags| ==> IsSurfaceScheme(ts[j].scheme) && |ts[j].name| <= MAX_TAG_NAME)
    {
      if j >= |ivTags| {
        AtOffset(ivTags, surface, j - |ivTags|);
      }
    }
  }

  // ---------------------------------------------------------------- the item

  /** A mapped item carries the record's identifiers, title, body and
      contacts: three identifiers exactly when there is an API number, keyed
      first by the URL's last segment, and three contacts exactly when there
      is an operator, starting with the fixed ones. */
  lemma ItemIdentifiersAndContacts(rec: SourceRecord, dumps: SourceRecord -> string)
    requires rec.latitude.Some? ==> rec.longitude.Some?
    ensures var item := ItemOf(rec, dumps).value;
            && item.identifiers == Identifiers(rec)
            && |item.identifiers| == (if rec.apiNum.Some? then 3 else 2)
            && item.identifiers[0].key == LastSegment(rec.crcwcUrl)
            && item.title == Title(rec)
            && item.body == Body(rec, dumps)
            && item.contacts == Contacts(rec)
            && |item.contacts| == (if rec.operator.Some? then 3 else 2)
            && item.contacts[..2] == [CRC_CONTACT, STEWARD_CONTACT]
            && item.provenance == PROVENANCE
  {
    var item := ItemOf(rec, dumps).value;
    assert item.identifiers == Identifiers(rec);
    assert item.contacts == Contacts(rec);
    assert item.contacts[..2] == [CRC_CONTACT, STEWARD_CONTACT];
  }

  /** A mapped item's body ends with the serialized record inside the closing
      `div`, and its first link is the catalog page. */
  lemma ItemBodyAndPageLink(rec: SourceRecord, dumps: SourceRecord -> string)
    requires rec.latitude.Some? ==> rec.longitude.Some?
    ensures var item := ItemOf(rec, dumps).value;
            && |item.body| >= |dumps(rec)| + 6
            && item.body[|item.body| - |dumps(rec)| - 6..] == dumps(rec) + "</div>"
            && item.webLinks[0] == PageLink(rec.crcwcUrl)
  {
    var item := ItemOf(rec, dumps).value;
    assert item.body == Body(rec, dumps);
    BodyEmbedsRecord(rec, dumps);
  }

  /** A mapped item's point is longitude then latitude, and its tag list,
      when present, is the non-empty list of derived tags. */
  lemma ItemSpatialAndTags(rec: SourceRecord, dumps: SourceRecord -> string)
    requires rec.latitude.Some? ==> rec.longitude.Some?
    ensures var item := ItemOf(rec, dumps).value;
            && (item.spatial.Some? ==>
                  item.spatial.value.representationalPoint == [rec.longitude.value, rec.latitude.value])
            && (item.tags.Some? ==> |item.tags.value| > 0 && item.tags.value == TagList(rec))
            && item.browseCategories == ["Physical Item"]
  {
    var item := ItemOf(rec, dumps).value;
    assert item.tags == Tags(rec);
    assert item.spatial.Some? ==> item.spatial == Some(Location(rec).value);
  }
}

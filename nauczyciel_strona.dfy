/**
 * What both teacher parsers read from a page: the teacher links of a group's
 * plan page (`parse_nauczyciele_from_group_page`, the same in
 * `scraper/nauczyciel_parser.py` and `scraper/parsers/nauczyciel_parser.py`)
 * and the tags of a teacher's own page (`parse_nauczyciel_details`).
 *
 * A page is the list of what BeautifulSoup's searches look at: anchors as
 * (href, text) pairs, `h2` tags by their `.string` (None when the tag does
 * not hold exactly one string), and `h3` texts. `get_text(strip=True)` of a
 * tag holding one string is that string stripped.
 */
module NauczycielStrona {
  import opened Wrappers
  import opened Text
  import Seqs
  import Labels

  // ---------------------------------------------------------------- teacher links of a group page

  const PlanPage: string := "nauczyciel_plan.php?ID="

  /** The `find_all("a", href=...)` filter: the href mentions the teacher plan page (so it is not empty). */
  predicate IsTeacherAnchor(a: Labels.Anchor) {
    Contains(a.href, PlanPage)
  }

  /** What the loop derives from one link: its stripped text, `BASE_URL + href`, and `href.split("ID=")[1]`. */
  datatype TeacherLink = TeacherLink(nazwa: string, url: string, id: Option<string>)

  /** The link's name is the stripped text and its URL the base URL followed by the href. */
  function LinkOf(a: Labels.Anchor): (l: TeacherLink)
    ensures l.url == Labels.BaseUrl + a.href && l.nazwa == Strip(a.text)
  {
    TeacherLink(Strip(a.text), Labels.BaseUrl + a.href, Segment1(a.href, "ID="))
  }

  /** The id is the text between the first `ID=` and the next one, or None when the href has no `ID=`. */
  lemma LinkOfId(a: Labels.Anchor)
    ensures LinkOf(a).id.Some? <==> Contains(a.href, "ID=")
    ensures LinkOf(a).id.Some? ==>
      && !Contains(LinkOf(a).id.value, "ID=") && Find(a.href, "ID=").Some?
      && StartsWith(a.href[Find(a.href, "ID=").value + 3..], LinkOf(a).id.value)
  {
    if Segment1(a.href, "ID=").Some? {
      BeforeLacksSep(After(a.href, "ID=").value, "ID=");
    }
  }

  function UrlOf(l: TeacherLink): string {
    l.url
  }

  /** Every anchor that passes the filter, in page order. */
  function Links(anchors: seq<Labels.Anchor>): seq<TeacherLink> {
    var found := Seqs.Filter(anchors, IsTeacherAnchor);
    seq(|found|, (k: int) requires 0 <= k < |found| => LinkOf(found[k]))
  }

  /** The links the loop keeps: the first one for each full URL, in page order. */
  function TeacherLinks(anchors: seq<Labels.Anchor>): seq<TeacherLink> {
    Seqs.Dedup(Links(anchors), UrlOf)
  }

  /** The kept links have pairwise different URLs, and they are a subsequence of the filtered links. */
  lemma TeacherLinksDistinct(anchors: seq<Labels.Anchor>)
    ensures forall i, j :: 0 <= i < j < |TeacherLinks(anchors)| ==> TeacherLinks(anchors)[i].url != TeacherLinks(anchors)[j].url
    ensures Seqs.Subseq(TeacherLinks(anchors), Links(anchors))
  {
    Seqs.DedupKeysDistinct(Links(anchors), UrlOf, {});
    Seqs.DedupIsSubseq(Links(anchors), UrlOf, {});
  }

  /** A link is kept exactly when no earlier link has its URL. */
  lemma TeacherLinksFirst(anchors: seq<Labels.Anchor>, i: nat)
    requires i < |Links(anchors)|
    ensures (forall j :: 0 <= j < i ==> Links(anchors)[j].url != Links(anchors)[i].url) ==> Links(anchors)[i] in TeacherLinks(anchors)
  {
    if forall j :: 0 <= j < i ==> Links(anchors)[j].url != Links(anchors)[i].url {
      Seqs.DedupKeepsFirst(Links(anchors), UrlOf, {}, i);
    }
  }

  /** Whatever is kept is the first link with its URL. */
  lemma TeacherLinksOnlyFirst(anchors: seq<Labels.Anchor>, l: TeacherLink)
    requires l in TeacherLinks(anchors)
    ensures exists i :: (0 <= i < |Links(anchors)| && Links(anchors)[i] == l &&
      forall j :: 0 <= j < i ==> Links(anchors)[j].url != l.url)
  {
    Seqs.DedupOnlyFirst(Links(anchors), UrlOf, {}, l);
  }

  /** The filter asks for `nauczyciel_plan.php?ID=`, so every kept link has an id: the `None` branch is never taken. */
  lemma TeacherLinksHaveIds(anchors: seq<Labels.Anchor>)
    ensures forall l :: l in TeacherLinks(anchors) ==> l.id.Some?
  {
    var found := Seqs.Filter(anchors, IsTeacherAnchor);
    Seqs.FilterMembers(anchors, IsTeacherAnchor);
    forall l | l in TeacherLinks(anchors) ensures l.id.Some? {
      TeacherLinksOnlyFirst(anchors, l);
      var i :| 0 <= i < |Links(anchors)| && Links(anchors)[i] == l;
      assert found[i] in found;
      PlanPageHasId(found[i].href);
      LinkOfId(found[i]);
    }
  }

  lemma PlanPageHasId(href: string)
    requires Contains(href, PlanPage)
    ensures Contains(href, "ID=")
  {
    ContainsIff(href, PlanPage);
    var i: nat :| OccursAt(href, PlanPage, i);
    assert |PlanPage| == 23;
    assert href[i + 20..i + 23] == href[i..i + 23][20..23];
    ContainsAt(href, "ID=", i + 20);
  }

  // ---------------------------------------------------------------- a teacher's page

  datatype TeacherPage = TeacherPage(h2s: seq<Option<string>>, h3s: seq<string>, anchors: seq<Labels.Anchor>)

  /** `soup.find("h2", string=lambda s: s and "Plan zajęć" not in s)`. */
  predicate IsNameH2(s: Option<string>) {
    s.Some? && s.value != "" && !Contains(s.value, "Plan zajęć")
  }

  /** The stripped string of the first `h2` that is not the "Plan zajęć" heading, if any. */
  function NameOf(p: TeacherPage): (r: Option<string>)
    ensures r.None? <==> forall i :: 0 <= i < |p.h2s| ==> !IsNameH2(p.h2s[i])
    ensures r.Some? ==> exists i :: (0 <= i < |p.h2s| && IsNameH2(p.h2s[i]) && r.value == Strip(p.h2s[i].value) &&
      forall j :: 0 <= j < i ==> !IsNameH2(p.h2s[j]))
  {
    match Seqs.FirstIndex(p.h2s, IsNameH2, 0)
    case None => None
    case Some(i) => Some(Strip(p.h2s[i].value))
  }

  /** The stripped text of the first `h3`, if any. */
  function InstytutOf(p: TeacherPage): Option<string> {
    if |p.h3s| > 0 then Some(Strip(p.h3s[0])) else None
  }

  /** `soup.find("a", href=lambda href: href and needle in href)`: the first anchor whose href mentions `needle`. */
  function FirstAnchor(anchors: seq<Labels.Anchor>, needle: string): (r: Option<Labels.Anchor>)
    ensures r.None? <==> forall i :: 0 <= i < |anchors| ==> !Contains(anchors[i].href, needle)
    ensures r.Some? ==> exists i :: (0 <= i < |anchors| && anchors[i] == r.value && Contains(r.value.href, needle) &&
      forall j :: 0 <= j < i ==> !Contains(anchors[j].href, needle))
  {
    match Seqs.FirstIndex(anchors, (a: Labels.Anchor) => Contains(a.href, needle), 0)
    case None => None
    case Some(i) => Some(anchors[i])
  }

  /** An anchor whose href mentions `needle`, with none before it, is the one found. */
  lemma FirstAnchorAt(anchors: seq<Labels.Anchor>, needle: string, i: nat)
    requires i < |anchors| && Contains(anchors[i].href, needle)
    requires forall j :: 0 <= j < i ==> !Contains(anchors[j].href, needle)
    ensures FirstAnchor(anchors, needle) == Some(anchors[i])
  {
    Seqs.FirstIndexLeast(anchors, (a: Labels.Anchor) => Contains(a.href, needle), 0, i);
  }

  /** The e-mail address is the stripped TEXT of the first `mailto:` anchor, not its href. */
  function EmailOf(p: TeacherPage): (r: Option<string>)
    ensures r.None? <==> FirstAnchor(p.anchors, "mailto:").None?
    ensures r.Some? ==> r.value == Strip(FirstAnchor(p.anchors, "mailto:").value.text)
  {
    match FirstAnchor(p.anchors, "mailto:")
    case None => None
    case Some(a) => Some(Strip(a.text))
  }

  /** `BASE_URL + href` of the first anchor whose href mentions `nauczyciel_ics.php`. */
  function IcsLinkOf(p: TeacherPage): (r: Option<string>)
    ensures r.None? <==> FirstAnchor(p.anchors, "nauczyciel_ics.php").None?
    ensures r.Some? ==>
      && r.value == Labels.BaseUrl + FirstAnchor(p.anchors, "nauczyciel_ics.php").value.href
      && StartsWith(r.value, Labels.BaseUrl)
  {
    match FirstAnchor(p.anchors, "nauczyciel_ics.php")
    case None => None
    case Some(a) =>
      assert (Labels.BaseUrl + a.href)[..|Labels.BaseUrl|] == Labels.BaseUrl;
      Some(Labels.BaseUrl + a.href)
  }
}

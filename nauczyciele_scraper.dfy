/**
 * `scraper/nauczyciele_scraper.py`: `NauczycieleScraper.get_nauczyciel_info`,
 * the record of one teacher read from the teacher's page.
 *
 * The page is what the session returns for a URL, parsed: a parameter from
 * URL to page, None when the request or the parse fails (the `except`
 * branch). A page is the text of its first `h2` and first `h3` tag (if any),
 * all its anchors, and the anchors of its first `ul.dropdown-menu` (None
 * when it has no such menu).
 */
module NauczycieleScraper {
  import opened Wrappers
  import opened Text
  import Labels
  import Utils
  import Seqs
  import NauczycielStrona

  datatype ProfilPage = ProfilPage(
    h2: Option<string>, h3: Option<string>, anchors: seq<Labels.Anchor>, dropdown: Option<seq<Labels.Anchor>>)

  /** The record `get_nauczyciel_info` returns. */
  datatype NauczycielInfo = NauczycielInfo(
    id: string, imieNazwisko: string, instytut: string, email: string,
    linkIcs: string, linkPlanu: string, dataAktualizacji: string)

  const Mailto: string := "mailto:"
  const IcsPage: string := "nauczyciel_ics.php"

  predicate IsMailto(a: Labels.Anchor) {
    StartsWith(a.href, Mailto)
  }

  /** The href of the first anchor whose href starts with `mailto:`, with every `mailto:` replaced by nothing; "" when there is none. */
  function EmailOf(anchors: seq<Labels.Anchor>): (r: string)
    ensures (forall i :: 0 <= i < |anchors| ==> !IsMailto(anchors[i])) ==> r == ""
  {
    match Seqs.FirstIndex(anchors, IsMailto, 0)
    case None => ""
    case Some(i) => Replace(anchors[i].href, Mailto, "")
  }

  /** A `mailto:` link of an address that does not itself hold `mailto:` gives exactly that address. */
  lemma EmailOfAddress(anchors: seq<Labels.Anchor>, i: nat, address: string)
    requires i < |anchors| && anchors[i].href == Mailto + address && !Contains(address, Mailto)
    requires forall j :: 0 <= j < i ==> !IsMailto(anchors[j])
    ensures EmailOf(anchors) == address
  {
    assert anchors[i].href[..|Mailto|] == Mailto;
    EmailOfAt(anchors, i);
    ReplaceMailto(address);
  }

  lemma EmailOfAt(anchors: seq<Labels.Anchor>, i: nat)
    requires i < |anchors| && IsMailto(anchors[i])
    requires forall j :: 0 <= j < i ==> !IsMailto(anchors[j])
    ensures EmailOf(anchors) == Replace(anchors[i].href, Mailto, "")
  {
    Seqs.FirstIndexLeast(anchors, IsMailto, 0, i);
  }

  lemma ReplaceMailto(address: string)
    requires !Contains(address, Mailto)
    ensures Replace(Mailto + address, Mailto, "") == address
  {
    assert [] + Mailto + address == Mailto + address;
    ReplaceFirst([], Mailto, address, "");
    ReplaceAbsent(address, Mailto, "");
  }

  /** The href of the first dropdown anchor whose href mentions `nauczyciel_ics.php`, as it stands; "" when there is none. */
  function IcsLinkOf(dropdown: seq<Labels.Anchor>): (r: string)
    ensures r == "" <==> forall i :: 0 <= i < |dropdown| ==> !Contains(dropdown[i].href, IcsPage)
    ensures r != "" ==> exists i :: (0 <= i < |dropdown| && dropdown[i].href == r && Contains(r, IcsPage) &&
      forall j :: 0 <= j < i ==> !Contains(dropdown[j].href, IcsPage))
  {
    match NauczycielStrona.FirstAnchor(dropdown, IcsPage)
    case None => ""
    case Some(a) => a.href
  }

  /** The `for a_tag in dropdown_menu.find_all('a')` loop, with `break` at the first ICS link. */
  method FindIcsLink(dropdown: seq<Labels.Anchor>) returns (icsLink: string)
    ensures icsLink == IcsLinkOf(dropdown)
  {
    icsLink := "";
    var i := 0;
    while i < |dropdown|
      invariant 0 <= i <= |dropdown|
      invariant forall j :: 0 <= j < i ==> !Contains(dropdown[j].href, IcsPage)
    {
      var aHref := dropdown[i].href;
      if Contains(aHref, IcsPage) {
        icsLink := aHref;
        NauczycielStrona.FirstAnchorAt(dropdown, IcsPage, i);
        break;
      }
      i := i + 1;
    }
  }

  /** The teacher's id: the digits of the first `ID=<digits>` in the link, or "". */
  function IdZLinku(link: string): (r: string)
    ensures r == "" <==> Utils.IdOf(link).None?
    ensures r != "" ==> Utils.IdOf(link) == Some(r) && AllDigits(r)
  {
    match Utils.IdOf(link)
    case None => ""
    case Some(id) => id
  }

  /** The record of a fetched page, or the record of empty strings when the page could not be read. */
  function Info(link: string, page: Option<ProfilPage>, timestamp: string): NauczycielInfo {
    match page
    case None => NauczycielInfo("", "", "", "", "", link, timestamp)
    case Some(p) =>
      NauczycielInfo(
        IdZLinku(link),
        if p.h2.Some? then Strip(p.h2.value) else "",
        if p.h3.Some? then Strip(p.h3.value) else "",
        EmailOf(p.anchors),
        if p.dropdown.Some? then IcsLinkOf(p.dropdown.value) else "",
        link, timestamp)
  }

  /** The scraper object: the time stamp is taken once, when it is created. */
  class Scraper {
    const scrapeTimestamp: string

    constructor(timestamp: string)
      ensures scrapeTimestamp == timestamp
    {
      scrapeTimestamp := timestamp;
    }

    /** `get_nauczyciel_info`: the record of the teacher behind a site-relative link. */
    method GetNauczycielInfo(nauczycielLink: string, fetch: string -> Option<ProfilPage>) returns (info: NauczycielInfo)
      ensures info == Info(nauczycielLink, fetch(Labels.PlanUrl(nauczycielLink)), scrapeTimestamp)
    {
      var page := fetch(Labels.PlanUrl(nauczycielLink));
      if page.None? {
        return NauczycielInfo("", "", "", "", "", nauczycielLink, scrapeTimestamp);
      }
      var p := page.value;
      var imieNazwisko := "";
      if p.h2.Some? {
        imieNazwisko := Strip(p.h2.value);
      }
      var instytut := "";
      if p.h3.Some? {
        instytut := Strip(p.h3.value);
      }
      var email := EmailOf(p.anchors);
      var icsLink := "";
      if p.dropdown.Some? {
        icsLink := FindIcsLink(p.dropdown.value);
      }
      var nauczycielId := IdZLinku(nauczycielLink);
      info := NauczycielInfo(nauczycielId, imieNazwisko, instytut, email, icsLink, nauczycielLink, scrapeTimestamp);
    }
  }

  // ---------------------------------------------------------------- properties

  /**
   * The plan link is the input on both paths, every record carries the scrape
   * time, and a failed fetch gives empty strings everywhere else.
   */
  lemma InfoFallback(link: string, page: Option<ProfilPage>, timestamp: string)
    ensures Info(link, page, timestamp).linkPlanu == link && Info(link, page, timestamp).dataAktualizacji == timestamp
    ensures page.None? ==> var r := Info(link, page, timestamp);
      r.id == "" && r.imieNazwisko == "" && r.instytut == "" && r.email == "" && r.linkIcs == ""
  {
  }

  /**
   * The id depends on the link alone: on a page that was read it is the
   * digit run of the link's first `ID=<digits>`, or "" when there is none.
   */
  lemma InfoId(link: string, p: ProfilPage, timestamp: string)
    ensures Info(link, Some(p), timestamp).id == "" <==> forall i: nat :: !Utils.IdAt(link, "ID=", i)
    ensures Info(link, Some(p), timestamp).id != "" ==>
      exists i: nat :: Utils.IdAt(link, "ID=", i) && (forall j :: 0 <= j < i ==> !Utils.IdAt(link, "ID=", j)) &&
        Info(link, Some(p), timestamp).id == DigitRun(link, i + 3)
  {
    assert "ID" + "=" == "ID=";
    match Utils.IdPosition(link, "ID=", 0)
    case None =>
    case Some(i) =>
      Utils.ExtractIdLeftmost(link, "ID", i);
  }
}

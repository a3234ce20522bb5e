/**
 * `scraper/grupy_scraper.py`: `GrupyScraper.get_grupy`, the loop over the
 * plan links of a course page. A record has the shape and the derivations of
 * the group records of `scraper/scraper.py` (`PlanUzScraper.GrupaOf`); the
 * difference is the semester, which here is read once, from the first `h3`,
 * before the loop.
 *
 * The page is what the HTTP session returns for a URL, parsed: a parameter
 * from URL to page, None when the request or the parse fails (the `except`
 * branch).
 */
module GrupyScraper {
  import opened Wrappers
  import opened Text
  import Labels
  import Utils
  import Seqs
  import PlanUzScraper

  /** What `get_grupy` reads from a course page: the texts of its `h3` tags and its anchors, in document order. */
  datatype KierunekPage = KierunekPage(h3s: seq<string>, anchors: seq<Labels.Anchor>)

  type GrupaWpis = PlanUzScraper.GrupaWpis

  /** The stripped text of the first `h3`, or "" when the page has none. */
  function Semestr(p: KierunekPage): string {
    if p.h3s != [] then Strip(p.h3s[0]) else ""
  }

  /** The records of some links under one semester, in link order. */
  function GrupyZLinkow(anchors: seq<Labels.Anchor>, semestr: string, timestamp: string): seq<GrupaWpis> {
    Seqs.FilterMap(anchors, (a: Labels.Anchor) => PlanUzScraper.GrupaOf(a, semestr, timestamp))
  }

  /** The records of a page, all under the page's one semester. */
  function Grupy(p: KierunekPage, timestamp: string): seq<GrupaWpis> {
    GrupyZLinkow(p.anchors, Semestr(p), timestamp)
  }

  /** The loop over the plan links, with the semester fixed before it. */
  method ReadLinks(anchors: seq<Labels.Anchor>, currentSemestr: string, timestamp: string) returns (grupy: seq<GrupaWpis>)
    ensures grupy == GrupyZLinkow(anchors, currentSemestr, timestamp)
  {
    grupy := [];
    for i := 0 to |anchors|
      invariant grupy == GrupyZLinkow(anchors[..i], currentSemestr, timestamp)
    {
      assert anchors[..i + 1][..i] == anchors[..i];
      var a := anchors[i];
      if Contains(a.href, "grupy_plan.php") {
        var pelnaNazwaGrupy := Strip(a.text);
        var kodGrupy := Labels.KodGrupy(pelnaNazwaGrupy);
        var tryb := Labels.TrybZNazwy(pelnaNazwaGrupy);
        var idMatch := Utils.IdOf(a.href);
        if idMatch.Some? {
          grupy := grupy + [PlanUzScraper.GrupaWpis(pelnaNazwaGrupy, kodGrupy, currentSemestr, tryb, a.href, idMatch.value, timestamp)];
        }
      }
    }
    assert anchors[..|anchors|] == anchors;
  }

  /** The scraper object: the time stamp is taken once, when it is created, and written into every record. */
  class Scraper {
    const scrapeTimestamp: string

    constructor(timestamp: string)
      ensures scrapeTimestamp == timestamp
    {
      scrapeTimestamp := timestamp;
    }

    /** `get_grupy`: the records of the course page, or [] when it cannot be fetched. */
    method GetGrupy(kierunekLink: string, fetch: string -> Option<KierunekPage>) returns (grupy: seq<GrupaWpis>)
      ensures fetch(Labels.PlanUrl(kierunekLink)).None? ==> grupy == []
      ensures fetch(Labels.PlanUrl(kierunekLink)).Some? ==> grupy == Grupy(fetch(Labels.PlanUrl(kierunekLink)).value, scrapeTimestamp)
    {
      grupy := [];
      var page := fetch(Labels.PlanUrl(kierunekLink));
      if page.None? {
        return;
      }
      var p := page.value;
      var currentSemestr := "";
      if p.h3s != [] {
        currentSemestr := Strip(p.h3s[0]);
      }
      grupy := ReadLinks(p.anchors, currentSemestr, scrapeTimestamp);
    }
  }

  // ---------------------------------------------------------------- properties

  /** What the record of a plan link satisfies. */
  predicate WellFormed(g: GrupaWpis, semestr: string, timestamp: string) {
    && g.semestr == semestr && g.dataAktualizacji == timestamp
    && Contains(g.linkPlanu, "grupy_plan.php") && Utils.IdOf(g.linkPlanu) == Some(g.grupaId)
    && g.grupaId != [] && AllDigits(g.grupaId)
    && g.nazwaGrupy == Strip(g.nazwaGrupy)
    && g.kodGrupy == Labels.KodGrupy(g.nazwaGrupy) && g.trybStudiow == Labels.TrybZNazwy(g.nazwaGrupy)
  }

  lemma GrupaOfWellFormed(a: Labels.Anchor, semestr: string, timestamp: string)
    ensures PlanUzScraper.GrupaOf(a, semestr, timestamp).Some? ==>
      WellFormed(PlanUzScraper.GrupaOf(a, semestr, timestamp).value, semestr, timestamp)
  {
    StripIdempotent(a.text);
  }

  /**
   * Every record carries the page's one semester (the first `h3`, stripped, or
   * ""), the scrape time, a plan link with `ID=<digits>` and those digits, and
   * the code and mode of its stripped name.
   */
  lemma GrupyWellFormed(p: KierunekPage, timestamp: string)
    ensures forall k :: 0 <= k < |Grupy(p, timestamp)| ==>
      WellFormed(Grupy(p, timestamp)[k], if p.h3s != [] then Strip(p.h3s[0]) else "", timestamp)
  {
    var f := (a: Labels.Anchor) => PlanUzScraper.GrupaOf(a, Semestr(p), timestamp);
    forall a | a in p.anchors {
      GrupaOfWellFormed(a, Semestr(p), timestamp);
    }
    Seqs.FilterMapAll(p.anchors, f, (g: GrupaWpis) => WellFormed(g, Semestr(p), timestamp));
  }

  /** Every record is the record of one of the page's anchors. */
  lemma GrupyFrom(p: KierunekPage, timestamp: string, k: nat) returns (i: nat)
    requires k < |Grupy(p, timestamp)|
    ensures i < |p.anchors| && PlanUzScraper.GrupaOf(p.anchors[i], Semestr(p), timestamp) == Some(Grupy(p, timestamp)[k])
  {
    i := Seqs.FilterMapFrom(p.anchors, (a: Labels.Anchor) => PlanUzScraper.GrupaOf(a, Semestr(p), timestamp), k);
  }

  /** A plan link with `ID=<digits>` produces a record, and one without produces none. */
  lemma GrupyComplete(p: KierunekPage, timestamp: string, i: nat)
    requires i < |p.anchors|
    ensures PlanUzScraper.GrupaOf(p.anchors[i], Semestr(p), timestamp).Some?
      <==> Contains(p.anchors[i].href, "grupy_plan.php") && Utils.IdOf(p.anchors[i].href).Some?
    ensures PlanUzScraper.GrupaOf(p.anchors[i], Semestr(p), timestamp).Some? ==>
      PlanUzScraper.GrupaOf(p.anchors[i], Semestr(p), timestamp).value in Grupy(p, timestamp)
  {
    if PlanUzScraper.GrupaOf(p.anchors[i], Semestr(p), timestamp).Some? {
      Seqs.FilterMapComplete(p.anchors, (a: Labels.Anchor) => PlanUzScraper.GrupaOf(a, Semestr(p), timestamp), i);
    }
  }
}

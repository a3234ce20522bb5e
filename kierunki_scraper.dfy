/**
 * `scraper/kierunki_scraper.py`: `KierunkiScraper.get_kierunki`, the nested
 * walk over the department items of the course list and the anchors inside
 * each. The records have the shape of the course records of
 * `scraper/scraper.py` (`PlanUzScraper.Kierunek`).
 *
 * A department item is what the walk reads from it: the text of its first
 * `strong`/`b` (`get_text(strip=True)`), its own text (`get_text(strip=True)`),
 * and every anchor inside it, in document order. A page that cannot be
 * fetched or read is None: any exception gives the empty list.
 */
module KierunkiScraper {
  import opened Wrappers
  import opened Text
  import Labels
  import Utils
  import Seqs
  import opened PlanUzScraper

  datatype WydzialElement = WydzialElement(bold: Option<string>, text: string, anchors: seq<Labels.Anchor>)

  const CoursePage: string := "grupy_lista_grup_kierunku.php"

  /** The department name: the bold text, else the first line of the item's text, stripped. */
  function WydzialNazwa(w: WydzialElement): (r: string)
    ensures w.bold.Some? ==> r == w.bold.value
    ensures w.bold.None? ==> r == Strip(Before(w.text, "\n")) && '\n' !in r
  {
    match w.bold
    case Some(b) => b
    case None =>
      BeforeLacks(w.text, '\n');
      StripLacks(Before(w.text, "\n"), '\n');
      Strip(Before(w.text, "\n"))
  }

  /**
   * The record of one anchor: only an href mentioning the course page and
   * holding `ID=<digits>` gives one, with those digits as id and the type of
   * the stripped name.
   */
  function KierunekOf(a: Labels.Anchor, wydzial: string): (r: Option<Kierunek>)
    ensures r.Some? <==> Contains(a.href, CoursePage) && Utils.IdOf(a.href).Some?
    ensures r.Some? ==> r.value == Kierunek(Strip(a.text), wydzial, a.href, Utils.IdOf(a.href).value, Labels.TypKierunku(Strip(a.text)))
  {
    if !Contains(a.href, CoursePage) then None
    else match Utils.IdOf(a.href)
      case None => None
      case Some(id) => Some(Kierunek(Strip(a.text), wydzial, a.href, id, Labels.TypKierunku(Strip(a.text))))
  }

  /** The records of some anchors under one department, in order. */
  function KierunkiAnchorow(anchors: seq<Labels.Anchor>, wydzial: string): seq<Kierunek> {
    Seqs.FilterMap(anchors, (a: Labels.Anchor) => KierunekOf(a, wydzial))
  }

  /** The records of some department items, in order. */
  function Kierunki(ws: seq<WydzialElement>): seq<Kierunek> {
    if ws == [] then []
    else
      var w := ws[|ws| - 1];
      Kierunki(ws[..|ws| - 1]) + KierunkiAnchorow(w.anchors, WydzialNazwa(w))
  }

  /** The inner loop over the anchors of one department item. */
  method ReadAnchors(anchors: seq<Labels.Anchor>, wydzialNazwa: string) returns (ks: seq<Kierunek>)
    ensures ks == KierunkiAnchorow(anchors, wydzialNazwa)
  {
    ks := [];
    for i := 0 to |anchors|
      invariant ks == KierunkiAnchorow(anchors[..i], wydzialNazwa)
    {
      assert anchors[..i + 1][..i] == anchors[..i];
      var a := anchors[i];
      if Contains(a.href, CoursePage) {
        var nazwaKierunku := Strip(a.text);
        var idMatch := Utils.IdOf(a.href);
        if idMatch.Some? {
          var typKierunku := Labels.TypKierunku(nazwaKierunku);
          ks := ks + [Kierunek(nazwaKierunku, wydzialNazwa, a.href, idMatch.value, typKierunku)];
        }
      }
    }
    assert anchors[..|anchors|] == anchors;
  }

  /** `get_kierunki`: the records of every department item in page order, or [] when the page fails. */
  method GetKierunki(page: Option<seq<WydzialElement>>) returns (kierunki: seq<Kierunek>)
    ensures page.None? ==> kierunki == []
    ensures page.Some? ==> kierunki == Kierunki(page.value)
  {
    kierunki := [];
    if page.None? {
      return;
    }
    var ws := page.value;
    for i := 0 to |ws|
      invariant kierunki == Kierunki(ws[..i])
    {
      assert ws[..i + 1][..i] == ws[..i];
      var found := ReadAnchors(ws[i].anchors, WydzialNazwa(ws[i]));
      kierunki := kierunki + found;
    }
    assert ws[..|ws|] == ws;
  }

  // ---------------------------------------------------------------- properties

  /** Every record of a department's anchors is the record of one of its anchors. */
  lemma KierunkiAnchorowFrom(anchors: seq<Labels.Anchor>, wydzial: string, k: nat) returns (i: nat)
    requires k < |KierunkiAnchorow(anchors, wydzial)|
    ensures i < |anchors| && KierunekOf(anchors[i], wydzial) == Some(KierunkiAnchorow(anchors, wydzial)[k])
  {
    i := Seqs.FilterMapFrom(anchors, (a: Labels.Anchor) => KierunekOf(a, wydzial), k);
  }

  /** The record of a course-page anchor with an id is among the department's records. */
  lemma KierunkiAnchorowComplete(anchors: seq<Labels.Anchor>, wydzial: string, i: nat)
    requires i < |anchors| && Contains(anchors[i].href, CoursePage) && Utils.IdOf(anchors[i].href).Some?
    ensures KierunekOf(anchors[i], wydzial).value in KierunkiAnchorow(anchors, wydzial)
  {
    Seqs.FilterMapComplete(anchors, (a: Labels.Anchor) => KierunekOf(a, wydzial), i);
  }

  /** What every record of the walk satisfies: a course-page link, an all-digit id taken from it, and the type of its name. */
  predicate WellFormed(k: Kierunek) {
    && Contains(k.linkGrupy, CoursePage)
    && Utils.IdOf(k.linkGrupy) == Some(k.kierunekId)
    && k.kierunekId != "" && AllDigits(k.kierunekId)
    && k.typKierunku == Labels.TypKierunku(k.nazwaKierunku)
  }

  /** Only course-page anchors with `ID=<digits>` produce records; each is well formed and names its department. */
  lemma KierunkiAnchorowShape(anchors: seq<Labels.Anchor>, wydzial: string)
    ensures forall k :: k in KierunkiAnchorow(anchors, wydzial) ==> WellFormed(k) && k.wydzial == wydzial
  {
    var f := (a: Labels.Anchor) => KierunekOf(a, wydzial);
    var p := (k: Kierunek) => WellFormed(k) && k.wydzial == wydzial;
    Seqs.FilterMapAll(anchors, f, p);
  }

  /** Every record of the walk is well formed. */
  lemma {:induction false} KierunkiWellFormed(ws: seq<WydzialElement>)
    ensures forall k :: k in Kierunki(ws) ==> WellFormed(k)
  {
    if ws != [] {
      var n := |ws| - 1;
      KierunkiWellFormed(ws[..n]);
      KierunkiAnchorowShape(ws[n].anchors, WydzialNazwa(ws[n]));
    }
  }
}

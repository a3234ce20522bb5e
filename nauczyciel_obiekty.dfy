/**
 * The object-based teacher scraper: `scraper/parsers/nauczyciel_parser.py`
 * builds `Nauczyciel` objects from a group page and a details dict from a
 * teacher page, and `scraper/scrapers/nauczyciel_scraper.py` cleans strings,
 * fills an object's fields from its details in place, and picks the objects
 * whose details are fetched, once per teacher id.
 */
module NauczycielObiekty {
  import opened Wrappers
  import opened Text
  import Seqs
  import Labels
  import opened NauczycielStrona

  // ---------------------------------------------------------------- sanitize_string

  /** The argument of `sanitize_string`: None, a string, or another value with its `str()` text. */
  datatype Wartosc = Brak | Tekst(s: string) | Inna(str: string)

  const PolishChars: string := "ąćęłńóśźżĄĆĘŁŃÓŚŹŻ"

  /**
   * `str.isprintable` on one character, approximated: the printable ASCII
   * range and every character from U+00A1 on except the soft hyphen;
   * control characters, DEL, the C1 block and U+00A0 are not printable.
   */
  predicate IsPrintable(c: char) {
    (' ' <= c <= '~') || ('¡' <= c && c != '­')
  }

  /** What the loop keeps: a printable character or a Polish letter. */
  predicate Kept(c: char) {
    IsPrintable(c) || c in PolishChars
  }

  /** None is None, another value is its `str()` unfiltered, a string keeps exactly its `Kept` characters in order. */
  function Sanitize(v: Wartosc): (r: Option<string>)
    ensures v.Brak? <==> r.None?
    ensures v.Inna? ==> r == Some(v.str)
    ensures v.Tekst? ==> r == Some(Seqs.Filter(v.s, Kept))
  {
    match v
    case Brak => None
    case Inna(str) => Some(str)
    case Tekst(s) => Some(Seqs.Filter(s, Kept))
  }

  /** The `for char in text: if ...: result += char` loop. */
  method SanitizeString(v: Wartosc) returns (r: Option<string>)
    ensures r == Sanitize(v)
  {
    match v {
      case Brak => return None;
      case Inna(str) => return Some(str);
      case Tekst(text) =>
        var result := "";
        var i := 0;
        while i < |text|
          invariant 0 <= i <= |text|
          invariant result == Seqs.Filter(text[..i], Kept)
        {
          assert text[..i + 1] == text[..i] + [text[i]];
          Seqs.FilterAppend(text[..i], text[i], Kept);
          if Kept(text[i]) {
            result := result + [text[i]];
          }
          i := i + 1;
        }
        assert text[..i] == text;
        return Some(result);
    }
  }

  /**
   * A cleaned string is a subsequence of the input (no longer, order kept),
   * holds only kept characters, and keeps every kept character of the input.
   */
  lemma SanitizeFilters(s: string)
    ensures Seqs.Subseq(Sanitize(Tekst(s)).value, s)
    ensures |Sanitize(Tekst(s)).value| <= |s|
    ensures forall c :: c in Sanitize(Tekst(s)).value <==> c in s && Kept(c)
  {
    Seqs.FilterIsSubseq(s, Kept);
    Seqs.FilterMembers(s, Kept);
  }

  /** Cleaning a cleaned string changes nothing. */
  lemma SanitizeIdempotent(s: string)
    ensures Sanitize(Tekst(Sanitize(Tekst(s)).value)) == Sanitize(Tekst(s))
  {
    Seqs.FilterIdempotent(s, Kept);
  }

  /** Every Polish letter of the list is printable, so the second test of the loop never decides alone. */
  lemma PolishCharsPrintable(c: char)
    requires c in PolishChars
    ensures IsPrintable(c) && (Kept(c) <==> IsPrintable(c))
  {
  }

  // ---------------------------------------------------------------- the Nauczyciel dataclass

  /**
   * `Nauczyciel`. The id, display name, page link and group id are set once
   * by the parser; the details are the fields `fetch_and_parse_nauczyciel`
   * assigns.
   */
  class Nauczyciel {
    const nauczycielId: Option<string>
    const nazwa: string
    const linkStronyNauczyciela: Option<string>
    const grupaId: Option<string>
    var imieNazwisko: Option<string>
    var email: Option<string>
    var instytut: Option<string>
    var linkPlanNauczyciela: Option<string>

    constructor (nauczycielId: Option<string>, nazwa: string, linkStronyNauczyciela: Option<string>, grupaId: Option<string>)
      ensures this.nauczycielId == nauczycielId && this.nazwa == nazwa
      ensures this.linkStronyNauczyciela == linkStronyNauczyciela && this.grupaId == grupaId
      ensures imieNazwisko.None? && email.None? && instytut.None? && linkPlanNauczyciela.None?
    {
      this.nauczycielId := nauczycielId;
      this.nazwa := nazwa;
      this.linkStronyNauczyciela := linkStronyNauczyciela;
      this.grupaId := grupaId;
      imieNazwisko := None;
      email := None;
      instytut := None;
      linkPlanNauczyciela := None;
    }
  }

  function IdOf(n: Nauczyciel): Option<string> {
    n.nauczycielId
  }

  /** The object built for a kept link carries that link's name, URL and id, and the group id as passed. */
  predicate Describes(n: Nauczyciel, l: TeacherLink, grupaId: Option<string>) {
    n.nauczycielId == l.id && n.nazwa == l.nazwa && n.linkStronyNauczyciela == Some(l.url) && n.grupaId == grupaId
  }

  /** The objects describe the links one by one. */
  predicate AllDescribe(ns: seq<Nauczyciel>, ls: seq<TeacherLink>, grupaId: Option<string>) {
    |ns| == |ls| && forall k :: 0 <= k < |ns| ==> Describes(ns[k], ls[k], grupaId)
  }

  lemma AllDescribeSnoc(ns: seq<Nauczyciel>, ls: seq<TeacherLink>, n: Nauczyciel, l: TeacherLink, grupaId: Option<string>)
    requires AllDescribe(ns, ls, grupaId) && Describes(n, l, grupaId)
    ensures AllDescribe(ns + [n], ls + [l], grupaId)
  {
  }

  // ---------------------------------------------------------------- parse_nauczyciele_from_group_page

  /** The loop with the `znalezieni_nauczyciele` set of URLs: a new object for the first link of each URL. */
  method ParseNauczycieleFromGroupPage(anchors: seq<Labels.Anchor>, grupaId: Option<string>) returns (wynik: seq<Nauczyciel>)
    ensures |wynik| == |TeacherLinks(anchors)|
    ensures forall k :: 0 <= k < |wynik| ==> Describes(wynik[k], TeacherLinks(anchors)[k], grupaId)
    ensures forall k :: 0 <= k < |wynik| ==> fresh(wynik[k])
  {
    var links := Links(anchors);
    wynik := ObjectsOfNewUrls(links, grupaId);
  }

  /** The loop itself, over the name, URL and id derived from each found anchor. */
  method ObjectsOfNewUrls(links: seq<TeacherLink>, grupaId: Option<string>) returns (wynik: seq<Nauczyciel>)
    ensures |wynik| == |Seqs.Dedup(links, UrlOf)|
    ensures forall k :: 0 <= k < |wynik| ==> Describes(wynik[k], Seqs.Dedup(links, UrlOf)[k], grupaId)
    ensures forall k :: 0 <= k < |wynik| ==> fresh(wynik[k])
  {
    ghost var target := Seqs.Dedup(links, UrlOf);
    ghost var done: seq<TeacherLink> := [];
    var seen: set<string> := {};
    wynik := [];
    var i := 0;
    while i < |links|
      invariant 0 <= i <= |links|
      invariant done + Seqs.DedupFrom(links[i..], UrlOf, seen) == target
      invariant AllDescribe(wynik, done, grupaId)
      invariant forall k :: 0 <= k < |wynik| ==> fresh(wynik[k])
    {
      var l := links[i];
      Seqs.DedupLoopStep(links, i, UrlOf, seen, done, target);
      if l.url !in seen {
        seen := seen + {l.url};
        var n := new Nauczyciel(l.id, l.nazwa, Some(l.url), grupaId);
        AllDescribeSnoc(wynik, done, n, l, grupaId);
        wynik := wynik + [n];
        done := done + [l];
      }
      i := i + 1;
    }
    assert links[i..] == [];
    assert done == target;
  }

  // ---------------------------------------------------------------- the call as written

  /** The keyword arguments of the `Nauczyciel` dataclass of `scraper/models.py`, and `grupa_id`, which it lacks. */
  datatype Pole = NauczycielIdPole | NazwaPole | ImieNazwiskoPole | EmailPole | InstytutPole
    | LinkStronyPole | LinkPlanPole | GrupaIdPole

  /** The fields the dataclass declares. */
  const DataclassPola: set<Pole> :=
    {NauczycielIdPole, NazwaPole, ImieNazwiskoPole, EmailPole, InstytutPole, LinkStronyPole, LinkPlanPole}

  /** The keywords the parser passes when it builds an object. */
  const PrzekazanePola: set<Pole> := {NauczycielIdPole, NazwaPole, LinkStronyPole, GrupaIdPole}

  /** What a call of the parser as written ends in: its objects' links, or the `TypeError` of an unknown keyword. */
  datatype Wywolanie = Zwrocono(linki: seq<TeacherLink>) | TypeError

  /**
   * The parser against the dataclass as declared: the first kept link builds
   * an object with a keyword the dataclass does not accept, so any page with
   * a teacher link raises; only a page without one returns (no objects).
   */
  function ParseAsWritten(anchors: seq<Labels.Anchor>): (r: Wywolanie)
    ensures r.TypeError? <==> |TeacherLinks(anchors)| > 0
    ensures r.Zwrocono? ==> r.linki == []
  {
    var links := Seqs.Filter(anchors, IsTeacherAnchor);
    TeacherLinksNonEmpty(anchors);
    if links == [] then Zwrocono([])
    else if PrzekazanePola <= DataclassPola then Zwrocono(TeacherLinks(anchors))
    else TypeError
  }

  /** Some link is kept exactly when some anchor passes the filter. */
  lemma TeacherLinksNonEmpty(anchors: seq<Labels.Anchor>)
    ensures |TeacherLinks(anchors)| > 0 <==> Seqs.Filter(anchors, IsTeacherAnchor) != []
  {
    if Links(anchors) != [] {
      Seqs.DedupKeepsFirst(Links(anchors), UrlOf, {}, 0);
    }
  }

  /** A page with one teacher link makes the parser as written raise. */
  lemma OneLinkRaises()
    ensures ParseAsWritten([Labels.Anchor("nauczyciel_plan.php?ID=1", "dr Jan Kowalski")]).TypeError?
  {
    var a := Labels.Anchor("nauczyciel_plan.php?ID=1", "dr Jan Kowalski");
    ContainsAt(a.href, PlanPage, 0);
    assert Seqs.Filter([a], IsTeacherAnchor) == [a];
  }

  // ---------------------------------------------------------------- parse_nauczyciel_details

  /** The keys of this parser's details dict. */
  datatype Klucz = ImieNazwisko | Instytut | Email | LinkPlanNauczyciela

  /** A key for each tag found: the name heading, the first `h3`, the first `mailto:` anchor, the first calendar anchor. */
  function ParseNauczycielDetails(p: TeacherPage): map<Klucz, string> {
    Found(NameOf(p), InstytutOf(p), EmailOf(p), IcsLinkOf(p))
  }

  /** The details hold a key exactly when its tag is on the page, with the value that tag gives. */
  lemma DetailsKeys(p: TeacherPage)
    ensures var d := ParseNauczycielDetails(p);
      && (ImieNazwisko in d <==> NameOf(p).Some?)
      && (ImieNazwisko in d ==> d[ImieNazwisko] == NameOf(p).value)
      && (Instytut in d <==> |p.h3s| > 0)
      && (Instytut in d ==> d[Instytut] == Strip(p.h3s[0]))
      && (Email in d <==> EmailOf(p).Some?)
      && (Email in d ==> d[Email] == EmailOf(p).value)
      && (LinkPlanNauczyciela in d <==> IcsLinkOf(p).Some?)
      && (LinkPlanNauczyciela in d ==> d[LinkPlanNauczyciela] == IcsLinkOf(p).value)
  {
  }

  function Found(name: Option<string>, instytut: Option<string>, email: Option<string>, ics: Option<string>): (d: map<Klucz, string>)
    ensures ImieNazwisko in d <==> name.Some?
    ensures ImieNazwisko in d ==> d[ImieNazwisko] == name.value
    ensures Instytut in d <==> instytut.Some?
    ensures Instytut in d ==> d[Instytut] == instytut.value
    ensures Email in d <==> email.Some?
    ensures Email in d ==> d[Email] == email.value
    ensures LinkPlanNauczyciela in d <==> ics.Some?
    ensures LinkPlanNauczyciela in d ==> d[LinkPlanNauczyciela] == ics.value
  {
    var d0: map<Klucz, string> := if name.Some? then map[ImieNazwisko := name.value] else map[];
    var d1 := if instytut.Some? then d0[Instytut := instytut.value] else d0;
    var d2 := if email.Some? then d1[Email := email.value] else d1;
    if ics.Some? then d2[LinkPlanNauczyciela := ics.value] else d2
  }

  // ---------------------------------------------------------------- nauczyciel_scraper

  /** The details value under `k`, or the field's current value when the key is absent. */
  function Updated(d: map<Klucz, string>, k: Klucz, current: Option<string>): Option<string> {
    if k in d then Some(d[k]) else current
  }

  /**
   * `fetch_and_parse_nauczyciel`: an empty page leaves the object as it is;
   * otherwise each of the four detail fields is overwritten exactly when its
   * key is in the details. The object itself is returned.
   */
  method FetchAndParseNauczyciel(n: Nauczyciel, teacherPage: string -> Option<TeacherPage>) returns (r: Nauczyciel)
    modifies n
    ensures r == n
    ensures var page := if n.linkStronyNauczyciela.Some? then teacherPage(n.linkStronyNauczyciela.value) else None;
      page.None? ==> unchanged(n)
    ensures var page := if n.linkStronyNauczyciela.Some? then teacherPage(n.linkStronyNauczyciela.value) else None;
      page.Some? ==>
        var d := ParseNauczycielDetails(page.value);
        && n.imieNazwisko == Updated(d, ImieNazwisko, old(n.imieNazwisko))
        && n.instytut == Updated(d, Instytut, old(n.instytut))
        && n.email == Updated(d, Email, old(n.email))
        && n.linkPlanNauczyciela == Updated(d, LinkPlanNauczyciela, old(n.linkPlanNauczyciela))
  {
    r := n;
    var html := if n.linkStronyNauczyciela.Some? then teacherPage(n.linkStronyNauczyciela.value) else None;
    if html.None? {
      return;
    }
    var szczegoly := ParseNauczycielDetails(html.value);
    Uzupelnij(n, szczegoly);
  }

  /** The four `if key in szczegoly` assignments. */
  method Uzupelnij(n: Nauczyciel, szczegoly: map<Klucz, string>)
    modifies n
    ensures n.imieNazwisko == Updated(szczegoly, ImieNazwisko, old(n.imieNazwisko))
    ensures n.instytut == Updated(szczegoly, Instytut, old(n.instytut))
    ensures n.email == Updated(szczegoly, Email, old(n.email))
    ensures n.linkPlanNauczyciela == Updated(szczegoly, LinkPlanNauczyciela, old(n.linkPlanNauczyciela))
  {
    if ImieNazwisko in szczegoly {
      n.imieNazwisko := Some(szczegoly[ImieNazwisko]);
    }
    if Instytut in szczegoly {
      n.instytut := Some(szczegoly[Instytut]);
    }
    if Email in szczegoly {
      n.email := Some(szczegoly[Email]);
    }
    if LinkPlanNauczyciela in szczegoly {
      n.linkPlanNauczyciela := Some(szczegoly[LinkPlanNauczyciela]);
    }
  }

  /** `pobierz_nauczycieli_z_grupy`: no teachers from an empty page, otherwise the page's teacher objects. */
  method PobierzNauczycieliZGrupy(linkGrupy: string, grupaId: Option<string>, groupPage: string -> Option<seq<Labels.Anchor>>)
    returns (wynik: seq<Nauczyciel>)
    ensures groupPage(linkGrupy).None? ==> wynik == []
    ensures groupPage(linkGrupy).Some? ==>
      && |wynik| == |TeacherLinks(groupPage(linkGrupy).value)|
      && forall k :: 0 <= k < |wynik| ==> Describes(wynik[k], TeacherLinks(groupPage(linkGrupy).value)[k], grupaId)
  {
    var html := groupPage(linkGrupy);
    if html.None? {
      return [];
    }
    wynik := ParseNauczycieleFromGroupPage(html.value, grupaId);
  }

  /**
   * The dedup loop of `scrape_nauczyciele_from_grupy`: the collected objects
   * whose details are requested, the first of each teacher id, in order.
   */
  method WybierzDoSzczegolow(linki: seq<Nauczyciel>) returns (zadania: seq<Nauczyciel>)
    ensures zadania == Seqs.Dedup(linki, IdOf)
  {
    var znalezione: set<Option<string>> := {};
    zadania := [];
    var i := 0;
    while i < |linki|
      invariant 0 <= i <= |linki|
      invariant zadania + Seqs.DedupFrom(linki[i..], IdOf, znalezione) == Seqs.Dedup(linki, IdOf)
    {
      Seqs.DedupLoopStep(linki, i, IdOf, znalezione, zadania, Seqs.Dedup(linki, IdOf));
      if linki[i].nauczycielId !in znalezione {
        znalezione := znalezione + {linki[i].nauczycielId};
        zadania := zadania + [linki[i]];
      }
      i := i + 1;
    }
    assert linki[i..] == [];
  }

  /**
   * Details are requested at most once per teacher id, for its first
   * collected object, and for every id that was collected.
   */
  lemma OneRequestPerId(linki: seq<Nauczyciel>)
    ensures forall i, j :: 0 <= i < j < |Seqs.Dedup(linki, IdOf)| ==>
      Seqs.Dedup(linki, IdOf)[i].nauczycielId != Seqs.Dedup(linki, IdOf)[j].nauczycielId
    ensures forall i :: 0 <= i < |linki| && (forall j :: 0 <= j < i ==> linki[j].nauczycielId != linki[i].nauczycielId) ==>
      linki[i] in Seqs.Dedup(linki, IdOf)
  {
    Seqs.DedupKeysDistinct(linki, IdOf, {});
    forall i | 0 <= i < |linki| && (forall j :: 0 <= j < i ==> linki[j].nauczycielId != linki[i].nauczycielId)
      ensures linki[i] in Seqs.Dedup(linki, IdOf)
    {
      Seqs.DedupKeepsFirst(linki, IdOf, {}, i);
    }
  }
}

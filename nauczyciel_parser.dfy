/**
 * `scraper/nauczyciel_parser.py`: the dict-based teacher scraper. Group pages
 * give teacher links (first occurrence of each URL), teacher pages give
 * details (the full name split into title, first name and surname), and the
 * details of each teacher id are fetched once, at its first occurrence.
 *
 * A dict is a `map` from keys to values; a value is a string or Python's
 * `None`. Fetching is a function from the URL to the parsed page, `None`
 * standing for the empty text `fetch_page` gives on a failed request.
 */
module NauczycielParser {
  import opened Wrappers
  import opened Text
  import Seqs
  import Labels
  import opened NauczycielStrona

  /** The keys the teacher dicts use (`"nazwa"`, `"link"`, `"nauczyciel_id"`, ...). */
  datatype Klucz =
    | Nazwa | Link | NauczycielId | GrupaId
    | PelneImie | Nazwisko | Imie | Tytul | Instytut | Email | LinkIcsNauczyciela

  type Dane = map<Klucz, Option<string>>

  /** Python truthiness of an optional string. */
  predicate Truthy(v: Option<string>) {
    v.Some? && v.value != ""
  }

  // ---------------------------------------------------------------- parse_nauczyciele_from_group_page

  /** The dict built for one kept link; `grupa_id` is attached only when it is truthy. */
  function LinkDict(l: TeacherLink, grupaId: Option<string>): Dane {
    var d := map[Nazwa := Some(l.nazwa), Link := Some(l.url), NauczycielId := l.id];
    if Truthy(grupaId) then d[GrupaId := grupaId] else d
  }

  /** The dict holds the link's name, URL and id, and the group id exactly when that is truthy. */
  lemma LinkDictFields(l: TeacherLink, grupaId: Option<string>)
    ensures var d := LinkDict(l, grupaId);
      && Nazwa in d && Link in d && NauczycielId in d
      && d[Nazwa] == Some(l.nazwa) && d[Link] == Some(l.url) && d[NauczycielId] == l.id
      && (GrupaId in d <==> Truthy(grupaId))
      && (GrupaId in d ==> d[GrupaId] == grupaId)
      && d.Keys <= {Nazwa, Link, NauczycielId, GrupaId}
  {
  }

  /** The dicts of some links, one per link, in order. */
  function LinkDicts(ls: seq<TeacherLink>, grupaId: Option<string>): seq<Dane> {
    if ls == [] then [] else LinkDicts(ls[..|ls| - 1], grupaId) + [LinkDict(ls[|ls| - 1], grupaId)]
  }

  /** One dict per link, in the links' order. */
  lemma {:induction false} LinkDictsShape(ls: seq<TeacherLink>, grupaId: Option<string>)
    ensures |LinkDicts(ls, grupaId)| == |ls|
    ensures forall k :: 0 <= k < |ls| ==> LinkDicts(ls, grupaId)[k] == LinkDict(ls[k], grupaId)
  {
    if ls != [] {
      LinkDictsShape(ls[..|ls| - 1], grupaId);
    }
  }

  lemma LinkDictsSnoc(ls: seq<TeacherLink>, l: TeacherLink, grupaId: Option<string>)
    ensures LinkDicts(ls + [l], grupaId) == LinkDicts(ls, grupaId) + [LinkDict(l, grupaId)]
  {
    assert (ls + [l])[..|ls|] == ls;
  }

  /** The records of a group page: one per kept link, in page order. */
  function LinkRecords(anchors: seq<Labels.Anchor>, grupaId: Option<string>): seq<Dane> {
    LinkDicts(TeacherLinks(anchors), grupaId)
  }

  /** The loop over the found links with the `znalezieni_nauczyciele` set of URLs. */
  method ParseNauczycieleFromGroupPage(anchors: seq<Labels.Anchor>, grupaId: Option<string>) returns (wynik: seq<Dane>)
    ensures wynik == LinkRecords(anchors, grupaId)
  {
    var links := Seqs.Filter(anchors, IsTeacherAnchor);
    wynik := DictsOfNewUrls(links, Links(anchors), grupaId);
  }

  /** The loop itself, over the found anchors `links` whose derived links are `all`. */
  method DictsOfNewUrls(links: seq<Labels.Anchor>, ghost all: seq<TeacherLink>, grupaId: Option<string>) returns (wynik: seq<Dane>)
    requires |all| == |links| && forall k :: 0 <= k < |links| ==> all[k] == LinkOf(links[k])
    ensures wynik == LinkDicts(Seqs.Dedup(all, UrlOf), grupaId)
  {
    ghost var done: seq<TeacherLink> := [];
    var seen: set<string> := {};
    wynik := [];
    var i := 0;
    while i < |links|
      invariant 0 <= i <= |links|
      invariant done + Seqs.DedupFrom(all[i..], UrlOf, seen) == Seqs.Dedup(all, UrlOf)
      invariant wynik == LinkDicts(done, grupaId)
    {
      var l := LinkOf(links[i]);
      Seqs.DedupLoopStep(all, i, UrlOf, seen, done, Seqs.Dedup(all, UrlOf));
      if l.url !in seen {
        seen := seen + {l.url};
        LinkDictsSnoc(done, l, grupaId);
        wynik := wynik + [LinkDict(l, grupaId)];
        done := done + [l];
      }
      i := i + 1;
    }
    assert all[i..] == [];
    assert done == Seqs.Dedup(all, UrlOf);
  }

  /** Every record of a group page carries the keys the later steps read. */
  lemma LinkRecordsKeyed(anchors: seq<Labels.Anchor>, grupaId: Option<string>)
    ensures forall d: Dane :: d in LinkRecords(anchors, grupaId) ==> Link in d && NauczycielId in d && d[NauczycielId].Some?
  {
    TeacherLinksHaveIds(anchors);
    LinkDictsShape(TeacherLinks(anchors), grupaId);
    forall d: Dane | d in LinkRecords(anchors, grupaId) ensures Link in d && NauczycielId in d && d[NauczycielId].Some? {
      var k :| 0 <= k < |LinkRecords(anchors, grupaId)| && LinkRecords(anchors, grupaId)[k] == d;
      assert TeacherLinks(anchors)[k] in TeacherLinks(anchors);
      LinkDictFields(TeacherLinks(anchors)[k], grupaId);
    }
  }

  // ---------------------------------------------------------------- parse_nauczyciel_details

  /**
   * The name fields of a full name split into `parts` (its `split()`): the
   * last word as `nazwisko`; with exactly two words the first is `imie`;
   * with more the second to last is `imie` and the rest, space-joined, is
   * `tytul`; with one word there is only `pelne_imie`.
   */
  function NameFields(pelne: string, parts: seq<string>): (d: map<Klucz, string>)
    ensures PelneImie in d && d[PelneImie] == pelne
    ensures Nazwisko in d <==> |parts| >= 2
    ensures Imie in d <==> |parts| >= 2
    ensures Tytul in d <==> |parts| > 2
    ensures d.Keys <= {PelneImie, Nazwisko, Imie, Tytul}
    ensures |parts| >= 2 ==> d[Nazwisko] == parts[|parts| - 1]
    ensures |parts| == 2 ==> d[Imie] == parts[0]
    ensures |parts| > 2 ==> d[Imie] == parts[|parts| - 2]
  {
    var d := map[PelneImie := pelne];
    if |parts| >= 2 then
      var d := d[Nazwisko := parts[|parts| - 1]];
      if |parts| > 2 then d[Tytul := Join(parts[..|parts| - 2], " ")][Imie := parts[|parts| - 2]]
      else d[Imie := parts[0]]
    else d
  }

  /**
   * The split loses nothing but spacing: title, first name and surname joined
   * with single spaces give the words joined the same way.
   */
  lemma NameFieldsRejoin(pelne: string, parts: seq<string>)
    requires |parts| >= 2
    ensures var d := NameFields(pelne, parts);
      (if Tytul in d then d[Tytul] + " " else "") + d[Imie] + " " + d[Nazwisko] == Join(parts, " ")
  {
    if |parts| > 2 {
      JoinLastTwo(parts);
    } else {
      assert parts[1..] == [parts[1]];
    }
  }

  lemma JoinLastTwo(parts: seq<string>)
    requires |parts| > 2
    ensures Join(parts[..|parts| - 2], " ") + " " + parts[|parts| - 2] + " " + parts[|parts| - 1] == Join(parts, " ")
  {
    var n := |parts|;
    var head, imie, nazwisko := parts[..n - 2], parts[n - 2], parts[n - 1];
    var init := head + [imie];
    JoinSnoc(head, imie, " ");
    JoinSnoc(init, nazwisko, " ");
    Seqs.SplitLastTwo(parts);
  }

  /** For the words of a real name, first name and surname are single non-empty words. */
  lemma NameFieldsWords(pelne: string)
    requires |Words(pelne)| >= 2
    ensures var d := NameFields(pelne, Words(pelne));
      d[Imie] != "" && NoSpace(d[Imie]) && d[Nazwisko] != "" && NoSpace(d[Nazwisko])
  {
    WordsUnspaced(pelne);
  }

  /** The keys `parse_nauczyciel_details` can produce. */
  const DetailKeys: set<Klucz> := {PelneImie, Nazwisko, Imie, Tytul, Instytut, Email, LinkIcsNauczyciela}

  const NameKeys: set<Klucz> := {PelneImie, Nazwisko, Imie, Tytul}

  /**
   * The details dict from what the searches found: the name fields, then a
   * key for each of the other tags that was found, and no other key.
   */
  function Details(names: map<Klucz, string>, instytut: Option<string>, email: Option<string>, ics: Option<string>): (d: map<Klucz, string>)
    requires names.Keys <= NameKeys
    ensures d.Keys <= DetailKeys
    ensures forall k :: k in NameKeys ==> (k in d <==> k in names)
    ensures forall k :: k in names ==> d[k] == names[k]
    ensures Instytut in d <==> instytut.Some?
    ensures Instytut in d ==> d[Instytut] == instytut.value
    ensures Email in d <==> email.Some?
    ensures Email in d ==> d[Email] == email.value
    ensures LinkIcsNauczyciela in d <==> ics.Some?
    ensures LinkIcsNauczyciela in d ==> d[LinkIcsNauczyciela] == ics.value
  {
    var d1 := if instytut.Some? then names[Instytut := instytut.value] else names;
    var d2 := if email.Some? then d1[Email := email.value] else d1;
    if ics.Some? then d2[LinkIcsNauczyciela := ics.value] else d2
  }

  /** The name fields of the page's name, none when it has no name heading. */
  function NameFieldsOf(p: TeacherPage): (d: map<Klucz, string>)
    ensures d.Keys <= NameKeys
    ensures PelneImie in d <==> NameOf(p).Some?
    ensures NameOf(p).Some? ==> d == NameFields(NameOf(p).value, Words(NameOf(p).value))
  {
    match NameOf(p)
    case None => map[]
    case Some(name) => NameFields(name, Words(name))
  }

  /** `parse_nauczyciel_details`. */
  function ParseNauczycielDetails(p: TeacherPage): map<Klucz, string> {
    Details(NameFieldsOf(p), InstytutOf(p), EmailOf(p), IcsLinkOf(p))
  }

  // ---------------------------------------------------------------- fetch_and_parse_nauczyciel

  /** `{**a, **b}`: every key of either dict, with `b`'s value where both have one. */
  function Merge(a: Dane, b: map<Klucz, string>): (r: Dane)
    ensures r.Keys == a.Keys + b.Keys
    ensures forall k :: k in b ==> r[k] == Some(b[k])
    ensures forall k :: k in a && k !in b ==> r[k] == a[k]
  {
    a + map k | k in b :: Some(b[k])
  }

  /** The page behind the record's `link` (a `None` link fetches nothing). */
  function PageOf(data: Dane, teacherPage: string -> Option<TeacherPage>): Option<TeacherPage>
    requires Link in data
  {
    if data[Link].Some? then teacherPage(data[Link].value) else None
  }

  /** The record alone when the page is empty, otherwise the record merged with the page's details. */
  function FetchAndParseNauczyciel(data: Dane, teacherPage: string -> Option<TeacherPage>): Dane
    requires Link in data
  {
    match PageOf(data, teacherPage)
    case None => data
    case Some(page) => Merge(data, ParseNauczycielDetails(page))
  }

  /**
   * An empty page leaves the record as it is. Otherwise the record keeps all
   * its keys, gains only detail keys, takes every detail's value, and keeps
   * its own value under every key that is not a detail key (`nazwa`, `link`,
   * `nauczyciel_id`, `grupa_id`).
   */
  lemma FetchAndParseKeeps(data: Dane, teacherPage: string -> Option<TeacherPage>)
    requires Link in data
    ensures PageOf(data, teacherPage).None? ==> FetchAndParseNauczyciel(data, teacherPage) == data
    ensures var r := FetchAndParseNauczyciel(data, teacherPage);
      && data.Keys <= r.Keys && r.Keys <= data.Keys + DetailKeys
      && (forall k :: k in data && k !in DetailKeys ==> r[k] == data[k])
    ensures PageOf(data, teacherPage).Some? ==>
      var det := ParseNauczycielDetails(PageOf(data, teacherPage).value);
      forall k :: k in det ==> FetchAndParseNauczyciel(data, teacherPage)[k] == Some(det[k])
  {
  }

  // ---------------------------------------------------------------- scrape_nauczyciele_from_grupy

  /**
   * A group dict as the group scrapers build it: its code, its plan page link
   * under `link_grupy`, and the two keys its id is taken from.
   */
  datatype GrupaWpis = GrupaWpis(kodGrupy: string, linkGrupy: string, grupaId: Option<string>, id: Option<string>)

  /** `grupa.get('grupa_id') or grupa.get('id')`. */
  function GrupaIdOf(g: GrupaWpis): (r: Option<string>)
    ensures Truthy(g.grupaId) ==> r == g.grupaId
    ensures !Truthy(g.grupaId) ==> r == g.id
  {
    if Truthy(g.grupaId) then g.grupaId else g.id
  }

  /** The teacher records of one group, nothing when its page is empty. */
  function GroupRecords(g: GrupaWpis, groupPage: string -> Option<seq<Labels.Anchor>>): seq<Dane> {
    match groupPage(g.linkGrupy)
    case None => []
    case Some(anchors) => LinkRecords(anchors, GrupaIdOf(g))
  }

  /** `wszystkie_linki_nauczycieli` after the first loop: the groups' records one group after another. */
  function AllRecords(grupy: seq<GrupaWpis>, groupPage: string -> Option<seq<Labels.Anchor>>): seq<Dane> {
    if grupy == [] then []
    else AllRecords(grupy[..|grupy| - 1], groupPage) + GroupRecords(grupy[|grupy| - 1], groupPage)
  }

  lemma {:induction false} AllRecordsKeyed(grupy: seq<GrupaWpis>, groupPage: string -> Option<seq<Labels.Anchor>>)
    ensures forall d: Dane :: d in AllRecords(grupy, groupPage) ==> Link in d && NauczycielId in d && d[NauczycielId].Some?
  {
    if grupy != [] {
      AllRecordsKeyed(grupy[..|grupy| - 1], groupPage);
      var g := grupy[|grupy| - 1];
      if groupPage(g.linkGrupy).Some? {
        LinkRecordsKeyed(groupPage(g.linkGrupy).value, GrupaIdOf(g));
      }
    }
  }

  /** `n[NauczycielId]`; every record of `AllRecords` has the key (`AllRecordsKeyed`), so the default is never used. */
  function IdKey(d: Dane): Option<string> {
    if NauczycielId in d then d[NauczycielId] else None
  }

  predicate Keyed(all: seq<Dane>) {
    forall d: Dane :: d in all ==> Link in d
  }

  /** Each record with its details, in order. */
  function FetchAll(ds: seq<Dane>, teacherPage: string -> Option<TeacherPage>): (r: seq<Dane>)
    requires Keyed(ds)
    ensures |r| == |ds|
    ensures forall k :: 0 <= k < |ds| ==> r[k] == FetchAndParseNauczyciel(ds[k], teacherPage)
  {
    if ds == [] then []
    else
      assert ds[|ds| - 1] in ds;
      FetchAll(ds[..|ds| - 1], teacherPage) + [FetchAndParseNauczyciel(ds[|ds| - 1], teacherPage)]
  }

  /** The result: the first record of each teacher id, in order, each with its details. */
  function Enriched(all: seq<Dane>, teacherPage: string -> Option<TeacherPage>): (r: seq<Dane>)
    requires Keyed(all)
  {
    Seqs.DedupMembers(all, IdKey, {});
    FetchAll(Seqs.Dedup(all, IdKey), teacherPage)
  }

  function Scraped(grupy: seq<GrupaWpis>, groupPage: string -> Option<seq<Labels.Anchor>>,
                   teacherPage: string -> Option<TeacherPage>): seq<Dane>
  {
    AllRecordsKeyed(grupy, groupPage);
    Enriched(AllRecords(grupy, groupPage), teacherPage)
  }

  /** `scrape_nauczyciele_from_grupy`: its first loop collects the links, its second fetches details. */
  method ScrapeNauczycieleFromGrupy(grupy: seq<GrupaWpis>, groupPage: string -> Option<seq<Labels.Anchor>>,
                                    teacherPage: string -> Option<TeacherPage>) returns (wszyscy: seq<Dane>)
    ensures wszyscy == Scraped(grupy, groupPage, teacherPage)
  {
    var linki := CollectLinks(grupy, groupPage);
    AllRecordsKeyed(grupy, groupPage);
    wszyscy := FetchDetailsOnce(linki, teacherPage);
  }

  /** The first loop: every group's teacher records, one group after another; an empty page adds nothing. */
  method CollectLinks(grupy: seq<GrupaWpis>, groupPage: string -> Option<seq<Labels.Anchor>>) returns (linki: seq<Dane>)
    ensures linki == AllRecords(grupy, groupPage)
  {
    linki := [];
    var i := 0;
    while i < |grupy|
      invariant 0 <= i <= |grupy|
      invariant linki == AllRecords(grupy[..i], groupPage)
    {
      assert grupy[..i + 1][..i] == grupy[..i];
      var html := groupPage(grupy[i].linkGrupy);
      if html.Some? {
        var nauczyciele := ParseNauczycieleFromGroupPage(html.value, GrupaIdOf(grupy[i]));
        linki := linki + nauczyciele;
      }
      i := i + 1;
    }
    assert grupy[..i] == grupy;
  }

  // ---------------------------------------------------------------- scrape_nauczyciele_from_grupy as written

  /**
   * The keys of a group dict that the first loop reads, each `None` when the
   * dict lacks it. The group records the scrapers build carry `kod_grupy` and
   * `link_grupy`; none carries `link_strona_grupy`.
   */
  datatype GrupaSlownik = GrupaSlownik(
    kodGrupy: Option<string>, linkStronyGrupy: Option<string>, linkGrupy: Option<string>,
    grupaId: Option<string>, id: Option<string>)

  /** The exception of `grupa[...]` on a missing key, with that key. */
  datatype KeyError = KeyError(klucz: string)

  /** Both subscripts of the first loop, `grupa['kod_grupy']` and `grupa['link_strona_grupy']`, succeed. */
  predicate ReadableAsWritten(g: GrupaSlownik) {
    g.kodGrupy.Some? && g.linkStronyGrupy.Some?
  }

  /** The position of the first group dict a subscript fails on, at or after `from`. */
  function FirstUnreadable(grupy: seq<GrupaSlownik>, from: nat): (r: Option<nat>)
    ensures r.None? ==> forall i :: from <= i < |grupy| ==> ReadableAsWritten(grupy[i])
    ensures r.Some? ==>
      && from <= r.value < |grupy| && !ReadableAsWritten(grupy[r.value])
      && forall i :: from <= i < r.value ==> ReadableAsWritten(grupy[i])
    decreases |grupy| - from
  {
    if from >= |grupy| then None
    else if !ReadableAsWritten(grupy[from]) then Some(from)
    else FirstUnreadable(grupy, from + 1)
  }

  /** What the loop body reads of a dict both subscripts succeed on. */
  function ReadAsWritten(g: GrupaSlownik): GrupaWpis
    requires ReadableAsWritten(g)
  {
    GrupaWpis(g.kodGrupy.value, g.linkStronyGrupy.value, g.grupaId, g.id)
  }

  /**
   * `scrape_nauczyciele_from_grupy` as written: the first dict without
   * `kod_grupy` or `link_strona_grupy` raises `KeyError`, for the key read
   * first; otherwise the result is that of the two loops over the pages
   * at `link_strona_grupy`.
   */
  function ScrapeAsWritten(grupy: seq<GrupaSlownik>, groupPage: string -> Option<seq<Labels.Anchor>>,
                           teacherPage: string -> Option<TeacherPage>): (r: Result<seq<Dane>, KeyError>)
    ensures r.Failure? <==> exists i :: 0 <= i < |grupy| && !ReadableAsWritten(grupy[i])
    ensures r.Failure? ==> r.error.klucz == "kod_grupy" || r.error.klucz == "link_strona_grupy"
    ensures r.Success? ==>
      r.value == Scraped(seq(|grupy|, i requires 0 <= i < |grupy| && ReadableAsWritten(grupy[i]) => ReadAsWritten(grupy[i])), groupPage, teacherPage)
  {
    match FirstUnreadable(grupy, 0)
    case Some(i) => Failure(KeyError(if grupy[i].kodGrupy.None? then "kod_grupy" else "link_strona_grupy"))
    case None =>
      Success(Scraped(seq(|grupy|, i requires 0 <= i < |grupy| && ReadableAsWritten(grupy[i]) => ReadAsWritten(grupy[i])), groupPage, teacherPage))
  }

  /**
   * A group list the scrapers build, each dict with `kod_grupy` and
   * `link_grupy` but no `link_strona_grupy`, makes the function as written
   * raise at its first group, whatever the pages hold.
   */
  lemma BuiltGroupsRaise(grupy: seq<GrupaSlownik>, groupPage: string -> Option<seq<Labels.Anchor>>,
                         teacherPage: string -> Option<TeacherPage>)
    requires grupy != []
    requires forall i :: 0 <= i < |grupy| ==> grupy[i].kodGrupy.Some? && grupy[i].linkStronyGrupy.None?
    ensures ScrapeAsWritten(grupy, groupPage, teacherPage) == Failure(KeyError("link_strona_grupy"))
  {
    assert FirstUnreadable(grupy, 0) == Some(0);
  }

  /** One group record as the group scraper builds it raises instead of giving its teachers. */
  lemma OneBuiltGroupRaises(groupPage: string -> Option<seq<Labels.Anchor>>, teacherPage: string -> Option<TeacherPage>)
    ensures ScrapeAsWritten([GrupaSlownik(Some("23INF-SP"), None, Some("https://plan.uz.zgora.pl/grupy_plan.php?ID=1"), None, Some("1"))],
                            groupPage, teacherPage) == Failure(KeyError("link_strona_grupy"))
  {
    BuiltGroupsRaise([GrupaSlownik(Some("23INF-SP"), None, Some("https://plan.uz.zgora.pl/grupy_plan.php?ID=1"), None, Some("1"))],
                     groupPage, teacherPage);
  }

  /** The dicts the corrected function reads: `link_grupy` takes the place of `link_strona_grupy`. */
  function ReadCorrected(g: GrupaSlownik): Option<GrupaWpis> {
    if g.kodGrupy.Some? && g.linkGrupy.Some? then Some(GrupaWpis(g.kodGrupy.value, g.linkGrupy.value, g.grupaId, g.id)) else None
  }

  /**
   * Where a dict carries the same link under both keys, the function as
   * written and the corrected one read the same group.
   */
  lemma SameLinkSameGroup(g: GrupaSlownik)
    requires ReadableAsWritten(g) && g.linkGrupy == g.linkStronyGrupy
    ensures ReadCorrected(g) == Some(ReadAsWritten(g))
  {
  }

  /** The second loop: `znalezieni_nauczyciele` holds the ids whose details were already fetched. */
  method FetchDetailsOnce(linki: seq<Dane>, teacherPage: string -> Option<TeacherPage>) returns (wszyscy: seq<Dane>)
    requires Keyed(linki)
    ensures wszyscy == Enriched(linki, teacherPage)
  {
    ghost var done: seq<Dane> := [];
    var seen: set<Option<string>> := {};
    wszyscy := [];
    var k := 0;
    while k < |linki|
      invariant 0 <= k <= |linki|
      invariant done + Seqs.DedupFrom(linki[k..], IdKey, seen) == Seqs.Dedup(linki, IdKey)
      invariant Keyed(done)
      invariant wszyscy == FetchAll(done, teacherPage)
    {
      var n := linki[k];
      Seqs.DedupLoopStep(linki, k, IdKey, seen, done, Seqs.Dedup(linki, IdKey));
      if IdKey(n) !in seen {
        seen := seen + {IdKey(n)};
        wszyscy := wszyscy + [FetchAndParseNauczyciel(n, teacherPage)];
        assert (done + [n])[..|done|] == done;
        done := done + [n];
      }
      k := k + 1;
    }
    assert linki[k..] == [];
  }

  /**
   * Details are fetched at most once per teacher id: the scraped records
   * have pairwise different ids, and each is the enrichment of the first
   * collected record with that id.
   */
  lemma ScrapedOncePerId(all: seq<Dane>, teacherPage: string -> Option<TeacherPage>)
    requires Keyed(all)
    ensures forall i, j :: 0 <= i < j < |Enriched(all, teacherPage)| ==>
      IdKey(Enriched(all, teacherPage)[i]) != IdKey(Enriched(all, teacherPage)[j])
  {
    var firsts := Seqs.Dedup(all, IdKey);
    var r := Enriched(all, teacherPage);
    Seqs.DedupKeysDistinct(all, IdKey, {});
    Seqs.DedupMembers(all, IdKey, {});
    forall k | 0 <= k < |r| ensures IdKey(r[k]) == IdKey(firsts[k]) {
      assert firsts[k] in all;
      IdKeyKept(firsts[k], teacherPage);
    }
  }

  lemma IdKeyKept(data: Dane, teacherPage: string -> Option<TeacherPage>)
    requires Link in data
    ensures IdKey(FetchAndParseNauczyciel(data, teacherPage)) == IdKey(data)
  {
    FetchAndParseKeeps(data, teacherPage);
    assert NauczycielId !in DetailKeys;
  }

  /** The first collected record of each id is the one enriched, and nothing else is. */
  lemma ScrapedFirstOccurrence(all: seq<Dane>, teacherPage: string -> Option<TeacherPage>, i: nat)
    requires Keyed(all) && i < |all|
    requires forall j :: 0 <= j < i ==> IdKey(all[j]) != IdKey(all[i])
    ensures FetchAndParseNauczyciel(all[i], teacherPage) in Enriched(all, teacherPage)
  {
    var firsts := Seqs.Dedup(all, IdKey);
    Seqs.DedupKeepsFirst(all, IdKey, {}, i);
    var k :| 0 <= k < |firsts| && firsts[k] == all[i];
    assert Enriched(all, teacherPage)[k] == FetchAndParseNauczyciel(all[i], teacherPage);
  }
}

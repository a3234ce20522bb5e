/**
 * `scraper/scrapers/grupy_scraper.py`: `parse_grupy`, which reads the groups
 * of one course page, and the per-link record building of
 * `scrape_grupy_for_kierunki`, which walks the courses and asks each group's
 * own page for its details.
 *
 * A course page is the texts of its `h3` tags and the anchors the searches
 * select, as (href, text) pairs with "" for a missing href. Pages are given
 * as parameters from URL to content, None when the request fails. The
 * details of a group page come from `parsuj_html_grupa`, which the imported
 * module does not define: they are a parameter too, None when the request,
 * the parse or a key lookup raises.
 */
module GrupyLista {
  import opened Wrappers
  import opened Text
  import Labels
  import Seqs

  // ---------------------------------------------------------------- first-match scans over the h3 texts

  /** What one `h3` decides in a scan that tests `a` before `b` on the lower-cased text. */
  function Label(text: string, a: string, la: string, b: string, lb: string): Option<string> {
    if Contains(Lower(text), a) then Some(la)
    else if Contains(Lower(text), b) then Some(lb)
    else None
  }

  function LabelsOf(texts: seq<string>, a: string, la: string, b: string, lb: string): (r: seq<Option<string>>)
    ensures |r| == |texts|
  {
    seq(|texts|, i requires 0 <= i < |texts| => Label(texts[i], a, la, b, lb))
  }

  /** The label of the first `h3` that decides, or `dflt` when none does. */
  function FirstLabel(texts: seq<string>, a: string, la: string, b: string, lb: string, dflt: string): string {
    match Seqs.FirstSome(LabelsOf(texts, a, la, b, lb), 0)
    case None => dflt
    case Some(i) => LabelsOf(texts, a, la, b, lb)[i].value
  }

  /** The `for h3 in h3_tags` loop with `break` at the first `h3` that decides. */
  method ScanH3(texts: seq<string>, a: string, la: string, b: string, lb: string, dflt: string) returns (r: string)
    ensures r == FirstLabel(texts, a, la, b, lb, dflt)
  {
    r := dflt;
    var i := 0;
    while i < |texts|
      invariant 0 <= i <= |texts|
      invariant forall j :: 0 <= j < i ==> LabelsOf(texts, a, la, b, lb)[j].None?
    {
      var text := Lower(texts[i]);
      if Contains(text, a) {
        r := la;
        Seqs.FirstSomeLeast(LabelsOf(texts, a, la, b, lb), 0, i);
        return;
      } else if Contains(text, b) {
        r := lb;
        Seqs.FirstSomeLeast(LabelsOf(texts, a, la, b, lb), 0, i);
        return;
      }
      i := i + 1;
    }
  }

  /** `semestr`: "letni" is tried before "zimowy" in each `h3`. */
  function Semestr(h3s: seq<string>): string {
    FirstLabel(h3s, "semestr letni", "letni", "semestr zimowy", "zimowy", "nieznany")
  }

  /** `tryb_studiow` of `parse_grupy`: "stacjonarne" is tried before "niestacjonarne" in each `h3`. */
  function Tryb(h3s: seq<string>): string {
    FirstLabel(h3s, "stacjonarne", "stacjonarne", "niestacjonarne", "niestacjonarne", "nieznany")
  }

  predicate MentionsSemestr(text: string) {
    Contains(Lower(text), "semestr letni") || Contains(Lower(text), "semestr zimowy")
  }

  /**
   * The semester is "nieznany" exactly when no `h3` mentions either semester;
   * otherwise the first `h3` that mentions one decides, "letni" winning
   * when it mentions both.
   */
  lemma SemestrIsFirstMention(h3s: seq<string>)
    ensures Semestr(h3s) == "nieznany" <==> forall i :: 0 <= i < |h3s| ==> !MentionsSemestr(h3s[i])
    ensures Semestr(h3s) != "nieznany" ==> exists i :: (0 <= i < |h3s| && MentionsSemestr(h3s[i]) &&
      (forall j :: 0 <= j < i ==> !MentionsSemestr(h3s[j])) &&
      Semestr(h3s) == (if Contains(Lower(h3s[i]), "semestr letni") then "letni" else "zimowy"))
  {
    var ls := LabelsOf(h3s, "semestr letni", "letni", "semestr zimowy", "zimowy");
    match Seqs.FirstSome(ls, 0)
    case None =>
      forall i | 0 <= i < |h3s| ensures !MentionsSemestr(h3s[i]) {
        assert ls[i].None?;
      }
    case Some(i) =>
      assert MentionsSemestr(h3s[i]);
      forall j | 0 <= j < i ensures !MentionsSemestr(h3s[j]) {
        assert ls[j].None?;
      }
  }

  /** "stacjonarne" is part of "niestacjonarne". */
  lemma NiestacjonarneHoldsStacjonarne(s: string)
    requires Contains(s, "niestacjonarne")
    ensures Contains(s, "stacjonarne")
  {
    assert "niestacjonarne"[3..] == "stacjonarne";
    ContainsTail(s, "niestacjonarne", 3);
  }

  /**
   * Any `h3` holding "niestacjonarne" also holds "stacjonarne", which is tried
   * first: the mode is "stacjonarne" when some `h3` mentions it and "nieznany"
   * otherwise, never "niestacjonarne".
   */
  lemma TrybNeverNiestacjonarne(h3s: seq<string>)
    ensures Tryb(h3s) != "niestacjonarne"
    ensures Tryb(h3s) == "stacjonarne" <==> exists i :: 0 <= i < |h3s| && Contains(Lower(h3s[i]), "stacjonarne")
    ensures Tryb(h3s) == "nieznany" <==> forall i :: 0 <= i < |h3s| ==> !Contains(Lower(h3s[i]), "stacjonarne")
  {
    var ls := LabelsOf(h3s, "stacjonarne", "stacjonarne", "niestacjonarne", "niestacjonarne");
    match Seqs.FirstSome(ls, 0)
    case None =>
      forall i | 0 <= i < |h3s| ensures !Contains(Lower(h3s[i]), "stacjonarne") {
        assert ls[i].None?;
      }
    case Some(i) =>
      if !Contains(Lower(h3s[i]), "stacjonarne") {
        NiestacjonarneHoldsStacjonarne(Lower(h3s[i]));
      }
  }

  // ---------------------------------------------------------------- parse_grupy

  /** Everything `parse_grupy` reads from a course page. */
  datatype GrupyPage = GrupyPage(h3s: seq<string>, rows: seq<Labels.Anchor>)

  /** One record of `parse_grupy`. */
  datatype Grupa = Grupa(
    grupaId: string, kodGrupy: string, kierunekId: string, wydzial: string,
    trybStudiow: string, semestr: string, linkGrupy: string, linkIcsGrupy: string)

  /** `f"{BASE_URL}{link}"` unless the link already starts with `http`. */
  function FullLink(link: string): (r: string)
    ensures StartsWith(link, "http") ==> r == link
    ensures !StartsWith(link, "http") ==> r == Labels.BaseUrl + link
  {
    if StartsWith(link, "http") then link else Labels.BaseUrl + link
  }

  const IcsPage: string := "grupy_ics.php?ID="

  /** The calendar export of a group. */
  function IcsLink(grupaId: string): string {
    Labels.BaseUrl + IcsPage + grupaId + "&KIND=GG"
  }

  /** An all-digit id travels through the ICS link unchanged. */
  lemma IcsLinkId(grupaId: string)
    requires AllDigits(grupaId)
    ensures Labels.IdParam(IcsLink(grupaId)) == Some(grupaId)
  {
    var pre := Labels.BaseUrl + IcsPage;
    assert pre[|pre| - 3..] == "ID=";
    assert IcsLink(grupaId) == pre + grupaId + "&KIND=GG";
    Labels.IdParamOfDigits(pre, grupaId, "&KIND=GG");
  }

  /**
   * The record of one row: a row without an href or without text, or whose
   * href carries no or an empty `ID=` value, gives none.
   */
  function GrupaZWiersza(row: Labels.Anchor, semestr: string, tryb: string, wydzial: string, kierunekId: string): (r: Option<Grupa>)
    ensures r.Some? <==> row.href != "" && Strip(row.text) != "" && Labels.IdParam(row.href).Some? && Labels.IdParam(row.href).value != ""
    ensures r.Some? ==> r.value.grupaId == Labels.IdParam(row.href).value && r.value.kodGrupy == Strip(row.text)
    ensures r.Some? ==> r.value.linkGrupy == FullLink(row.href) && r.value.linkIcsGrupy == IcsLink(r.value.grupaId)
    ensures r.Some? ==> r.value.semestr == semestr && r.value.trybStudiow == tryb
    ensures r.Some? ==> r.value.wydzial == wydzial && r.value.kierunekId == kierunekId
  {
    var kodGrupy := Strip(row.text);
    if row.href == "" || kodGrupy == "" then None
    else match Labels.IdParam(row.href)
      case None => None
      case Some(id) =>
        if id == "" then None
        else Some(Grupa(id, kodGrupy, kierunekId, wydzial, tryb, semestr, FullLink(row.href), IcsLink(id)))
  }

  function GrupyZWierszy(rows: seq<Labels.Anchor>, semestr: string, tryb: string, wydzial: string, kierunekId: string): seq<Grupa> {
    Seqs.FilterMap(rows, (row: Labels.Anchor) => GrupaZWiersza(row, semestr, tryb, wydzial, kierunekId))
  }

  /** The records of a page's rows, all under the semester and the mode of its `h3` tags. */
  function RowsRecords(p: GrupyPage, wydzial: string, kierunekId: string): seq<Grupa> {
    GrupyZWierszy(p.rows, Semestr(p.h3s), Tryb(p.h3s), wydzial, kierunekId)
  }

  /** `parse_grupy`: the records of the page's rows, in order. The course name is not used. */
  method ParseGrupy(p: GrupyPage, nazwaKierunku: string, wydzial: string, kierunekId: string) returns (grupy: seq<Grupa>)
    ensures grupy == RowsRecords(p, wydzial, kierunekId)
  {
    grupy := [];
    var semestr := ScanH3(p.h3s, "semestr letni", "letni", "semestr zimowy", "zimowy", "nieznany");
    for i := 0 to |p.rows|
      invariant grupy == GrupyZWierszy(p.rows[..i], semestr, Tryb(p.h3s), wydzial, kierunekId)
    {
      assert p.rows[..i + 1][..i] == p.rows[..i];
      var grupa := ReadRow(p.rows[i], p.h3s, semestr, wydzial, kierunekId);
      if grupa.Some? {
        grupy := grupy + [grupa.value];
      }
    }
    assert p.rows[..|p.rows|] == p.rows;
  }

  /** The body of the row loop: the mode scan runs only for rows with an href and a text. */
  method ReadRow(row: Labels.Anchor, h3s: seq<string>, semestr: string, wydzial: string, kierunekId: string) returns (grupa: Option<Grupa>)
    ensures grupa == GrupaZWiersza(row, semestr, Tryb(h3s), wydzial, kierunekId)
  {
    var link := row.href;
    var kodGrupy := Strip(row.text);
    if link == "" || kodGrupy == "" {
      return None;
    }
    var trybStudiow := ScanH3(h3s, "stacjonarne", "stacjonarne", "niestacjonarne", "niestacjonarne", "nieznany");
    var fullLink := FullLink(link);
    var grupaId := Labels.IdParam(link);
    if grupaId.Some? && grupaId.value != "" {
      return Some(Grupa(grupaId.value, kodGrupy, kierunekId, wydzial, trybStudiow, semestr, fullLink, IcsLink(grupaId.value)));
    }
    return None;
  }

  /** What every record of a page satisfies. */
  predicate WellFormed(g: Grupa, h3s: seq<string>, wydzial: string, kierunekId: string) {
    && g.grupaId != "" && '&' !in g.grupaId && !Contains(g.grupaId, "ID=")
    && g.kodGrupy != "" && g.kodGrupy == Strip(g.kodGrupy)
    && g.linkIcsGrupy == IcsLink(g.grupaId)
    && g.semestr == Semestr(h3s) && g.trybStudiow == Tryb(h3s) && g.trybStudiow != "niestacjonarne"
    && g.wydzial == wydzial && g.kierunekId == kierunekId
  }

  /** Every record has a non-empty id free of `&`, a stripped code, its ICS link, and the page's semester and mode. */
  lemma RowsRecordsWellFormed(p: GrupyPage, wydzial: string, kierunekId: string)
    ensures forall k :: 0 <= k < |RowsRecords(p, wydzial, kierunekId)| ==> WellFormed(RowsRecords(p, wydzial, kierunekId)[k], p.h3s, wydzial, kierunekId)
  {
    var f := (row: Labels.Anchor) => GrupaZWiersza(row, Semestr(p.h3s), Tryb(p.h3s), wydzial, kierunekId);
    TrybNeverNiestacjonarne(p.h3s);
    forall row | row in p.rows && f(row).Some? ensures WellFormed(f(row).value, p.h3s, wydzial, kierunekId) {
      StripIdempotent(row.text);
    }
    Seqs.FilterMapAll(p.rows, f, (g: Grupa) => WellFormed(g, p.h3s, wydzial, kierunekId));
  }

  /** Every record comes from a row, whose href gives its id and its full link. */
  lemma RowsRecordsFrom(p: GrupyPage, wydzial: string, kierunekId: string, k: nat) returns (i: nat)
    requires k < |RowsRecords(p, wydzial, kierunekId)|
    ensures i < |p.rows| && GrupaZWiersza(p.rows[i], Semestr(p.h3s), Tryb(p.h3s), wydzial, kierunekId) == Some(RowsRecords(p, wydzial, kierunekId)[k])
    ensures Labels.IdParam(p.rows[i].href) == Some(RowsRecords(p, wydzial, kierunekId)[k].grupaId)
    ensures RowsRecords(p, wydzial, kierunekId)[k].linkGrupy == FullLink(p.rows[i].href)
  {
    i := Seqs.FilterMapFrom(p.rows, (row: Labels.Anchor) => GrupaZWiersza(row, Semestr(p.h3s), Tryb(p.h3s), wydzial, kierunekId), k);
  }

  /** A row with an href, a text and a non-empty id is among the records. */
  lemma RowsRecordsComplete(p: GrupyPage, wydzial: string, kierunekId: string, i: nat)
    requires i < |p.rows| && p.rows[i].href != "" && Strip(p.rows[i].text) != ""
    requires Labels.IdParam(p.rows[i].href).Some? && Labels.IdParam(p.rows[i].href).value != ""
    ensures GrupaZWiersza(p.rows[i], Semestr(p.h3s), Tryb(p.h3s), wydzial, kierunekId).value in RowsRecords(p, wydzial, kierunekId)
  {
    Seqs.FilterMapComplete(p.rows, (row: Labels.Anchor) => GrupaZWiersza(row, Semestr(p.h3s), Tryb(p.h3s), wydzial, kierunekId), i);
  }

  // ---------------------------------------------------------------- scrape_grupy_for_kierunki

  /** The keys of a course record that the walk reads. */
  datatype KierunekWpis = KierunekWpis(id: Option<string>, linkStronyKierunku: Option<string>)

  /** The details `parsuj_html_grupa` gives for a group page. */
  datatype GrupaInfo = GrupaInfo(kodGrupy: string, semestr: string, trybStudiow: string)

  /** One record of the walk; `semestr` is None in the fallback record, which has no such key. */
  datatype GrupaDane = GrupaDane(
    grupaId: string, kodGrupy: string, linkGrupy: string, kierunekId: Option<string>,
    semestr: Option<string>, trybStudiow: string, linkIcsGrupy: string)

  const GroupPlanPage: string := "grupy_plan.php?ID="

  /** The `find_all('a', href=...)` filter. */
  predicate IsGroupLink(a: Labels.Anchor) {
    Contains(a.href, GroupPlanPage)
  }

  /** The mode read from a (stripped) link text: "niestacjonarne" is tried before "stacjonarne". */
  function TrybZLinku(linkText: string): (r: string)
    ensures r == "niestacjonarne" <==> Contains(Lower(linkText), "niestacjonarne")
    ensures r == "stacjonarne" <==> Contains(Lower(linkText), "stacjonarne") && !Contains(Lower(linkText), "niestacjonarne")
    ensures r == "nieznany" <==> !Contains(Lower(linkText), "stacjonarne")
  {
    if Contains(Lower(linkText), "niestacjonarne") then
      NiestacjonarneHoldsStacjonarne(Lower(linkText));
      "niestacjonarne"
    else if Contains(Lower(linkText), "stacjonarne") then "stacjonarne"
    else "nieznany"
  }

  /**
   * The record of one group link: with the details of the group page when
   * they can be read, and otherwise the fallback with the link text as code
   * and no semester. The link-text mode wins unless it is "nieznany".
   */
  function GrupaZLinku(a: Labels.Anchor, kierunekId: Option<string>, details: string -> Option<GrupaInfo>): (r: Option<GrupaDane>)
    ensures r.Some? <==> Contains(a.href, "ID=")
    ensures r.Some? ==> && r.value.grupaId == Labels.IdParam(a.href).value
                        && r.value.linkGrupy == Labels.BaseUrl + a.href
                        && r.value.linkIcsGrupy == IcsLink(r.value.grupaId)
                        && r.value.kierunekId == kierunekId
    ensures r.Some? ==> (r.value.semestr.None? <==> details(Labels.BaseUrl + a.href).None?)
    ensures r.Some? && details(Labels.BaseUrl + a.href).None? ==>
      r.value.kodGrupy == Strip(a.text) && r.value.trybStudiow == TrybZLinku(Strip(a.text))
    ensures r.Some? && details(Labels.BaseUrl + a.href).Some? ==>
      && r.value.kodGrupy == details(Labels.BaseUrl + a.href).value.kodGrupy
      && r.value.semestr == Some(details(Labels.BaseUrl + a.href).value.semestr)
      && r.value.trybStudiow == (if TrybZLinku(Strip(a.text)) != "nieznany" then TrybZLinku(Strip(a.text))
                                 else details(Labels.BaseUrl + a.href).value.trybStudiow)
  {
    var linkText := Strip(a.text);
    var tryb := TrybZLinku(linkText);
    match Labels.IdParam(a.href)
    case None => None
    case Some(grupaId) =>
      var grupaUrl := Labels.BaseUrl + a.href;
      match details(grupaUrl)
      case Some(info) =>
        Some(GrupaDane(grupaId, info.kodGrupy, grupaUrl, kierunekId, Some(info.semestr),
          if tryb != "nieznany" then tryb else info.trybStudiow, IcsLink(grupaId)))
      case None =>
        Some(GrupaDane(grupaId, linkText, grupaUrl, kierunekId, None, tryb, IcsLink(grupaId)))
  }

  /** The filter asks for `grupy_plan.php?ID=`, so the `continue` for links without `ID=` is never taken. */
  lemma GroupLinkHasId(a: Labels.Anchor)
    requires IsGroupLink(a)
    ensures Contains(a.href, "ID=")
  {
    assert GroupPlanPage[15..] == "ID=";
    ContainsTail(a.href, GroupPlanPage, 15);
  }

  function GroupLinkRecord(a: Labels.Anchor, kierunekId: Option<string>, details: string -> Option<GrupaInfo>): Option<GrupaDane> {
    if IsGroupLink(a) then GrupaZLinku(a, kierunekId, details) else None
  }

  /** The records of one course page's group links, in order. */
  function GrupyZLinkow(anchors: seq<Labels.Anchor>, kierunekId: Option<string>, details: string -> Option<GrupaInfo>): seq<GrupaDane> {
    Seqs.FilterMap(anchors, (a: Labels.Anchor) => GroupLinkRecord(a, kierunekId, details))
  }

  predicate Truthy(s: Option<string>) {
    s.Some? && s.value != ""
  }

  /** The records of one course: none without a link or when its page cannot be fetched. */
  function GrupyKierunku(k: KierunekWpis, coursePage: string -> Option<seq<Labels.Anchor>>, details: string -> Option<GrupaInfo>): seq<GrupaDane> {
    if !Truthy(k.linkStronyKierunku) then []
    else match coursePage(k.linkStronyKierunku.value)
      case None => []
      case Some(anchors) => GrupyZLinkow(anchors, k.id, details)
  }

  function WszystkieGrupy(ks: seq<KierunekWpis>, coursePage: string -> Option<seq<Labels.Anchor>>, details: string -> Option<GrupaInfo>): seq<GrupaDane> {
    if ks == [] then []
    else WszystkieGrupy(ks[..|ks| - 1], coursePage, details) + GrupyKierunku(ks[|ks| - 1], coursePage, details)
  }

  /** The inner loop over the group links of one course page. */
  method ReadGroupLinks(anchors: seq<Labels.Anchor>, kierunekId: Option<string>, details: string -> Option<GrupaInfo>) returns (grupy: seq<GrupaDane>)
    ensures grupy == GrupyZLinkow(anchors, kierunekId, details)
  {
    grupy := [];
    for i := 0 to |anchors|
      invariant grupy == GrupyZLinkow(anchors[..i], kierunekId, details)
    {
      assert anchors[..i + 1][..i] == anchors[..i];
      var link := anchors[i];
      if !IsGroupLink(link) {
        continue;
      }
      var href := link.href;
      var linkText := Strip(link.text);
      var trybStudiow := "nieznany";
      if Contains(Lower(linkText), "niestacjonarne") {
        trybStudiow := "niestacjonarne";
      } else if Contains(Lower(linkText), "stacjonarne") {
        trybStudiow := "stacjonarne";
      }
      if !Contains(href, "ID=") {
        continue;
      }
      var grupaId := Labels.IdParam(href).value;
      var grupaUrl := Labels.BaseUrl + href;
      var info := details(grupaUrl);
      if info.Some? {
        grupy := grupy + [GrupaDane(grupaId, info.value.kodGrupy, grupaUrl, kierunekId, Some(info.value.semestr),
          if trybStudiow != "nieznany" then trybStudiow else info.value.trybStudiow, IcsLink(grupaId))];
      } else {
        grupy := grupy + [GrupaDane(grupaId, linkText, grupaUrl, kierunekId, None, trybStudiow, IcsLink(grupaId))];
      }
    }
    assert anchors[..|anchors|] == anchors;
  }

  /** `scrape_grupy_for_kierunki`: the records of every course in order; courses without a link are skipped. */
  method ScrapeGrupyForKierunki(kierunki: seq<KierunekWpis>, coursePage: string -> Option<seq<Labels.Anchor>>, details: string -> Option<GrupaInfo>)
    returns (wszystkieGrupy: seq<GrupaDane>)
    ensures wszystkieGrupy == WszystkieGrupy(kierunki, coursePage, details)
  {
    wszystkieGrupy := [];
    for i := 0 to |kierunki|
      invariant wszystkieGrupy == WszystkieGrupy(kierunki[..i], coursePage, details)
    {
      assert kierunki[..i + 1][..i] == kierunki[..i];
      var linkKierunku := kierunki[i].linkStronyKierunku;
      if !Truthy(linkKierunku) {
        continue;
      }
      var page := coursePage(linkKierunku.value);
      if page.Some? {
        var found := ReadGroupLinks(page.value, kierunki[i].id, details);
        wszystkieGrupy := wszystkieGrupy + found;
      }
    }
    assert kierunki[..|kierunki|] == kierunki;
  }

  /**
   * Every record of the walk comes from a group link on the fetched page of a
   * course that has a link, and carries that course's id.
   */
  lemma {:induction false} WszystkieGrupyFrom(ks: seq<KierunekWpis>, coursePage: string -> Option<seq<Labels.Anchor>>, details: string -> Option<GrupaInfo>, k: nat)
    returns (c: nat, i: nat)
    requires k < |WszystkieGrupy(ks, coursePage, details)|
    ensures c < |ks| && Truthy(ks[c].linkStronyKierunku) && coursePage(ks[c].linkStronyKierunku.value).Some?
    ensures i < |coursePage(ks[c].linkStronyKierunku.value).value|
    ensures IsGroupLink(coursePage(ks[c].linkStronyKierunku.value).value[i])
    ensures GrupaZLinku(coursePage(ks[c].linkStronyKierunku.value).value[i], ks[c].id, details) == Some(WszystkieGrupy(ks, coursePage, details)[k])
    ensures WszystkieGrupy(ks, coursePage, details)[k].kierunekId == ks[c].id
  {
    var n := |ks| - 1;
    var before := WszystkieGrupy(ks[..n], coursePage, details);
    if k < |before| {
      c, i := WszystkieGrupyFrom(ks[..n], coursePage, details, k);
      assert ks[..n][c] == ks[c];
    } else {
      c := n;
      var anchors := coursePage(ks[n].linkStronyKierunku.value).value;
      i := Seqs.FilterMapFrom(anchors, (a: Labels.Anchor) => GroupLinkRecord(a, ks[n].id, details), k - |before|);
    }
  }

  /** Every group link of a fetched course page gives a record of that course. */
  lemma GrupyZLinkowComplete(anchors: seq<Labels.Anchor>, kierunekId: Option<string>, details: string -> Option<GrupaInfo>, i: nat)
    requires i < |anchors| && IsGroupLink(anchors[i])
    ensures GrupaZLinku(anchors[i], kierunekId, details).Some?
    ensures GrupaZLinku(anchors[i], kierunekId, details).value in GrupyZLinkow(anchors, kierunekId, details)
  {
    GroupLinkHasId(anchors[i]);
    Seqs.FilterMapComplete(anchors, (a: Labels.Anchor) => GroupLinkRecord(a, kierunekId, details), i);
  }
}

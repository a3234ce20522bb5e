/**
 * `scraper/scrapers/kierunki_scraper.py`: the course list walker. The items
 * of the list are read in order; a department header sets the current
 * department, and a course item is emitted under the current department,
 * when there is one.
 *
 * An item is what the loop reads from an `li`: its text (`get_text(strip=True)`),
 * whether it has an `<a>` child of its own, its direct text nodes, and its
 * first `<a>` at any depth.
 */
module KierunkiLista {
  import opened Wrappers
  import opened Text
  import Labels

  datatype Pozycja = Pozycja(text: string, directAnchor: bool, textNodes: seq<string>, anchor: Option<Labels.Anchor>)

  /** `Kierunek` of `scraper/models.py`. */
  datatype Kierunek = Kierunek(kierunekId: string, nazwa: string, wydzial: string, link: string)

  /** Python truthiness of the `wydzial` variable. */
  predicate Truthy(w: Option<string>) {
    w.Some? && w.value != ""
  }

  /** A department header: the text mentions "Wydział" or "Szkoły" and the item has no `<a>` child of its own. */
  predicate IsHeader(p: Pozycja) {
    (Contains(p.text, "Wydział") || Contains(p.text, "Szkoły")) && !p.directAnchor
  }

  /** The department a header names: its first direct text node stripped, else the first word of its text. */
  function HeaderName(p: Pozycja): string {
    if p.textNodes != [] then Strip(p.textNodes[0]) else FirstWord(p.text)
  }

  /** `s.split()[0]` when `s` has a word: the non-whitespace run after the leading whitespace. */
  function FirstWord(s: string): string {
    WordPrefix(TrimStart(s))
  }

  /** A header's text has a first word, and the name is the first text node stripped or that word. */
  lemma HeaderNameIs(p: Pozycja)
    requires IsHeader(p)
    ensures p.textNodes != [] ==> HeaderName(p) == Strip(p.textNodes[0])
    ensures p.textNodes == [] ==> Words(p.text) != [] && HeaderName(p) == Words(p.text)[0]
  {
    HeaderHasWord(p.text);
  }

  /** A text mentioning "Wydział" or "Szkoły" has a first word, so `split()[0]` cannot fail. */
  lemma HeaderHasWord(s: string)
    requires Contains(s, "Wydział") || Contains(s, "Szkoły")
    ensures Words(s) != []
  {
    var t := if Contains(s, "Wydział") then "Wydział" else "Szkoły";
    ContainsIff(s, t);
    var i: nat :| OccursAt(s, t, i);
    assert s[i] == s[i..i + |t|][0];
    assert !IsSpace(s[i]);
    assert TrimStart(s) != [];
  }

  /** The department an item sets, if it is a header. */
  function HeaderOf(p: Pozycja): (r: Option<string>)
    ensures r.Some? <==> IsHeader(p)
    ensures r.Some? ==> r.value == HeaderName(p)
  {
    if IsHeader(p) then Some(HeaderName(p)) else None
  }

  /**
   * The course a non-header item with an anchor gives under a truthy
   * department: with the anchor's stripped text as name, `BASE_URL + href` as
   * link, the `ID=` parameter of the link as id; none for a
   * "Studia podyplomowe" name or a missing or empty id.
   */
  function CourseAt(p: Pozycja, w: Option<string>): (r: Option<Kierunek>)
    ensures r.Some? <==>
      && !IsHeader(p) && p.anchor.Some? && Truthy(w)
      && !Contains(Strip(p.anchor.value.text), "Studia podyplomowe")
      && Labels.IdParam(Labels.BaseUrl + p.anchor.value.href).Some?
      && Labels.IdParam(Labels.BaseUrl + p.anchor.value.href).value != ""
    ensures r.Some? ==>
      && r.value.wydzial == w.value
      && r.value.nazwa == Strip(p.anchor.value.text)
      && r.value.link == Labels.BaseUrl + p.anchor.value.href
      && r.value.kierunekId == Labels.IdParam(r.value.link).value
      && r.value.kierunekId != "" && '&' !in r.value.kierunekId
  {
    if IsHeader(p) || p.anchor.None? || !Truthy(w) then None
    else
      var nazwa := Strip(p.anchor.value.text);
      var link := Labels.BaseUrl + p.anchor.value.href;
      if Contains(nazwa, "Studia podyplomowe") then None
      else
        var id := Labels.IdParam(link);
        if id.Some? && id.value != "" then Some(Kierunek(id.value, nazwa, w.value, link)) else None
  }

  /** The current department after some items: the last name `hdr` gives, None before any. */
  function CurrentBy(items: seq<Pozycja>, hdr: Pozycja -> Option<string>): Option<string> {
    if items == [] then None
    else if hdr(items[|items| - 1]).Some? then hdr(items[|items| - 1])
    else CurrentBy(items[..|items| - 1], hdr)
  }

  /** What the items emit: the course `course` gives for each item under the department current before it. */
  function OutBy(items: seq<Pozycja>, hdr: Pozycja -> Option<string>, course: (Pozycja, Option<string>) -> Option<Kierunek>): seq<Kierunek> {
    if items == [] then []
    else
      var c := course(items[|items| - 1], CurrentBy(items[..|items| - 1], hdr));
      OutBy(items[..|items| - 1], hdr, course) + (if c.Some? then [c.value] else [])
  }

  /** The current department after some items; None before any header. */
  function Current(items: seq<Pozycja>): Option<string> {
    CurrentBy(items, HeaderOf)
  }

  /** The list returned: the course of each item under the department current before it, in item order. */
  function Out(items: seq<Pozycja>): seq<Kierunek> {
    OutBy(items, HeaderOf, CourseAt)
  }

  lemma CurrentStep(items: seq<Pozycja>, i: nat)
    requires i < |items|
    ensures Current(items[..i + 1]) == if IsHeader(items[i]) then Some(HeaderName(items[i])) else Current(items[..i])
  {
    assert items[..i + 1][..i] == items[..i];
  }

  lemma OutStep(items: seq<Pozycja>, i: nat)
    requires i < |items|
    ensures Out(items[..i + 1]) == Out(items[..i]) + (var c := CourseAt(items[i], Current(items[..i])); if c.Some? then [c.value] else [])
  {
    assert items[..i + 1][..i] == items[..i];
  }

  /** The `for item in wydzialy_items` loop, carrying `wydzial`. */
  method ParseDepartmentsAndCourses(container: Option<seq<Pozycja>>) returns (wynik: seq<Kierunek>)
    ensures container.None? ==> wynik == []
    ensures container.Some? ==> wynik == Out(container.value)
  {
    wynik := [];
    if container.None? {
      return;
    }
    var items := container.value;
    var wydzial: Option<string> := None;
    for i := 0 to |items|
      invariant wydzial == Current(items[..i])
      invariant wynik == Out(items[..i])
    {
      CurrentStep(items, i);
      OutStep(items, i);
      var item := items[i];
      if IsHeader(item) {
        wydzial := Some(HeaderName(item));
      } else if item.anchor.Some? && Truthy(wydzial) {
        var a := item.anchor.value;
        var nazwa := Strip(a.text);
        var link := Labels.BaseUrl + a.href;
        if !Contains(nazwa, "Studia podyplomowe") {
          var kierunekId: Option<string> := None;
          if Contains(link, "ID=") {
            kierunekId := Labels.IdParam(link);
          }
          if kierunekId.Some? && kierunekId.value != "" {
            wynik := wynik + [Kierunek(kierunekId.value, nazwa, wydzial.value, link)];
          }
        }
      }
    }
    assert items[..|items|] == items;
  }

  /** `scrape_kierunki`: an empty page (None) gives no courses; otherwise the page's container is walked. */
  method ScrapeKierunki(html: Option<Option<seq<Pozycja>>>) returns (wynik: seq<Kierunek>)
    ensures html.None? ==> wynik == []
    ensures html.Some? && html.value.Some? ==> wynik == Out(html.value.value)
    ensures html.Some? && html.value.None? ==> wynik == []
  {
    if html.None? {
      return [];
    }
    wynik := ParseDepartmentsAndCourses(html.value);
  }

  // ---------------------------------------------------------------- properties of the walk

  /** The last name `hdr` gives: None exactly when it gives none, otherwise from an item with none after it. */
  lemma {:induction false} CurrentByLast(items: seq<Pozycja>, hdr: Pozycja -> Option<string>)
    ensures CurrentBy(items, hdr).None? <==> forall j :: 0 <= j < |items| ==> hdr(items[j]).None?
    ensures CurrentBy(items, hdr).Some? ==> exists h :: (0 <= h < |items| && hdr(items[h]) == CurrentBy(items, hdr)
      && forall j :: h < j < |items| ==> hdr(items[j]).None?)
  {
    if items != [] {
      var init := items[..|items| - 1];
      CurrentByLast(init, hdr);
      assert forall j :: 0 <= j < |init| ==> init[j] == items[j];
    }
  }

  /**
   * The current department is None exactly before the first header, and
   * otherwise the name of the last header so far.
   */
  lemma CurrentIsLastHeader(items: seq<Pozycja>)
    ensures Current(items).None? <==> forall j :: 0 <= j < |items| ==> !IsHeader(items[j])
    ensures Current(items).Some? ==> exists h :: (0 <= h < |items| && IsHeader(items[h])
      && Current(items).value == HeaderName(items[h])
      && forall j :: h < j < |items| ==> !IsHeader(items[j]))
  {
    CurrentByLast(items, HeaderOf);
  }

  lemma CurrentByStep(items: seq<Pozycja>, hdr: Pozycja -> Option<string>, i: nat)
    requires i < |items|
    ensures CurrentBy(items[..i + 1], hdr) == if hdr(items[i]).Some? then hdr(items[i]) else CurrentBy(items[..i], hdr)
  {
    assert items[..i + 1][..i] == items[..i];
  }

  /** Before position `i`, a current name comes from the last item `h` before `i` that gives one. */
  lemma {:induction false} LastBefore(items: seq<Pozycja>, hdr: Pozycja -> Option<string>, i: nat) returns (h: nat)
    requires i <= |items| && CurrentBy(items[..i], hdr).Some?
    ensures h < i && CurrentBy(items[..i], hdr) == hdr(items[h])
    ensures forall j :: h < j < i ==> hdr(items[j]).None?
  {
    assert items[..0] == [];
    if i > 0 {
      CurrentByStep(items, hdr, i - 1);
      if hdr(items[i - 1]).Some? {
        h := i - 1;
      } else {
        h := LastBefore(items, hdr, i - 1);
      }
    }
  }

  /** Every course the first `n` items emit comes from one of them, under the department current before it. */
  lemma {:induction false} CourseFrom(items: seq<Pozycja>, n: nat, k: nat) returns (i: nat)
    requires n <= |items| && k < |Out(items[..n])|
    ensures i < n && CourseAt(items[i], Current(items[..i])) == Some(Out(items[..n])[k])
  {
    assert items[..0] == [];
    if n > 0 {
      OutStep(items, n - 1);
      if k < |Out(items[..n - 1])| {
        i := CourseFrom(items, n - 1, k);
      } else {
        i := n - 1;
      }
    }
  }

  /**
   * Each emitted course comes from a non-header item `i` and carries the name
   * of the most recent header `h` before it, which is not empty.
   */
  lemma CourseUnderLastHeader(items: seq<Pozycja>, k: nat) returns (i: nat, h: nat)
    requires k < |Out(items)|
    ensures h < i < |items| && IsHeader(items[h]) && !IsHeader(items[i])
    ensures Out(items)[k].wydzial == HeaderName(items[h]) != ""
    ensures forall j :: h < j < i ==> !IsHeader(items[j])
  {
    assert items[..|items|] == items;
    i := CourseFrom(items, |items|, k);
    h := LastBefore(items, HeaderOf, i);
    forall j | h < j < i ensures !IsHeader(items[j]) {
      assert HeaderOf(items[j]).None?;
    }
  }

  /** No "Studia podyplomowe" course is emitted, and every id is non-empty and free of `&`. */
  lemma CourseNamesAndIds(items: seq<Pozycja>, k: nat)
    requires k < |Out(items)|
    ensures !Contains(Out(items)[k].nazwa, "Studia podyplomowe")
    ensures Out(items)[k].kierunekId != "" && '&' !in Out(items)[k].kierunekId
  {
    assert items[..|items|] == items;
    var i := CourseFrom(items, |items|, k);
  }

  /** Items before any header emit nothing: without a header the walk returns []. */
  lemma NoHeaderNoCourses(items: seq<Pozycja>)
    requires forall j :: 0 <= j < |items| ==> !IsHeader(items[j])
    ensures Out(items) == []
  {
    if Out(items) != [] {
      var i, h := CourseUnderLastHeader(items, 0);
    }
  }
}

/**
 * `PlanyScraper` of `scraper/plany_scraper.py`: a group's plan page read
 * into a record, the calendar-date cache, and the ICS request URL. Every
 * page it would fetch comes from a `fetch` function of the request URL, so
 * the contracts also say which URL is requested.
 */
module Plany {
  import opened Wrappers
  import opened Text
  import Stamps
  import Seqs
  import Labels
  import Utils
  import PlanUzScraper

  // ---------------------------------------------------------------- time range

  /** `f"{h:02d}:{m:02d}"` for values below 100: two digits, a colon, two digits. */
  predicate IsHhMm(t: string) {
    |t| == 5 && IsDigit(t[0]) && IsDigit(t[1]) && t[2] == ':' && IsDigit(t[3]) && IsDigit(t[4])
  }

  predicate DigitAt(s: string, i: nat) {
    i < |s| && IsDigit(s[i])
  }

  /** `f"{int(d):02d}"` for one or two digits: a leading zero is added to a single digit. */
  function Pad2(d: string): (r: string)
    requires 1 <= |d| <= 2 && AllDigits(d)
    ensures |r| == 2 && AllDigits(r)
  {
    if |d| == 1 then "0" + d else d
  }

  /** The padding keeps the number the digits denote. */
  lemma Pad2Value(d: string)
    requires 1 <= |d| <= 2 && AllDigits(d)
    ensures Stamps.Num(Pad2(d)) == Stamps.Num(d)
    ensures |d| == 2 ==> Pad2(d) == d
  {
    if |d| == 1 {
      var p := Pad2(d);
      assert p[..1] == "0" && p[..1][..0] == [];
      assert d[..0] == [];
    }
  }

  datatype ClockMatch = ClockMatch(hour: string, minute: string, end: nat)

  /**
   * `(\d{1,2}):(\d{2})` matched at `i`. The greedy `\d{1,2}` takes two digits
   * when two are there; backing off to one would need the second to be the
   * colon, so there is only one way to match.
   */
  function ClockAt(s: string, i: nat): (r: Option<ClockMatch>)
    ensures r.Some? ==> 1 <= |r.value.hour| <= 2 && AllDigits(r.value.hour) && |r.value.minute| == 2 && AllDigits(r.value.minute)
    ensures r.Some? ==> i < r.value.end <= |s|
  {
    if !DigitAt(s, i) then None
    else
      var h := if DigitAt(s, i + 1) then i + 2 else i + 1;
      if h + 2 < |s| && s[h] == ':' && IsDigit(s[h + 1]) && IsDigit(s[h + 2]) then
        Some(ClockMatch(s[i..h], s[h + 1..h + 3], h + 3))
      else None
  }

  /** The match spans the text it was read from, and the hour takes two digits when two are there. */
  lemma ClockAtSpan(s: string, i: nat)
    requires ClockAt(s, i).Some?
    ensures var m := ClockAt(s, i).value;
      s[i..m.end] == m.hour + ":" + m.minute && (DigitAt(s, i + 1) <==> |m.hour| == 2)
  {
    var m := ClockAt(s, i).value;
    assert s[i..m.end] == m.hour + ":" + m.minute;
  }

  datatype Clock = Clock(od: string, do_: string)

  /** `(\d{1,2}):(\d{2})\s*-\s*(\d{1,2}):(\d{2})` matched at `i`, rendered as two `HH:MM` texts. */
  function TimeRangeAt(s: string, i: nat): (r: Option<Clock>)
    ensures r.Some? ==> i < |s| && IsHhMm(r.value.od) && IsHhMm(r.value.do_)
  {
    match ClockAt(s, i)
    case None => None
    case Some(a) =>
      var d := SpaceEnd(s, a.end);
      if d < |s| && s[d] == '-' then
        match ClockAt(s, SpaceEnd(s, d + 1))
        case None => None
        case Some(b) => Some(Clock(Pad2(a.hour) + ":" + a.minute, Pad2(b.hour) + ":" + b.minute))
      else None
  }

  /** The match at every position of the cell. */
  function Matches(czas: string): (ms: seq<Option<Clock>>)
    ensures |ms| == |czas| && forall j :: 0 <= j < |czas| ==> ms[j] == TimeRangeAt(czas, j)
  {
    seq(|czas|, (j: int) requires 0 <= j => TimeRangeAt(czas, j))
  }

  /** `re.search` of the time-range pattern in the (already stripped) time cell. */
  function TimeRange(czas: string): (r: Option<Clock>)
    ensures r.None? <==> forall i :: 0 <= i < |czas| ==> TimeRangeAt(czas, i).None?
    ensures r.Some? ==> IsHhMm(r.value.od) && IsHhMm(r.value.do_)
  {
    var ms := Matches(czas);
    match Seqs.FirstSome(ms, 0)
    case None => None
    case Some(i) => ms[i]
  }

  /** The range found is the one at the leftmost position where the pattern matches. */
  lemma TimeRangeLeftmost(czas: string, i: nat)
    requires TimeRangeAt(czas, i).Some?
    requires forall j :: 0 <= j < i ==> TimeRangeAt(czas, j).None?
    ensures TimeRange(czas) == TimeRangeAt(czas, i)
  {
    var ms := Matches(czas);
    assert i < |czas|;
    Seqs.FirstSomeLeast(ms, 0, i);
  }

  // ---------------------------------------------------------------- plan table

  /** A `<td>`: its text, and the `href` of its first `<a>` ("" when that has none), if it has one. */
  datatype Cell = Cell(text: string, anchorHref: Option<string>)

  /** A `<tr>`: whether it holds a `<th>`, and its `<td>` cells. */
  datatype Row = Row(hasTh: bool, cells: seq<Cell>)

  datatype Wydarzenie = Wydarzenie(
    przedmiot: string, prowadzacy: string, typZajec: string, miejsce: string, terminy: string,
    od: Option<string>, do_: Option<string>, linkIcs: string)

  /** Header rows are skipped, and so are rows with fewer than seven cells. */
  predicate IsDataRow(r: Row) {
    !r.hasTh && |r.cells| >= 7
  }

  /** The event of a data row: five stripped texts, the time range of the sixth cell, the link of the seventh. */
  function EventOf(cells: seq<Cell>): (e: Wydarzenie)
    requires |cells| >= 7
    ensures e.od.Some? <==> e.do_.Some?
    ensures e.od.Some? ==> IsHhMm(e.od.value) && IsHhMm(e.do_.value)
  {
    var czas := TimeRange(Strip(cells[5].text));
    Wydarzenie(
      Strip(cells[0].text), Strip(cells[1].text), Strip(cells[2].text), Strip(cells[3].text), Strip(cells[4].text),
      if czas.Some? then Some(czas.value.od) else None,
      if czas.Some? then Some(czas.value.do_) else None,
      cells[6].anchorHref.GetOr(""))
  }

  /** The event a row gives, if it is a data row. */
  function RowEvent(r: Row): (e: Option<Wydarzenie>)
    ensures e.Some? <==> IsDataRow(r)
  {
    if IsDataRow(r) then Some(EventOf(r.cells)) else None
  }

  /** The events of a table, in row order. */
  function PlanEvents(rows: seq<Row>): seq<Wydarzenie> {
    Seqs.FilterMap(rows, RowEvent)
  }

  /**
   * The rows are read one at a time: the events of two stretches of rows are
   * the events of each, in order, and a single row gives its event exactly
   * when it is a data row.
   */
  lemma PlanEventsAppend(a: seq<Row>, b: seq<Row>)
    ensures PlanEvents(a + b) == PlanEvents(a) + PlanEvents(b)
  {
    Seqs.FilterMapAppend(a, b, RowEvent);
  }

  lemma PlanEventsSingle(r: Row)
    ensures PlanEvents([r]) == if IsDataRow(r) then [EventOf(r.cells)] else []
  {
    Seqs.FilterMapSingle(r, RowEvent);
  }

  /** Both times of an event, as `HH:MM`, or neither. */
  predicate TimesPaired(e: Wydarzenie) {
    (e.od.Some? <==> e.do_.Some?) && (e.od.Some? ==> IsHhMm(e.od.value) && IsHhMm(e.do_.value))
  }

  /** Every event has both times, as `HH:MM`, or neither. */
  lemma PlanEventsTimes(rows: seq<Row>)
    ensures var es := PlanEvents(rows);
      forall k :: 0 <= k < |es| ==> TimesPaired(es[k])
  {
    Seqs.FilterMapAll(rows, RowEvent, TimesPaired);
  }

  /** The row loop of `get_plan_grupy`. */
  method ReadPlanRows(rows: seq<Row>) returns (wydarzenia: seq<Wydarzenie>)
    ensures wydarzenia == PlanEvents(rows)
  {
    wydarzenia := [];
    for i := 0 to |rows|
      invariant wydarzenia == PlanEvents(rows[..i])
    {
      assert rows[..i + 1][..i] == rows[..i];
      var wiersz := rows[i];
      if wiersz.hasTh {
        continue;
      }
      if |wiersz.cells| >= 7 {
        wydarzenia := wydarzenia + [EventOf(wiersz.cells)];
      }
    }
    assert rows[..|rows|] == rows;
  }

  // ---------------------------------------------------------------- teacher links

  datatype NauczycielLink = NauczycielLink(link: string, nazwa: string, nauczycielId: string)

  /** An anchor that names a teacher: a `nauczyciel_plan.php` link with an `ID=<digits>`. */
  predicate IsTeacherAnchor(a: Labels.Anchor) {
    Contains(a.href, "nauczyciel_plan.php") && Utils.IdOf(a.href).Some?
  }

  function TeacherLinkOf(a: Labels.Anchor): (r: NauczycielLink)
    requires IsTeacherAnchor(a)
    ensures |r.nauczycielId| > 0 && AllDigits(r.nauczycielId)
  {
    NauczycielLink(a.href, Strip(a.text), Utils.IdOf(a.href).value)
  }

  /** The link an anchor gives, if it names a teacher. */
  function AnchorLink(a: Labels.Anchor): (r: Option<NauczycielLink>)
    ensures r.Some? <==> IsTeacherAnchor(a)
  {
    if IsTeacherAnchor(a) then Some(TeacherLinkOf(a)) else None
  }

  /** The teacher links of a page, in anchor order. */
  function TeacherLinks(anchors: seq<Labels.Anchor>): seq<NauczycielLink> {
    Seqs.FilterMap(anchors, AnchorLink)
  }

  /** The anchors are read one at a time, and a single anchor gives its link exactly when it names a teacher. */
  lemma TeacherLinksAppend(a: seq<Labels.Anchor>, b: seq<Labels.Anchor>)
    ensures TeacherLinks(a + b) == TeacherLinks(a) + TeacherLinks(b)
  {
    Seqs.FilterMapAppend(a, b, AnchorLink);
  }

  lemma TeacherLinksSingle(x: Labels.Anchor)
    ensures TeacherLinks([x]) == if IsTeacherAnchor(x) then [TeacherLinkOf(x)] else []
  {
    Seqs.FilterMapSingle(x, AnchorLink);
  }

  /** Every teacher id read is a non-empty run of digits taken from a `nauczyciel_plan.php` link. */
  lemma TeacherLinksIds(anchors: seq<Labels.Anchor>)
    ensures var ls := TeacherLinks(anchors);
      forall k :: 0 <= k < |ls| ==> LinkWellFormed(ls[k])
  {
    Seqs.FilterMapAll(anchors, AnchorLink, LinkWellFormed);
  }

  predicate LinkWellFormed(l: NauczycielLink) {
    |l.nauczycielId| > 0 && AllDigits(l.nauczycielId) && Contains(l.link, "nauczyciel_plan.php")
  }

  /** The anchor loop of `get_plan_grupy`. */
  method ReadTeacherLinks(anchors: seq<Labels.Anchor>) returns (nauczyciele: seq<NauczycielLink>)
    ensures nauczyciele == TeacherLinks(anchors)
  {
    nauczyciele := [];
    for i := 0 to |anchors|
      invariant nauczyciele == TeacherLinks(anchors[..i])
    {
      assert anchors[..i + 1][..i] == anchors[..i];
      var href := anchors[i].href;
      if Contains(href, "nauczyciel_plan.php") {
        var match_ := Utils.IdOf(href);
        if match_.Some? {
          nauczyciele := nauczyciele + [NauczycielLink(href, Strip(anchors[i].text), match_.value)];
        }
      }
    }
    assert anchors[..|anchors|] == anchors;
  }

  // ---------------------------------------------------------------- the plan record

  /**
   * What `get_plan_grupy` reads from a page: the `<h2>` texts, the `href` of
   * the `idGG` anchor ("" when it has none) if there is one, every anchor,
   * and the rows of the `table-bordered` table if there is one.
   */
  datatype PlanPage = PlanPage(h2: seq<string>, idGGHref: Option<string>, anchors: seq<Labels.Anchor>, table: Option<seq<Row>>)

  datatype PlanGrupy = PlanGrupy(
    kodGrupy: string, linkIcs: string, nauczyciele: seq<NauczycielLink>, wydarzenia: seq<Wydarzenie>, dataAktualizacji: string)

  function PlanUrl(grupaLink: string): string {
    Labels.PlanBaseUrl + "/" + grupaLink
  }

  function PlanRows(p: PlanPage): seq<Row> {
    p.table.GetOr([])
  }

  /** The record a fetched page gives (`None`: the request failed, and the empty record is returned). */
  function PlanOf(page: Option<PlanPage>, timestamp: string): (r: PlanGrupy)
    ensures r.dataAktualizacji == timestamp
  {
    match page
    case None => PlanGrupy("", "", [], [], timestamp)
    case Some(p) =>
      PlanGrupy(
        if |p.h2| >= 2 then Strip(p.h2[1]) else "",
        p.idGGHref.GetOr(""),
        TeacherLinks(p.anchors),
        PlanEvents(PlanRows(p)),
        timestamp)
  }

  /**
   * The plan record: a failed request gives the empty record with the
   * timestamp; otherwise the group code is the second `<h2>` stripped (or ""),
   * there is one event per data row, and every event has both times, as
   * `HH:MM`, or neither.
   */
  lemma PlanOfShape(page: Option<PlanPage>, timestamp: string)
    ensures page.None? ==> PlanOf(page, timestamp) == PlanGrupy("", "", [], [], timestamp)
    ensures page.Some? ==>
      var r := PlanOf(page, timestamp);
      && r.kodGrupy == (if |page.value.h2| >= 2 then Strip(page.value.h2[1]) else "")
      && r.wydarzenia == PlanEvents(PlanRows(page.value))
      && (forall k :: 0 <= k < |r.wydarzenia| ==> TimesPaired(r.wydarzenia[k]))
      && (forall k :: 0 <= k < |r.nauczyciele| ==> LinkWellFormed(r.nauczyciele[k]))
  {
    if page.Some? {
      PlanEventsTimes(PlanRows(page.value));
      TeacherLinksIds(page.value.anchors);
    }
  }

  // ---------------------------------------------------------------- calendar cache

  function CalendarUrl(kalendarzId: string): string {
    Labels.PlanBaseUrl + "/kalendarze_lista_szczegoly.php?ID=" + kalendarzId
  }

  /**
   * A calendar response: `None` when the request failed, else the page, with
   * the rows of its `table-bordered` table if it has one.
   */
  type CalendarResponse = Option<Option<seq<seq<string>>>>

  /** One `get_kalendarz_terminy` call: the dates returned and the cache after it. */
  function TerminyStep(cache: map<string, seq<string>>, kalendarzId: string, response: CalendarResponse)
    : (r: (seq<string>, map<string, seq<string>>))
    ensures forall k :: 0 <= k < |r.0| ==> kalendarzId in cache || PlanUzScraper.DatePrefix(r.0[k])
  {
    if kalendarzId in cache then (cache[kalendarzId], cache)
    else
      match response
      case None => ([], cache)
      case Some(table) => (PlanUzScraper.PageDates(table), cache[kalendarzId := PlanUzScraper.PageDates(table)])
  }

  /**
   * A cached id is answered from the cache whatever the response, and an
   * answered request is remembered: a second call for the same id returns
   * the same dates and changes nothing.
   */
  lemma TerminyCachedAgain(cache: map<string, seq<string>>, kalendarzId: string, first: CalendarResponse, second: CalendarResponse)
    requires kalendarzId in cache || first.Some?
    ensures var (daty, after) := TerminyStep(cache, kalendarzId, first);
      TerminyStep(after, kalendarzId, second) == (daty, after)
  {
  }

  /** A failed request is not remembered: the next call for the id fetches again. */
  lemma TerminyFailureNotCached(cache: map<string, seq<string>>, kalendarzId: string, next: CalendarResponse)
    requires kalendarzId !in cache
    ensures TerminyStep(cache, kalendarzId, None) == ([], cache)
    ensures TerminyStep(TerminyStep(cache, kalendarzId, None).1, kalendarzId, next) == TerminyStep(cache, kalendarzId, next)
  {
  }

  /** Every cached list holds only texts that start with a date. */
  ghost predicate DatesOnly(cache: map<string, seq<string>>) {
    forall id :: id in cache ==> forall k :: 0 <= k < |cache[id]| ==> PlanUzScraper.DatePrefix(cache[id][k])
  }

  lemma TerminyStepKeepsDates(cache: map<string, seq<string>>, kalendarzId: string, response: CalendarResponse)
    requires DatesOnly(cache)
    ensures DatesOnly(TerminyStep(cache, kalendarzId, response).1)
    ensures var daty := TerminyStep(cache, kalendarzId, response).0;
      forall k :: 0 <= k < |daty| ==> PlanUzScraper.DatePrefix(daty[k])
  {
  }

  // ---------------------------------------------------------------- the scraper object

  /** `PlanyScraper`'s state: the calendar-date cache and the timestamp fixed at construction. */
  class PlanyScraper {
    var terminyCache: map<string, seq<string>>
    const scrapeTimestamp: string

    ghost predicate Valid()
      reads this
    {
      DatesOnly(terminyCache)
    }

    constructor (timestamp: string)
      ensures Valid()
      ensures terminyCache == map[] && scrapeTimestamp == timestamp
    {
      terminyCache := map[];
      scrapeTimestamp := timestamp;
    }

    /** `get_plan_grupy`: the page at `BASE_URL/<link>` read into a record. */
    method GetPlanGrupy(grupaLink: string, fetch: string -> Option<PlanPage>) returns (plan: PlanGrupy)
      ensures plan == PlanOf(fetch(PlanUrl(grupaLink)), scrapeTimestamp)
    {
      var page := fetch(PlanUrl(grupaLink));
      if page.None? {
        return PlanGrupy("", "", [], [], scrapeTimestamp);
      }
      var p := page.value;
      var kodGrupy := "";
      if |p.h2| >= 2 {
        kodGrupy := Strip(p.h2[1]);
      }
      var icsLink := "";
      if p.idGGHref.Some? {
        icsLink := p.idGGHref.value;
      }
      var nauczyciele := ReadTeacherLinks(p.anchors);
      var wydarzenia := [];
      if p.table.Some? {
        wydarzenia := ReadPlanRows(p.table.value);
      }
      plan := PlanGrupy(kodGrupy, icsLink, nauczyciele, wydarzenia, scrapeTimestamp);
    }

    /** `get_kalendarz_terminy`: the cache is consulted first; only an answered request is cached, even with no dates. */
    method GetKalendarzTerminy(kalendarzId: string, fetch: string -> CalendarResponse) returns (daty: seq<string>)
      requires Valid()
      modifies this
      ensures Valid()
      ensures (daty, terminyCache) == TerminyStep(old(terminyCache), kalendarzId, fetch(CalendarUrl(kalendarzId)))
    {
      if kalendarzId in terminyCache {
        return terminyCache[kalendarzId];
      }
      var response := fetch(CalendarUrl(kalendarzId));
      if response.None? {
        return [];
      }
      daty := [];
      if response.value.Some? {
        daty := PlanUzScraper.ReadDates(response.value.value);
      }
      TerminyStepKeepsDates(terminyCache, kalendarzId, response);
      terminyCache := terminyCache[kalendarzId := daty];
    }

    /** `download_ics`: the body of the response for the prefixed URL, `None` when the request fails. */
    method DownloadIcs(icsUrl: string, fetch: string -> Option<string>) returns (r: Option<string>)
      ensures r == fetch(Labels.PrefixedUrl(Labels.PlanBaseUrl, icsUrl))
    {
      var fullUrl := if !StartsWith(icsUrl, "http") then Labels.PlanBaseUrl + "/" + icsUrl else icsUrl;
      r := fetch(fullUrl);
    }
  }
}

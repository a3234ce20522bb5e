/**
 * `PlanUZScraper`: the class-based scraper of the schedule site. Its pure
 * parts are the SUMMARY decoder, the event key, the ICS scanner that enriches
 * events with the dates of the HTML plan, and the resolution of a plan row's
 * dates; its state is three caches (courses, departments, calendar dates),
 * filled on first use.
 */
module PlanUzScraper {
  import opened Wrappers
  import opened Text
  import opened Stamps
  import Seqs
  import Labels
  import Utils

  // ------------------------------------------------------------ _parse_summary

  /**
   * `\([^)]+\)` at `q`: an opening bracket, at least one character other than
   * `)`, and the first `)` after it at `c`.
   */
  predicate BracketAt(s: string, q: nat, c: nat) {
    q + 1 < c < |s| && s[q] == '(' && s[c] == ')' && forall j :: q < j < c ==> s[j] != ')'
  }

  /** Where the optional bracket group that starts at `q` closes, if it matches. */
  function BracketEnd(s: string, q: nat): (r: Option<nat>)
    requires q <= |s|
    ensures r.Some? ==> BracketAt(s, q, r.value)
    ensures r.None? ==> forall c: nat :: !BracketAt(s, q, c)
  {
    if q < |s| && s[q] == '(' then
      var c := RunEnd(s, q + 1, {')'});
      if q + 1 < c < |s| then Some(c) else None
    else None
  }

  /** The three groups of the summary regex. */
  datatype SummaryGroups = SummaryGroups(przedmiot: string, typ: Option<string>, rest: string)

  /**
   * `re.match(r"(.*?)\s*(\([^)]+\))?\s*:?\s*(.*)", s)`. Every part after the
   * lazy first group can match the empty string, so the first attempt, with
   * that group empty, succeeds: the match always exists, and each later part
   * takes what it greedily can. The bracket group is tried right after the
   * leading whitespace; `(.*)` stops at the first newline.
   */
  function SummaryMatch(s: string): (g: SummaryGroups)
    ensures g.przedmiot == []
    ensures g.typ.Some? <==> exists c: nat :: BracketAt(s, SpaceEnd(s, 0), c)
    ensures g.typ.Some? ==> exists c: nat :: BracketAt(s, SpaceEnd(s, 0), c) && g.typ.value == s[SpaceEnd(s, 0)..c + 1]
    ensures '\n' !in g.rest && (g.rest == [] || !IsSpace(g.rest[0]))
  {
    var q := SpaceEnd(s, 0);
    match BracketEnd(s, q)
    case Some(c) => SummaryGroups([], Some(s[q..c + 1]), RestAfter(s, c + 1))
    case None => SummaryGroups([], None, RestAfter(s, q))
  }

  /** `\s*:?\s*(.*)` from `after`: the text after the whitespace, an optional colon and more whitespace, up to a newline. */
  function RestAfter(s: string, after: nat): (rest: string)
    requires after <= |s|
    ensures '\n' !in rest && (rest == [] || !IsSpace(rest[0]))
  {
    var a := SpaceEnd(s, after);
    var b := if a < |s| && s[a] == ':' then a + 1 else a;
    var d := SpaceEnd(s, b);
    var rest := s[d..RunEnd(s, d, {'\n'})];
    assert rest == [] || rest[0] == s[d];
    rest
  }

  const TypeBrackets: set<char> := {'(', ')', ' '}

  /** `_parse_summary`: the subject, the class type (only when the bracket group matched) and the teacher. */
  function ApplySummary(e: IcsRecord, summary: string): (r: IcsRecord)
    ensures r.przedmiot == Some("")
    ensures r.typZajec == (if SummaryMatch(summary).typ.Some? then Some(StripChars(SummaryMatch(summary).typ.value, TypeBrackets)) else e.typZajec)
    ensures r.prowadzacy == Some(Strip(SummaryMatch(summary).rest))
    ensures r.(przedmiot := e.przedmiot, typZajec := e.typZajec, prowadzacy := e.prowadzacy) == e
  {
    var g := SummaryMatch(summary);
    var e1 := e.(przedmiot := Some(if g.przedmiot != [] then Strip(g.przedmiot) else ""));
    var e2 := if g.typ.Some? then e1.(typZajec := Some(StripChars(g.typ.value, TypeBrackets))) else e1;
    e2.(prowadzacy := Some(if g.rest != [] then Strip(g.rest) else ""))
  }

  /**
   * The example of the source's comment, "subject (type): teacher": the
   * summary starts with the subject, not with a bracket, so the bracket group
   * does not match, the subject is "" and the teacher is the whole summary.
   */
  lemma SummaryStartingWithSubject(e: IcsRecord, s: string)
    requires s != [] && !IsSpace(s[0]) && s[0] != '(' && s[0] != ':' && '\n' !in s
    ensures ApplySummary(e, s) == e.(przedmiot := Some(""), prowadzacy := Some(Strip(s)))
  {
    assert SpaceEnd(s, 0) == 0;
    assert BracketEnd(s, 0).None?;
    assert RunEnd(s, 0, {'\n'}) == |s| by { RunEndFull(s, 0, '\n'); }
    assert s[0..|s|] == s;
  }

  /** A summary `(x): t` sets the type from the bracket and the teacher from `t`. */
  lemma SummaryWithLeadingBracket(e: IcsRecord, x: string, t: string)
    requires x != [] && ')' !in x && '\n' !in t
    ensures var s := "(" + x + "):" + t;
      ApplySummary(e, s) == e.(przedmiot := Some(""), typZajec := Some(StripChars("(" + x + ")", TypeBrackets)),
                               prowadzacy := Some(Strip(t)))
  {
    var s := "(" + x + "):" + t;
    var c := |x| + 1;
    LeadingBracket(s, x, t);
    assert SummaryMatch(s) == SummaryGroups([], Some(s[0..c + 1]), RestAfter(s, c + 1));
    assert s[0..c + 1] == "(" + x + ")";
    RestAfterColon(s, c + 1, t);
  }

  lemma LeadingBracket(s: string, x: string, t: string)
    requires x != [] && ')' !in x && s == "(" + x + "):" + t
    ensures SpaceEnd(s, 0) == 0 && BracketEnd(s, 0) == Some(|x| + 1)
  {
    var c := |x| + 1;
    assert s[0] == '(' && s[c] == ')';
    forall j | 0 < j < c ensures s[j] != ')' { assert s[j] == x[j - 1]; }
    assert RunEnd(s, 1, {')'}) == c;
  }

  /** What follows `:` and whitespace up to the end, stripped, is the stripped tail. */
  lemma RestAfterColon(s: string, i: nat, t: string)
    requires i + 1 <= |s| && s[i] == ':' && s[i + 1..] == t && '\n' !in t
    ensures Strip(RestAfter(s, i)) == Strip(t)
  {
    var d := SpaceEnd(s, i + 1);
    RestAfterColonIs(s, i, t);
    SpaceEndShift(s, i + 1, t);
    var k := d - (i + 1);
    assert s[d..] == t[k..];
    StripAfterSpaces(t, k);
  }

  lemma RestAfterColonIs(s: string, i: nat, t: string)
    requires i + 1 <= |s| && s[i] == ':' && s[i + 1..] == t && '\n' !in t
    ensures RestAfter(s, i) == s[SpaceEnd(s, i + 1)..]
  {
    forall j | i < j < |s| ensures s[j] != '\n' { assert s[j] == t[j - (i + 1)]; }
    RestAfterColonNoBreak(s, i);
  }

  lemma RestAfterColonNoBreak(s: string, i: nat)
    requires i < |s| && s[i] == ':' && forall j :: i < j < |s| ==> s[j] != '\n'
    ensures RestAfter(s, i) == s[SpaceEnd(s, i + 1)..]
  {
    var d := SpaceEnd(s, i + 1);
    assert SpaceEnd(s, i) == i;
    RunEndFull(s, d, '\n');
    assert s[d..RunEnd(s, d, {'\n'})] == s[d..];
  }

  /** A run that first meets no `stop` character reaches the end. */
  lemma RunEndFull(s: string, i: nat, stop: char)
    requires i <= |s| && forall j :: i <= j < |s| ==> s[j] != stop
    ensures RunEnd(s, i, {stop}) == |s|
  {
  }

  /** The whitespace after position `i` of `s` is the leading whitespace of its suffix `t`. */
  lemma SpaceEndShift(s: string, i: nat, t: string)
    requires i <= |s| && s[i..] == t
    ensures SpaceEnd(s, i) - i <= |t| && forall j :: 0 <= j < SpaceEnd(s, i) - i ==> IsSpace(t[j])
    ensures SpaceEnd(s, i) < |s| ==> !IsSpace(t[SpaceEnd(s, i) - i])
  {
    var k := SpaceEnd(s, i);
    forall j | 0 <= j < k - i ensures IsSpace(t[j]) { assert t[j] == s[i + j]; }
    if k < |s| { assert t[k - i] == s[k]; }
  }

  // ---------------------------------------------------------------- event key

  /** The event dict of the ICS scanner; `None` is a key that was never set. */
  datatype IcsRecord = IcsRecord(
    od: Option<string>, data: Option<string>, do_: Option<string>,
    przedmiot: Option<string>, typZajec: Option<string>, prowadzacy: Option<string>,
    miejsce: Option<string>, terminy: Option<string>)

  const NoKeys := IcsRecord(None, None, None, None, None, None, None, None)

  /** `f"{przedmiot}_{od}_{typ_zajec}".lower().replace(' ', '_')`. */
  function EventKey(przedmiot: string, od: string, typ: string): (r: string)
    ensures ' ' !in r
    ensures |r| == |przedmiot| + |od| + |typ| + 2
  {
    ReplaceChar(Lower(przedmiot + "_" + od + "_" + typ), ' ', '_')
  }

  /** `_create_event_key`, with a missing field as "". */
  function RecordKey(e: IcsRecord): string {
    EventKey(e.przedmiot.GetOr(""), e.od.GetOr(""), e.typZajec.GetOr(""))
  }

  lemma LowerCharIdempotent(c: char)
    ensures LowerChar(LowerChar(c)) == LowerChar(c)
  {
  }

  /** The key ignores the case of the subject and whether it has spaces or underscores. */
  lemma EventKeyNormalises(przedmiot: string, od: string, typ: string)
    ensures EventKey(Lower(przedmiot), od, typ) == EventKey(przedmiot, od, typ)
    ensures EventKey(ReplaceChar(przedmiot, ' ', '_'), od, typ) == EventKey(przedmiot, od, typ)
  {
    var a := Lower(przedmiot) + "_" + od + "_" + typ;
    var b := ReplaceChar(przedmiot, ' ', '_') + "_" + od + "_" + typ;
    var s := przedmiot + "_" + od + "_" + typ;
    forall i | 0 <= i < |s|
      ensures ReplaceChar(Lower(a), ' ', '_')[i] == ReplaceChar(Lower(s), ' ', '_')[i]
      ensures ReplaceChar(Lower(b), ' ', '_')[i] == ReplaceChar(Lower(s), ' ', '_')[i]
    {
      if i < |przedmiot| {
        assert a[i] == LowerChar(przedmiot[i]) && b[i] == (if przedmiot[i] == ' ' then '_' else przedmiot[i]);
        assert s[i] == przedmiot[i];
        LowerCharIdempotent(przedmiot[i]);
      } else {
        assert a[i] == s[i] && b[i] == s[i];
      }
    }
  }

  // ---------------------------------------------------------------- HTML events

  /** One event of the HTML plan, as `get_plan_grupy` builds it. */
  datatype HtmlEvent = HtmlEvent(
    od: string, do_: string, przedmiot: string, typZajec: string,
    prowadzacy: string, miejsce: string, terminy: string, kalendarzId: Option<string>)

  function HtmlKey(h: HtmlEvent): string {
    EventKey(h.przedmiot, h.od, h.typZajec)
  }

  /** `{self._create_event_key(e): e for e in ...}`: later events overwrite earlier ones with the same key. */
  function HtmlIndex(hs: seq<HtmlEvent>): (m: map<string, HtmlEvent>)
    ensures forall k :: k in m <==> exists i :: 0 <= i < |hs| && HtmlKey(hs[i]) == k
  {
    if hs == [] then map[]
    else
      var m := HtmlIndex(hs[..|hs| - 1]);
      var last := hs[|hs| - 1];
      assert forall i :: 0 <= i < |hs| - 1 ==> hs[..|hs| - 1][i] == hs[i];
      m[HtmlKey(last) := last]
  }

  /** The event a key maps to is the last one with that key. */
  lemma {:induction false} HtmlIndexLastWins(hs: seq<HtmlEvent>, i: nat)
    requires i < |hs| && forall j :: i < j < |hs| ==> HtmlKey(hs[j]) != HtmlKey(hs[i])
    ensures HtmlIndex(hs)[HtmlKey(hs[i])] == hs[i]
  {
    if i < |hs| - 1 {
      var init := hs[..|hs| - 1];
      assert forall j :: i < j < |init| ==> init[j] == hs[j];
      HtmlIndexLastWins(init, i);
    }
  }

  // ---------------------------------------------------------------- parse_ics_and_enrich

  /** A stripped line of an open block that holds a colon: `key:value` at the first colon. */
  function ApplyLine(e: IcsRecord, line: string): IcsRecord {
    match FindChar(line, ':')
    case None => e
    case Some(k) =>
      var key, value := line[..k], line[k + 1..];
      if key == "DTSTART" then
        if IsStamp(value) then e.(od := Some(HourMinuteSecond(value)), data := Some(DateOf(value)))
        else e.(od := Some(value))
      else if key == "DTEND" then
        if IsStamp(value) then e.(do_ := Some(HourMinuteSecond(value))) else e.(do_ := Some(value))
      else if key == "SUMMARY" then ApplySummary(e, value)
      else if key == "LOCATION" then e.(miejsce := Some(value))
      else if key == "CATEGORIES" then e.(typZajec := Some(value))
      else e
  }

  /** A closed event takes the dates of the HTML event with its key, if there is one. */
  function Enrich(e: IcsRecord, index: map<string, HtmlEvent>): IcsRecord {
    var key := RecordKey(e);
    if key in index then e.(terminy := Some(index[key].terminy)) else e
  }

  /** One line: the new state (`None`: no event open) and what it appends. */
  function Step(current: Option<IcsRecord>, raw: string, index: map<string, HtmlEvent>): (Option<IcsRecord>, seq<IcsRecord>) {
    var line := Strip(raw);
    if line == "BEGIN:VEVENT" then (Some(NoKeys), [])
    else if line == "END:VEVENT" && current.Some? && current.value != NoKeys then
      (None, [Enrich(current.value, index)])
    else if current.Some? && ':' in line then (Some(ApplyLine(current.value, line)), [])
    else (current, [])
  }

  function Scan(current: Option<IcsRecord>, lines: seq<string>, index: map<string, HtmlEvent>): seq<IcsRecord>
    decreases |lines|
  {
    if lines == [] then []
    else
      var (next, out) := Step(current, lines[0], index);
      out + Scan(next, lines[1..], index)
  }

  /** `parse_ics_and_enrich` on the text of the calendar and the events of the HTML plan. */
  method ParseIcsAndEnrich(icsContent: string, wydarzeniaHtml: seq<HtmlEvent>) returns (wydarzenia: seq<IcsRecord>)
    ensures wydarzenia == Scan(None, SplitLines(icsContent), HtmlIndex(wydarzeniaHtml))
  {
    var index := HtmlIndex(wydarzeniaHtml);
    var lines := SplitLines(icsContent);
    wydarzenia := [];
    var current: Option<IcsRecord> := None;
    var i := 0;
    assert lines[0..] == lines;
    while i < |lines|
      invariant 0 <= i <= |lines|
      invariant wydarzenia + Scan(current, lines[i..], index) == Scan(None, lines, index)
    {
      ScanStep(current, lines[i..], index);
      assert lines[i..][1..] == lines[i + 1..];
      var next, out := ReadLine(current, lines[i], index);
      Seqs.AppendAssoc(wydarzenia, out, Scan(next, lines[i + 1..], index));
      wydarzenia := wydarzenia + out;
      current := next;
      i := i + 1;
    }
  }

  /** One pass of the loop body: the event open after `raw`, and what `raw` appends. */
  method ReadLine(current: Option<IcsRecord>, raw: string, index: map<string, HtmlEvent>)
    returns (next: Option<IcsRecord>, out: seq<IcsRecord>)
    ensures (next, out) == Step(current, raw, index)
  {
    var line := Strip(raw);
    next, out := current, [];
    if line == "BEGIN:VEVENT" {
      next := Some(NoKeys);
    } else if line == "END:VEVENT" && current.Some? && current.value != NoKeys {
      out := [Enrich(current.value, index)];
      next := None;
    } else if current.Some? && ':' in line {
      next := Some(ApplyLine(current.value, line));
    }
  }

  lemma ScanStep(current: Option<IcsRecord>, lines: seq<string>, index: map<string, HtmlEvent>)
    requires lines != []
    ensures Scan(current, lines, index) == Step(current, lines[0], index).1 + Scan(Step(current, lines[0], index).0, lines[1..], index)
  {
  }

  /** Every appended event holds a key. */
  lemma {:induction false} ScanNonEmpty(current: Option<IcsRecord>, lines: seq<string>, index: map<string, HtmlEvent>)
    ensures forall k :: 0 <= k < |Scan(current, lines, index)| ==> Scan(current, lines, index)[k] != NoKeys
    decreases |lines|
  {
    if lines != [] {
      var (next, out) := Step(current, lines[0], index);
      ScanNonEmpty(next, lines[1..], index);
      assert Scan(current, lines, index) == out + Scan(next, lines[1..], index);
    }
  }

  /**
   * An `END:VEVENT` while the open event is still empty neither appends nor
   * closes it: the line falls into the `key:value` branch with the key `END`.
   */
  lemma EmptyEventEndIgnored(endLine: string, rest: seq<string>, index: map<string, HtmlEvent>)
    requires Strip(endLine) == "END:VEVENT"
    ensures Scan(Some(NoKeys), [endLine] + rest, index) == Scan(Some(NoKeys), rest, index)
  {
    EndKeyIgnored(NoKeys);
    assert "END:VEVENT"[3] == ':';
    assert Step(Some(NoKeys), endLine, index) == (Some(NoKeys), []);
    assert ([endLine] + rest)[1..] == rest;
  }

  /** As a content line, `END:VEVENT` has the key `END`, which sets nothing. */
  lemma EndKeyIgnored(e: IcsRecord)
    ensures ApplyLine(e, "END:VEVENT") == e
  {
    FirstColon("END", "VEVENT");
    assert "END" + ":" + "VEVENT" == "END:VEVENT";
  }

  /** An `END:VEVENT` closes a non-empty event, appending it enriched. */
  lemma EventClosed(e: IcsRecord, endLine: string, rest: seq<string>, index: map<string, HtmlEvent>)
    requires Strip(endLine) == "END:VEVENT" && e != NoKeys
    ensures Scan(Some(e), [endLine] + rest, index) == [Enrich(e, index)] + Scan(None, rest, index)
  {
    assert ([endLine] + rest)[1..] == rest;
  }

  /**
   * An event whose key some HTML event has takes the dates of the last of
   * them; an event whose key none has is unchanged.
   */
  lemma EnrichTerminy(e: IcsRecord, hs: seq<HtmlEvent>, i: nat)
    requires i < |hs| && HtmlKey(hs[i]) == RecordKey(e)
    requires forall j :: i < j < |hs| ==> HtmlKey(hs[j]) != HtmlKey(hs[i])
    ensures Enrich(e, HtmlIndex(hs)) == e.(terminy := Some(hs[i].terminy))
  {
    HtmlIndexLastWins(hs, i);
  }

  lemma EnrichWithoutMatch(e: IcsRecord, hs: seq<HtmlEvent>)
    requires forall j :: 0 <= j < |hs| ==> HtmlKey(hs[j]) != RecordKey(e)
    ensures Enrich(e, HtmlIndex(hs)) == e
  {
  }

  /** `DTSTART` gives the time with seconds and the date, or the raw value as the time when it is no stamp. */
  lemma DtStartLine(e: IcsRecord, value: string)
    ensures ApplyLine(e, "DTSTART:" + value) ==
      if IsStamp(value) then e.(od := Some(HourMinuteSecond(value)), data := Some(DateOf(value)))
      else e.(od := Some(value))
  {
    assert "DTSTART" + ":" + value == "DTSTART:" + value;
    FirstColon("DTSTART", value);
  }

  /** A `CATEGORIES` line overwrites the class type, also one the summary set. */
  lemma CategoriesLine(e: IcsRecord, value: string)
    ensures ApplyLine(e, "CATEGORIES:" + value) == e.(typZajec := Some(value))
  {
    assert "CATEGORIES" + ":" + value == "CATEGORIES:" + value;
    FirstColon("CATEGORIES", value);
  }

  // ---------------------------------------------------------------- terminy

  /** `TERMINY_KODY`: the known date codes. */
  const TerminyKody: map<string, string> := map[
    "D" := "Dni robocze, studia stacjonarne",
    "DI" := "Studia stacjonarne I-sza połowa sem.",
    "DII" := "Studia stacjonarne II-ga połowa sem.",
    "DN" := "Studia stacjonarne Nieparzyste",
    "DP" := "Studia stacjonarne Parzyste",
    "WPA" := "Wydział Nauk Prawnych i Ekonomicznych - terminy zjazdów"]

  /** The calendar branch of the resolution: only there are the calendar's dates looked up. */
  predicate UsesCalendar(text: string, kalendarzId: Option<string>) {
    text != "" && ';' !in text && text !in TerminyKody && kalendarzId.Some? && kalendarzId.value != ""
  }

  /**
   * The dates of a plan row, from its text and calendar id, given the dates
   * the calendar lookup yields.
   */
  function Terminy(text: string, kalendarzId: Option<string>, daty: seq<string>): (r: string)
    ensures text == "" ==> r == ""
    ensures text != "" && ';' in text ==> r == text
    ensures text != "" && ';' !in text && text in TerminyKody ==> r == TerminyKody[text]
    ensures UsesCalendar(text, kalendarzId) ==> r == Join(daty, "; ")
    ensures text != "" && ';' !in text && text !in TerminyKody && !UsesCalendar(text, kalendarzId) ==> r == text
  {
    if text == "" then ""
    else if ';' in text then text
    else if text in TerminyKody then TerminyKody[text]
    else if kalendarzId.Some? && kalendarzId.value != "" then
      if daty != [] then Join(daty, "; ") else ""
    else text
  }

  /** The text and calendar id of a dates cell: the link's text and the id of its href, or the cell's text. */
  function TerminyCell(cellText: string, link: Option<Labels.Anchor>): (r: (string, Option<string>))
    ensures link.None? ==> r == (Strip(cellText), None)
    ensures link.Some? ==> r == (Strip(link.value.text), Utils.IdOf(link.value.href))
  {
    match link
    case None => (Strip(cellText), None)
    case Some(a) => (Strip(a.text), Utils.IdOf(a.href))
  }

  // ---------------------------------------------------------------- calendar dates

  /** `re.match(r'\d{4}-\d{2}-\d{2}', d)`: the text starts with a date. */
  predicate DatePrefix(d: string) {
    |d| >= 10 && AllDigits(d[..4]) && d[4] == '-' && AllDigits(d[5..7]) && d[7] == '-' && AllDigits(d[8..10])
  }

  /**
   * The dates of a calendar page: the stripped second cell of every row with
   * at least two cells, kept when it starts with a date.
   */
  function CalendarDates(rows: seq<seq<string>>): (daty: seq<string>)
    ensures |daty| <= |rows|
    ensures forall k :: 0 <= k < |daty| ==> DatePrefix(daty[k]) && Strip(daty[k]) == daty[k]
  {
    if rows == [] then []
    else
      var last := rows[|rows| - 1];
      var kept := if |last| >= 2 && DatePrefix(Strip(last[1])) then StripIdempotent(last[1]); [Strip(last[1])] else [];
      CalendarDates(rows[..|rows| - 1]) + kept
  }

  /** What the page gives: no table, or the cell texts of its `even`/`odd` rows. */
  function PageDates(table: Option<seq<seq<string>>>): seq<string> {
    match table
    case None => []
    case Some(rows) => CalendarDates(rows)
  }

  /** The loop of `get_kalendarz_terminy` over the rows of the table. */
  method ReadDates(rows: seq<seq<string>>) returns (daty: seq<string>)
    ensures daty == CalendarDates(rows)
  {
    daty := [];
    for i := 0 to |rows|
      invariant daty == CalendarDates(rows[..i])
    {
      assert rows[..i + 1][..i] == rows[..i];
      var komorki := rows[i];
      if |komorki| >= 2 {
        var data := Strip(komorki[1]);
        if DatePrefix(data) {
          daty := daty + [data];
        }
      }
    }
    assert rows[..|rows|] == rows;
  }

  // ---------------------------------------------------------------- get_kierunki

  /** One course record. */
  datatype Kierunek = Kierunek(nazwaKierunku: string, wydzial: string, linkGrupy: string, kierunekId: string, typKierunku: string)

  /**
   * What a top-level department item of the course list gives: its direct text
   * nodes, the text of its first `strong`/`b` if any, its whole text (with
   * `strip=True`), and the first anchor of each item of its course sub-list,
   * if it has one.
   */
  datatype WydzialItem = WydzialItem(
    directTexts: seq<string>, bold: Option<string>, text: string, courses: Option<seq<Option<Labels.Anchor>>>)

  /** The direct text nodes that are not blank, run together. */
  function Concat(ts: seq<string>): string {
    if ts == [] then "" else Concat(ts[..|ts| - 1]) + ts[|ts| - 1]
  }

  predicate NotBlank(t: string) {
    Strip(t) != ""
  }

  /** The department name: the direct text, else the bold text, else the first line of the whole text. */
  function WydzialName(w: WydzialItem): (r: string)
    ensures Strip(Concat(Seqs.Filter(w.directTexts, NotBlank))) != "" ==> r == Strip(Concat(Seqs.Filter(w.directTexts, NotBlank)))
    ensures Strip(Concat(Seqs.Filter(w.directTexts, NotBlank))) == "" && w.bold.Some? ==> r == w.bold.value
    ensures Strip(Concat(Seqs.Filter(w.directTexts, NotBlank))) == "" && w.bold.None? ==> r == Strip(Before(w.text, "\n")) && '\n' !in r
  {
    var direct := Strip(Concat(Seqs.Filter(w.directTexts, NotBlank)));
    if direct != "" then direct
    else match w.bold
      case Some(b) => b
      case None =>
        BeforeLacks(w.text, '\n');
        StripLacks(Before(w.text, "\n"), '\n');
        Strip(Before(w.text, "\n"))
  }

  /** A course anchor with `ID=<digits>` in its href. */
  function CourseOf(a: Labels.Anchor, wydzial: string): (r: Option<Kierunek>)
    ensures r.Some? <==> Utils.IdOf(a.href).Some?
    ensures r.Some? ==> r.value == Kierunek(Strip(a.text), wydzial, a.href, Utils.IdOf(a.href).value, Labels.TypKierunku(Strip(a.text)))
  {
    match Utils.IdOf(a.href)
    case None => None
    case Some(id) => Some(Kierunek(Strip(a.text), wydzial, a.href, id, Labels.TypKierunku(Strip(a.text))))
  }

  /** The courses of one department's sub-list. */
  function CoursesIn(rows: seq<Option<Labels.Anchor>>, wydzial: string): seq<Kierunek> {
    if rows == [] then []
    else
      var last := rows[|rows| - 1];
      CoursesIn(rows[..|rows| - 1], wydzial)
        + (if last.Some? && CourseOf(last.value, wydzial).Some? then [CourseOf(last.value, wydzial).value] else [])
  }

  /** The courses of all departments, in page order. */
  function Courses(items: seq<WydzialItem>): seq<Kierunek> {
    if items == [] then []
    else
      var last := items[|items| - 1];
      Courses(items[..|items| - 1]) + (if last.courses.Some? then CoursesIn(last.courses.value, WydzialName(last)) else [])
  }

  /** Every course of a sub-list carries that department, an id of digits, and the type of its name. */
  lemma {:induction false} CoursesInShape(rows: seq<Option<Labels.Anchor>>, wydzial: string)
    ensures forall k :: 0 <= k < |CoursesIn(rows, wydzial)| ==>
      var c := CoursesIn(rows, wydzial)[k];
      c.wydzial == wydzial && c.kierunekId != "" && AllDigits(c.kierunekId) && c.typKierunku == Labels.TypKierunku(c.nazwaKierunku)
  {
    if rows != [] {
      CoursesInShape(rows[..|rows| - 1], wydzial);
    }
  }

  // ---------------------------------------------------------------- get_grupy

  /** The `h3` and `a` elements of a course page, in document order. */
  datatype Element = H3(text: string) | Link(anchor: Labels.Anchor)

  /** One group record of `get_grupy`. */
  datatype GrupaWpis = GrupaWpis(
    nazwaGrupy: string, kodGrupy: string, semestr: string, trybStudiow: string,
    linkPlanu: string, grupaId: string, dataAktualizacji: string)

  /** The text of the last `h3` among the elements, stripped, or "" when there is none. */
  function CurrentSemestr(es: seq<Element>): string {
    if es == [] then ""
    else if es[|es| - 1].H3? then Strip(es[|es| - 1].text)
    else CurrentSemestr(es[..|es| - 1])
  }

  /** The record of a plan link, under the semester in force. */
  function GrupaOf(a: Labels.Anchor, semestr: string, timestamp: string): (r: Option<GrupaWpis>)
    ensures r.Some? <==> Contains(a.href, "grupy_plan.php") && Utils.IdOf(a.href).Some?
  {
    if Contains(a.href, "grupy_plan.php") then
      var nazwa := Strip(a.text);
      match Utils.IdOf(a.href)
      case None => None
      case Some(id) => Some(GrupaWpis(nazwa, Labels.KodGrupy(nazwa), semestr, Labels.TrybZNazwy(nazwa), a.href, id, timestamp))
    else None
  }

  function GrupyOf(es: seq<Element>, timestamp: string): seq<GrupaWpis> {
    if es == [] then []
    else
      var init, last := es[..|es| - 1], es[|es| - 1];
      GrupyOf(init, timestamp)
        + (if last.Link? && GrupaOf(last.anchor, CurrentSemestr(init), timestamp).Some?
           then [GrupaOf(last.anchor, CurrentSemestr(init), timestamp).value] else [])
  }

  /**
   * Every record is built from a link that is preceded by its semester: the
   * stripped text of the last `h3` before that link, or "".
   */
  lemma GrupySemestr(es: seq<Element>, timestamp: string, k: nat)
    requires k < |GrupyOf(es, timestamp)|
    ensures exists i :: (0 <= i < |es| && es[i].Link? &&
      GrupaOf(es[i].anchor, CurrentSemestr(es[..i]), timestamp) == Some(GrupyOf(es, timestamp)[k]))
  {
    var i := GrupySource(es, timestamp, k);
  }

  /** Every record comes from a plan link with `ID=<digits>`, and carries that id, the group code of its name and the scrape time. */
  lemma GrupyRecordShape(es: seq<Element>, timestamp: string, k: nat)
    requires k < |GrupyOf(es, timestamp)|
    ensures var g := GrupyOf(es, timestamp)[k];
      && Contains(g.linkPlanu, "grupy_plan.php") && Utils.IdOf(g.linkPlanu) == Some(g.grupaId)
      && g.grupaId != [] && AllDigits(g.grupaId)
      && g.nazwaGrupy == Strip(g.nazwaGrupy)
      && g.kodGrupy == Labels.KodGrupy(g.nazwaGrupy) && g.trybStudiow == Labels.TrybZNazwy(g.nazwaGrupy)
      && g.dataAktualizacji == timestamp
  {
    var i := GrupySource(es, timestamp, k);
    StripIdempotent(es[i].anchor.text);
  }

  /** The position of the link that the `k`-th record comes from. */
  lemma {:induction false} GrupySource(es: seq<Element>, timestamp: string, k: nat) returns (i: nat)
    requires k < |GrupyOf(es, timestamp)|
    ensures i < |es| && es[i].Link?
    ensures GrupaOf(es[i].anchor, CurrentSemestr(es[..i]), timestamp) == Some(GrupyOf(es, timestamp)[k])
  {
    var init := es[..|es| - 1];
    if k < |GrupyOf(init, timestamp)| {
      i := GrupySource(init, timestamp, k);
      GrupySourceEarlier(es, timestamp, k, i);
    } else {
      i := |es| - 1;
      GrupySourceLast(es, timestamp, k);
    }
  }

  lemma GrupySourceEarlier(es: seq<Element>, timestamp: string, k: nat, i: nat)
    requires es != [] && k < |GrupyOf(es[..|es| - 1], timestamp)|
    requires i < |es| - 1 && es[i].Link?
    requires GrupaOf(es[i].anchor, CurrentSemestr(es[..|es| - 1][..i]), timestamp) == Some(GrupyOf(es[..|es| - 1], timestamp)[k])
    ensures GrupaOf(es[i].anchor, CurrentSemestr(es[..i]), timestamp) == Some(GrupyOf(es, timestamp)[k])
  {
    var init := es[..|es| - 1];
    assert init[..i] == es[..i];
    var gs := GrupyOf(es, timestamp);
    assert gs[..|GrupyOf(init, timestamp)|] == GrupyOf(init, timestamp);
    assert gs[k] == gs[..|GrupyOf(init, timestamp)|][k];
  }

  lemma GrupySourceLast(es: seq<Element>, timestamp: string, k: nat)
    requires es != [] && |GrupyOf(es[..|es| - 1], timestamp)| <= k < |GrupyOf(es, timestamp)|
    ensures es[|es| - 1].Link?
    ensures GrupaOf(es[|es| - 1].anchor, CurrentSemestr(es[..|es| - 1]), timestamp) == Some(GrupyOf(es, timestamp)[k])
  {
  }

  /** The semester in force after an `h3` and links is that `h3`'s text. */
  lemma SemestrAfterHeader(es: seq<Element>, h: string, links: seq<Labels.Anchor>, k: nat)
    requires k <= |links|
    ensures CurrentSemestr(es + [H3(h)] + seq(k, i requires 0 <= i < k => Link(links[i]))) == Strip(h)
    decreases k
  {
    if k > 0 {
      var t := es + [H3(h)] + seq(k, i requires 0 <= i < k => Link(links[i]));
      var t' := es + [H3(h)] + seq(k - 1, i requires 0 <= i < k - 1 => Link(links[i]));
      assert t[..|t| - 1] == t';
      SemestrAfterHeader(es, h, links, k - 1);
    }
  }

  /** The loop of `get_grupy`: the semester in force is carried across the `h3` and `a` elements. */
  method ReadGroupElements(es: seq<Element>, timestamp: string) returns (grupy: seq<GrupaWpis>)
    ensures grupy == GrupyOf(es, timestamp)
  {
    grupy := [];
    var currentSemestr := "";
    for i := 0 to |es|
      invariant grupy == GrupyOf(es[..i], timestamp)
      invariant currentSemestr == CurrentSemestr(es[..i])
    {
      GrupyOfStep(es, i, timestamp);
      match es[i]
      case H3(t) =>
        currentSemestr := Strip(t);
      case Link(a) =>
        if Contains(a.href, "grupy_plan.php") {
          var nazwa := Strip(a.text);
          match Utils.IdOf(a.href)
          case None =>
          case Some(id) =>
            grupy := grupy + [GrupaWpis(nazwa, Labels.KodGrupy(nazwa), currentSemestr, Labels.TrybZNazwy(nazwa), a.href, id, timestamp)];
        }
    }
    assert es[..|es|] == es;
  }

  lemma GrupyOfStep(es: seq<Element>, i: nat, timestamp: string)
    requires i < |es|
    ensures GrupyOf(es[..i + 1], timestamp) == GrupyOf(es[..i], timestamp)
      + (if es[i].Link? && GrupaOf(es[i].anchor, CurrentSemestr(es[..i]), timestamp).Some?
         then [GrupaOf(es[i].anchor, CurrentSemestr(es[..i]), timestamp).value] else [])
    ensures CurrentSemestr(es[..i + 1]) == if es[i].H3? then Strip(es[i].text) else CurrentSemestr(es[..i])
  {
    assert es[..i + 1][..i] == es[..i];
  }

  // ---------------------------------------------------------------- orders

  /** The order of `sort(key=lambda k: k['nazwa_kierunku'])`. */
  predicate NameLe(a: Kierunek, b: Kierunek) {
    Seqs.StrLe(a.nazwaKierunku, b.nazwaKierunku)
  }

  /** The order of `sorted(..., key=lambda k: (k['wydzial'], k['nazwa_kierunku']))`. */
  predicate PairLe(a: Kierunek, b: Kierunek) {
    (Seqs.StrLe(a.wydzial, b.wydzial) && a.wydzial != b.wydzial) || (a.wydzial == b.wydzial && Seqs.StrLe(a.nazwaKierunku, b.nazwaKierunku))
  }

  predicate StrOrder(a: string, b: string) {
    Seqs.StrLe(a, b)
  }

  lemma StrOrderTotal()
    ensures Seqs.TotalPreorder(StrOrder)
  {
    forall a, b ensures StrOrder(a, b) || StrOrder(b, a) { Seqs.StrLeTotal(a, b); }
    forall a, b, c | StrOrder(a, b) && StrOrder(b, c) ensures StrOrder(a, c) { Seqs.StrLeTrans(a, b, c); }
  }

  lemma NameLeTotal()
    ensures Seqs.TotalPreorder(NameLe)
  {
    forall a, b ensures NameLe(a, b) || NameLe(b, a) { Seqs.StrLeTotal(a.nazwaKierunku, b.nazwaKierunku); }
    forall a, b, c | NameLe(a, b) && NameLe(b, c) ensures NameLe(a, c) {
      Seqs.StrLeTrans(a.nazwaKierunku, b.nazwaKierunku, c.nazwaKierunku);
    }
  }

  lemma PairLeTotal()
    ensures Seqs.TotalPreorder(PairLe)
  {
    forall a, b ensures PairLe(a, b) || PairLe(b, a) {
      Seqs.StrLeTotal(a.wydzial, b.wydzial);
      Seqs.StrLeTotal(a.nazwaKierunku, b.nazwaKierunku);
    }
    forall a, b, c | PairLe(a, b) && PairLe(b, c) ensures PairLe(a, c) {
      if a.wydzial == b.wydzial && b.wydzial == c.wydzial {
        Seqs.StrLeTrans(a.nazwaKierunku, b.nazwaKierunku, c.nazwaKierunku);
      } else if a.wydzial != b.wydzial && b.wydzial != c.wydzial {
        Seqs.StrLeTrans(a.wydzial, b.wydzial, c.wydzial);
        if a.wydzial == c.wydzial {
          Seqs.StrLeAntisym(a.wydzial, b.wydzial);
        }
      }
    }
  }

  // ---------------------------------------------------------------- derived views

  /** The courses of one department, in list order. */
  function InWydzial(ks: seq<Kierunek>, w: string): (r: seq<Kierunek>)
    ensures forall k :: k in r <==> k in ks && k.wydzial == w
    ensures |r| <= |ks|
  {
    if ks == [] then []
    else
      var init, last := ks[..|ks| - 1], ks[|ks| - 1];
      assert forall k :: k in ks <==> k in init || k == last by { assert ks == init + [last]; }
      InWydzial(init, w) + (if last.wydzial == w then [last] else [])
  }

  /** The courses a lower-cased query matches, in list order. */
  function Matching(ks: seq<Kierunek>, q: string): (r: seq<Kierunek>)
    ensures forall k :: k in r <==> k in ks && Matches(q, k)
    ensures |r| <= |ks|
  {
    if ks == [] then []
    else
      var init, last := ks[..|ks| - 1], ks[|ks| - 1];
      assert forall k :: k in ks <==> k in init || k == last by { assert ks == init + [last]; }
      Matching(init, q) + (if Matches(q, last) then [last] else [])
  }

  /** The position of the first course with the given id, if any. */
  function FirstWithId(ks: seq<Kierunek>, id: string, from: nat): (r: Option<nat>)
    requires from <= |ks|
    ensures r.None? <==> forall i :: from <= i < |ks| ==> ks[i].kierunekId != id
    ensures r.Some? ==> from <= r.value < |ks| && ks[r.value].kierunekId == id
    ensures r.Some? ==> forall j :: from <= j < r.value ==> ks[j].kierunekId != id
    decreases |ks| - from
  {
    if from == |ks| then None
    else if ks[from].kierunekId == id then Some(from)
    else FirstWithId(ks, id, from + 1)
  }

  /** The departments of the courses, each once, in order of first appearance. */
  function Departments(ks: seq<Kierunek>): (ds: seq<string>)
    ensures forall w :: w in ds <==> exists i :: 0 <= i < |ks| && ks[i].wydzial == w
    ensures forall i, j :: 0 <= i < j < |ds| ==> ds[i] != ds[j]
  {
    if ks == [] then []
    else
      var init := ks[..|ks| - 1];
      var ds := Departments(init);
      assert forall i :: 0 <= i < |init| ==> init[i] == ks[i];
      if ks[|ks| - 1].wydzial in ds then ds else ds + [ks[|ks| - 1].wydzial]
  }

  /** `sorted(set(...))`. */
  function SortedDepartments(ks: seq<Kierunek>): seq<string> {
    Seqs.SortBy(Departments(ks), StrOrder)
  }

  /** A sorted sequence without repeats is fixed by its elements, so the first-appearance order above loses nothing. */
  lemma {:induction false} SortedDistinctUnique(a: seq<string>, b: seq<string>)
    requires Seqs.SortedBy(a, StrOrder) && Seqs.SortedBy(b, StrOrder)
    requires forall i, j :: 0 <= i < j < |a| ==> a[i] != a[j]
    requires forall i, j :: 0 <= i < j < |b| ==> b[i] != b[j]
    requires forall x :: x in a <==> x in b
    ensures a == b
    decreases |a|
  {
    if a != [] && b != [] {
      assert a[0] == b[0] by {
        assert b[0] in a && a[0] in b;
        var i :| 0 <= i < |a| && a[i] == b[0];
        var j :| 0 <= j < |b| && b[j] == a[0];
        if i > 0 && j > 0 {
          assert StrOrder(a[0], a[i]) && StrOrder(b[0], b[j]);
          Seqs.StrLeAntisym(a[0], b[0]);
        }
      }
      forall x ensures x in a[1..] <==> x in b[1..] {
        if x in a[1..] {
          var i :| 1 <= i < |a| && a[i] == x;
          assert x != a[0] && x in b;
          var j :| 0 <= j < |b| && b[j] == x;
          assert j != 0 && b[1..][j - 1] == x;
        }
        if x in b[1..] {
          var j :| 1 <= j < |b| && b[j] == x;
          assert x != b[0] && x in a;
          var i :| 0 <= i < |a| && a[i] == x;
          assert i != 0 && a[1..][i - 1] == x;
        }
      }
      SortedDistinctUnique(a[1..], b[1..]);
      assert a == [a[0]] + a[1..] && b == [b[0]] + b[1..];
    } else {
      SameElementsEmpty(a, b);
    }
  }

  lemma SameElementsEmpty(a: seq<string>, b: seq<string>)
    requires forall x :: x in a <==> x in b
    ensures a == [] <==> b == []
  {
    if a != [] {
      assert a[0] in b;
    }
    if b != [] {
      assert b[0] in a;
    }
  }

  /** `query in nazwa.lower() or query in wydzial.lower()` for a lower-cased query. */
  predicate Matches(q: string, k: Kierunek) {
    Contains(Lower(k.nazwaKierunku), q) || Contains(Lower(k.wydzial), q)
  }

  /** How many courses have each value of `f`, for the values that occur. */
  function CountBy(ks: seq<Kierunek>, f: Kierunek -> string): map<string, nat> {
    if ks == [] then map[]
    else
      var m := CountBy(ks[..|ks| - 1], f);
      var v := f(ks[|ks| - 1]);
      m[v := if v in m then m[v] + 1 else 1]
  }

  /** The keys are exactly the values that occur. */
  lemma {:induction false} CountByKeys(ks: seq<Kierunek>, f: Kierunek -> string)
    ensures forall v :: v in CountBy(ks, f) <==> exists i :: 0 <= i < |ks| && f(ks[i]) == v
  {
    if ks != [] {
      var init := ks[..|ks| - 1];
      CountByKeys(init, f);
      forall v ensures v in CountBy(ks, f) <==> exists i :: 0 <= i < |ks| && f(ks[i]) == v {
        if exists i :: 0 <= i < |ks| && f(ks[i]) == v {
          var i :| 0 <= i < |ks| && f(ks[i]) == v;
          if i < |init| {
            assert init[i] == ks[i];
          }
        }
        if v in CountBy(init, f) {
          var i :| 0 <= i < |init| && f(init[i]) == v;
          assert ks[i] == init[i];
        }
      }
    }
  }

  /** Each count is the number of courses with that value. */
  lemma {:induction false} CountByCounts(ks: seq<Kierunek>, f: Kierunek -> string, v: string)
    requires v in CountBy(ks, f)
    ensures CountBy(ks, f)[v] == |Seqs.Filter(ks, k => f(k) == v)|
  {
    var init, last := ks[..|ks| - 1], ks[|ks| - 1];
    assert ks == init + [last];
    Seqs.FilterAppend(init, last, k => f(k) == v);
    if v in CountBy(init, f) {
      CountByCounts(init, f, v);
    } else {
      CountByKeys(init, f);
      assert |Seqs.Filter(init, k => f(k) == v)| == 0 by { FilterNone(init, f, v); }
    }
  }

  lemma {:induction false} FilterNone(ks: seq<Kierunek>, f: Kierunek -> string, v: string)
    requires forall i :: 0 <= i < |ks| ==> f(ks[i]) != v
    ensures Seqs.Filter(ks, k => f(k) == v) == []
  {
    if ks != [] {
      var init, last := ks[..|ks| - 1], ks[|ks| - 1];
      assert ks == init + [last];
      Seqs.FilterAppend(init, last, k => f(k) == v);
      FilterNone(init, f, v);
    }
  }

  /** `get_statystyki`'s record. */
  datatype Statystyki = Statystyki(
    liczbaKierunkow: nat, liczbaWydzialow: nat, typyKierunkow: map<string, nat>,
    kierunkiWgWydzialu: map<string, nat>, dataAktualizacji: string)

  function TypOf(k: Kierunek): string { k.typKierunku }
  function WydzialOf(k: Kierunek): string { k.wydzial }

  predicate Distinct(s: seq<string>) {
    forall i, j :: 0 <= i < j < |s| ==> s[i] != s[j]
  }

  lemma {:induction false} DistinctAtMostOnce(a: seq<string>, x: string)
    requires Distinct(a)
    ensures multiset(a)[x] <= 1
  {
    if a != [] {
      assert a == [a[0]] + a[1..];
      assert Distinct(a[1..]) by {
        forall i, j | 0 <= i < j < |a[1..]| ensures a[1..][i] != a[1..][j] {
          assert a[1..][i] == a[i + 1] && a[1..][j] == a[j + 1];
        }
      }
      DistinctAtMostOnce(a[1..], x);
      if a[0] == x {
        assert x !in a[1..] by {
          forall k | 0 <= k < |a[1..]| ensures a[1..][k] != x {
            assert a[1..][k] == a[k + 1];
          }
        }
      }
    }
  }

  /** A permutation of a sequence without repeats has none either. */
  lemma DistinctPermutation(a: seq<string>, b: seq<string>)
    requires Distinct(a) && multiset(a) == multiset(b)
    ensures Distinct(b)
  {
    forall i, j | 0 <= i < j < |b| ensures b[i] != b[j] {
      if b[i] == b[j] {
        var x := b[i];
        assert b == b[..j] + [b[j]] + b[j + 1..];
        assert x in b[..j];
        assert multiset(b)[x] >= 2;
        DistinctAtMostOnce(a, x);
      }
    }
  }

  /** `sorted(list(set(...)))` of the departments: sorted, without repeats, and exactly the departments. */
  lemma SortedDepartmentsValid(ks: seq<Kierunek>)
    ensures Seqs.SortedBy(SortedDepartments(ks), StrOrder)
    ensures Distinct(SortedDepartments(ks))
    ensures forall w :: w in SortedDepartments(ks) <==> exists i :: 0 <= i < |ks| && ks[i].wydzial == w
  {
    StrOrderTotal();
    Seqs.SortBySorted(Departments(ks), StrOrder);
    DistinctPermutation(Departments(ks), SortedDepartments(ks));
    forall w ensures w in SortedDepartments(ks) <==> w in Departments(ks) {
      assert w in SortedDepartments(ks) <==> w in multiset(SortedDepartments(ks));
      assert w in Departments(ks) <==> w in multiset(Departments(ks));
    }
  }

  /**
   * Whatever order the set of departments is listed in, sorting it gives the
   * same list: any sorted list of the departments without repeats is this one.
   */
  lemma WydzialyDeterminate(ks: seq<Kierunek>, d: seq<string>)
    requires Seqs.SortedBy(d, StrOrder) && Distinct(d)
    requires forall w :: w in d <==> exists i :: 0 <= i < |ks| && ks[i].wydzial == w
    ensures d == SortedDepartments(ks)
  {
    SortedDepartmentsValid(ks);
    SortedDistinctUnique(d, SortedDepartments(ks));
  }

  /** The courses of a department that occurs, sorted by name: a reordering of exactly that department's courses. */
  lemma KierunkiOfWydzial(ks: seq<Kierunek>, w: string)
    requires w in Departments(ks)
    ensures Seqs.SortedBy(Seqs.SortBy(InWydzial(ks, w), NameLe), NameLe)
    ensures multiset(Seqs.SortBy(InWydzial(ks, w), NameLe)) == multiset(InWydzial(ks, w))
    ensures forall k :: k in Seqs.SortBy(InWydzial(ks, w), NameLe) <==> k in ks && k.wydzial == w
    ensures Seqs.SortBy(InWydzial(ks, w), NameLe) != []
  {
    NameLeTotal();
    Seqs.SortBySorted(InWydzial(ks, w), NameLe);
    var r := Seqs.SortBy(InWydzial(ks, w), NameLe);
    forall k ensures k in r <==> k in InWydzial(ks, w) {
      assert k in r <==> k in multiset(r);
      assert k in InWydzial(ks, w) <==> k in multiset(InWydzial(ks, w));
    }
    var i :| 0 <= i < |ks| && ks[i].wydzial == w;
    assert ks[i] in InWydzial(ks, w);
  }

  /** `search_kierunki`'s answer: sorted by (department, name) and holding exactly the matching courses. */
  lemma SearchResult(ks: seq<Kierunek>, q: string)
    ensures Seqs.SortedBy(Seqs.SortBy(Matching(ks, q), PairLe), PairLe)
    ensures multiset(Seqs.SortBy(Matching(ks, q), PairLe)) == multiset(Matching(ks, q))
    ensures forall k :: k in Seqs.SortBy(Matching(ks, q), PairLe) <==> k in ks && Matches(q, k)
  {
    PairLeTotal();
    Seqs.SortBySorted(Matching(ks, q), PairLe);
    var r := Seqs.SortBy(Matching(ks, q), PairLe);
    forall k ensures k in r <==> k in Matching(ks, q) {
      assert k in r <==> k in multiset(r);
      assert k in Matching(ks, q) <==> k in multiset(Matching(ks, q));
    }
  }

  // ---------------------------------------------------------------- loops of the scraper

  /** The inner loop of `get_kierunki` over one department's sub-list. */
  method ReadCourses(rows: seq<Option<Labels.Anchor>>, wydzial: string) returns (ks: seq<Kierunek>)
    ensures ks == CoursesIn(rows, wydzial)
  {
    ks := [];
    for i := 0 to |rows|
      invariant ks == CoursesIn(rows[..i], wydzial)
    {
      CoursesInStep(rows, i, wydzial);
      match rows[i]
      case None =>
      case Some(a) =>
        var kierunek := CourseOf(a, wydzial);
        if kierunek.Some? {
          ks := ks + [kierunek.value];
        }
    }
    assert rows[..|rows|] == rows;
  }

  lemma CoursesInStep(rows: seq<Option<Labels.Anchor>>, i: nat, wydzial: string)
    requires i < |rows|
    ensures CoursesIn(rows[..i + 1], wydzial) == CoursesIn(rows[..i], wydzial)
      + (if rows[i].Some? && CourseOf(rows[i].value, wydzial).Some? then [CourseOf(rows[i].value, wydzial).value] else [])
  {
    assert rows[..i + 1][..i] == rows[..i];
  }

  lemma CoursesStep(items: seq<WydzialItem>, i: nat)
    requires i < |items|
    ensures Courses(items[..i + 1]) == Courses(items[..i])
      + (if items[i].courses.Some? then CoursesIn(items[i].courses.value, WydzialName(items[i])) else [])
  {
    assert items[..i + 1][..i] == items[..i];
  }

  /** The outer loop of `get_kierunki` over the department items. */
  method ReadKierunki(items: seq<WydzialItem>) returns (kierunki: seq<Kierunek>)
    ensures kierunki == Courses(items)
  {
    kierunki := [];
    for i := 0 to |items|
      invariant kierunki == Courses(items[..i])
    {
      CoursesStep(items, i);
      var wydzialText := WydzialName(items[i]);
      match items[i].courses
      case None =>
      case Some(rows) =>
        var found := ReadCourses(rows, wydzialText);
        kierunki := kierunki + found;
    }
    assert items[..|items|] == items;
  }

  /** The grouping loop of `get_kierunki_by_wydzial`, with the departments in order of first appearance. */
  method GroupByWydzial(ks: seq<Kierunek>) returns (wydzialy: map<string, seq<Kierunek>>, keys: seq<string>)
    ensures keys == Departments(ks)
    ensures forall w :: w in wydzialy <==> w in keys
    ensures forall w :: w in wydzialy ==> wydzialy[w] == InWydzial(ks, w)
  {
    wydzialy := map[];
    keys := [];
    for i := 0 to |ks|
      invariant keys == Departments(ks[..i])
      invariant forall w :: w in wydzialy <==> w in keys
      invariant forall w :: w in wydzialy ==> wydzialy[w] == InWydzial(ks[..i], w)
    {
      assert ks[..i + 1][..i] == ks[..i];
      var w := ks[i].wydzial;
      if w !in wydzialy {
        NoneInWydzial(ks[..i], w);
        wydzialy := wydzialy[w := []];
        keys := keys + [w];
      }
      wydzialy := wydzialy[w := wydzialy[w] + [ks[i]]];
    }
    assert ks[..|ks|] == ks;
  }

  /** The sorting loop of `get_kierunki_by_wydzial`: each listed group is sorted by name in place. */
  method SortGroups(groups: map<string, seq<Kierunek>>, keys: seq<string>) returns (sorted: map<string, seq<Kierunek>>)
    requires Distinct(keys)
    requires forall w :: w in groups <==> w in keys
    ensures forall w :: w in sorted <==> w in groups
    ensures forall w :: w in sorted ==> sorted[w] == Seqs.SortBy(groups[w], NameLe)
  {
    sorted := groups;
    for j := 0 to |keys|
      invariant forall w :: w in sorted <==> w in keys
      invariant forall w :: w in sorted && w in keys[..j] ==> sorted[w] == Seqs.SortBy(groups[w], NameLe)
      invariant forall w :: w in sorted && w !in keys[..j] ==> sorted[w] == groups[w]
    {
      var w := keys[j];
      assert keys[..j + 1] == keys[..j] + [w];
      assert w !in keys[..j] by {
        forall k | 0 <= k < j ensures keys[..j][k] != w {
          assert keys[..j][k] == keys[k];
        }
      }
      sorted := sorted[w := Seqs.SortBy(sorted[w], NameLe)];
    }
    assert keys[..|keys|] == keys;
  }

  /** The set-building loop of `get_wydzialy`, as the departments in order of first appearance. */
  method CollectWydzialy(ks: seq<Kierunek>) returns (wydzialy: seq<string>)
    ensures wydzialy == Departments(ks)
  {
    wydzialy := [];
    for i := 0 to |ks|
      invariant wydzialy == Departments(ks[..i])
    {
      assert ks[..i + 1][..i] == ks[..i];
      if ks[i].wydzial !in wydzialy {
        wydzialy := wydzialy + [ks[i].wydzial];
      }
    }
    assert ks[..|ks|] == ks;
  }

  /** The filtering loop of `search_kierunki`. */
  method MatchingIn(ks: seq<Kierunek>, q: string) returns (results: seq<Kierunek>)
    ensures results == Matching(ks, q)
  {
    results := [];
    for i := 0 to |ks|
      invariant results == Matching(ks[..i], q)
    {
      assert ks[..i + 1][..i] == ks[..i];
      if Contains(Lower(ks[i].nazwaKierunku), q) || Contains(Lower(ks[i].wydzial), q) {
        results := results + [ks[i]];
      }
    }
    assert ks[..|ks|] == ks;
  }

  /** The search loop of `get_kierunek_by_id`, returning at the first match. */
  method FindById(ks: seq<Kierunek>, kierunekId: string) returns (r: Option<Kierunek>)
    ensures FirstWithId(ks, kierunekId, 0).None? ==> r.None?
    ensures FirstWithId(ks, kierunekId, 0).Some? ==> r == Some(ks[FirstWithId(ks, kierunekId, 0).value])
  {
    for i := 0 to |ks|
      invariant forall j :: 0 <= j < i ==> ks[j].kierunekId != kierunekId
    {
      if ks[i].kierunekId == kierunekId {
        return Some(ks[i]);
      }
    }
    return None;
  }

  /** A `defaultdict(int)` tally of `f` over the courses. */
  method Tally(ks: seq<Kierunek>, f: Kierunek -> string) returns (m: map<string, nat>)
    ensures m == CountBy(ks, f)
  {
    m := map[];
    for i := 0 to |ks|
      invariant m == CountBy(ks[..i], f)
    {
      assert ks[..i + 1][..i] == ks[..i];
      var v := f(ks[i]);
      m := m[v := if v in m then m[v] + 1 else 1];
    }
    assert ks[..|ks|] == ks;
  }

  /**
   * What the course cache holds after `if not self._kierunki_cache: self.get_kierunki()`:
   * `None` and `[]` are both falsy and both reloaded, and a page without its main
   * container leaves the cache as it was, so an unloaded cache stays `None`.
   */
  function Loaded(cache: Option<seq<Kierunek>>, page: Option<seq<WydzialItem>>): (r: Option<seq<Kierunek>>)
    ensures r.None? <==> cache.None? && page.None?
    ensures cache.Some? && cache.value != [] ==> r == cache
    ensures page.Some? && (cache.None? || cache.value == []) ==> r == Some(Courses(page.value))
  {
    if (cache.None? || cache.value == []) && page.Some? then Some(Courses(page.value)) else cache
  }

  /** Loading twice from the same page is loading once. */
  lemma LoadedIdempotent(cache: Option<seq<Kierunek>>, page: Option<seq<WydzialItem>>)
    ensures Loaded(Loaded(cache, page), page) == Loaded(cache, page)
  {
  }

  /** The exception the derived views end in: `for kierunek in self._kierunki_cache` over a cache still `None`. */
  datatype ScraperError = TypeError

  /** Calendar dates as the cache gives them: the remembered list, or what the page yields. */
  function CachedDates(cache: map<string, seq<string>>, id: string, table: Option<seq<seq<string>>>): seq<string> {
    if id in cache then cache[id] else PageDates(table)
  }

  // ---------------------------------------------------------------- the scraper object

  /**
   * `PlanUZScraper`'s state: the course cache (`None` until `get_kierunki`
   * finds the main container), the sorted department cache (`None` and an
   * empty list are both "not computed"), the calendar-date cache,
   * and the timestamp fixed at construction. Every page it would fetch is a
   * parameter of the method that fetches it.
   */
  class Scraper {
    var kierunkiCache: Option<seq<Kierunek>>
    var wydzialyCache: seq<string>
    var terminyCache: map<string, seq<string>>
    const scrapeTimestamp: string

    /** The department cache is sorted without repeats, and each cached calendar holds only dates. */
    ghost predicate Valid()
      reads this
    {
      && Seqs.SortedBy(wydzialyCache, StrOrder)
      && Distinct(wydzialyCache)
      && forall id :: id in terminyCache ==> forall k :: 0 <= k < |terminyCache[id]| ==> DatePrefix(terminyCache[id][k])
    }

    constructor (timestamp: string)
      ensures Valid()
      ensures kierunkiCache == None && wydzialyCache == [] && terminyCache == map[]
      ensures scrapeTimestamp == timestamp
    {
      kierunkiCache := None;
      wydzialyCache := [];
      terminyCache := map[];
      scrapeTimestamp := timestamp;
    }

    /** The dates of a calendar, fetched (from `table`) only for an id not seen before; the result is cached even when empty. */
    method GetKalendarzTerminy(kalendarzId: string, table: Option<seq<seq<string>>>) returns (daty: seq<string>)
      requires Valid()
      modifies this
      ensures Valid()
      ensures kalendarzId in old(terminyCache) ==> daty == old(terminyCache)[kalendarzId] && terminyCache == old(terminyCache)
      ensures kalendarzId !in old(terminyCache) ==> daty == PageDates(table) && terminyCache == old(terminyCache)[kalendarzId := daty]
      ensures forall k :: 0 <= k < |daty| ==> DatePrefix(daty[k])
      ensures kierunkiCache == old(kierunkiCache) && wydzialyCache == old(wydzialyCache)
    {
      if kalendarzId in terminyCache {
        return terminyCache[kalendarzId];
      }
      daty := [];
      match table {
        case None =>
        case Some(rows) => daty := ReadDates(rows);
      }
      terminyCache := terminyCache[kalendarzId := daty];
    }

    /** The `terminy` of a plan row; only the calendar branch consults the calendar cache. */
    method ResolveTerminy(text: string, kalendarzId: Option<string>, table: Option<seq<seq<string>>>) returns (terminy: string)
      requires Valid()
      modifies this
      ensures Valid()
      ensures !UsesCalendar(text, kalendarzId) ==> terminy == Terminy(text, kalendarzId, []) && terminyCache == old(terminyCache)
      ensures UsesCalendar(text, kalendarzId) ==>
        && terminy == Terminy(text, kalendarzId, CachedDates(old(terminyCache), kalendarzId.value, table))
        && terminyCache == old(terminyCache)[kalendarzId.value := CachedDates(old(terminyCache), kalendarzId.value, table)]
      ensures kierunkiCache == old(kierunkiCache) && wydzialyCache == old(wydzialyCache)
    {
      terminy := "";
      if text != "" {
        if ';' in text {
          terminy := text;
        } else if text in TerminyKody {
          terminy := TerminyKody[text];
        } else if kalendarzId.Some? && kalendarzId.value != "" {
          var daty := GetKalendarzTerminy(kalendarzId.value, table);
          if daty != [] {
            terminy := Join(daty, "; ");
          }
        } else {
          terminy := text;
        }
      }
    }

    /** `get_kierunki`: without the main container nothing is cached; otherwise the walk's courses become the cache. */
    method GetKierunki(page: Option<seq<WydzialItem>>) returns (kierunki: seq<Kierunek>)
      requires Valid()
      modifies this
      ensures Valid()
      ensures page.None? ==> kierunki == [] && kierunkiCache == old(kierunkiCache)
      ensures page.Some? ==> kierunki == Courses(page.value) && kierunkiCache == Some(kierunki)
      ensures wydzialyCache == old(wydzialyCache) && terminyCache == old(terminyCache)
    {
      if page.None? {
        return [];
      }
      kierunki := ReadKierunki(page.value);
      kierunkiCache := Some(kierunki);
    }

    /** `if not self._kierunki_cache: self.get_kierunki()`. */
    method EnsureKierunki(page: Option<seq<WydzialItem>>)
      requires Valid()
      modifies this
      ensures Valid()
      ensures kierunkiCache == Loaded(old(kierunkiCache), page)
      ensures wydzialyCache == old(wydzialyCache) && terminyCache == old(terminyCache)
    {
      if kierunkiCache.None? || kierunkiCache.value == [] {
        var loaded := GetKierunki(page);
      }
    }

    /** `get_grupy`: the semester in force is carried across the `h3` and `a` elements. */
    method GetGrupy(es: seq<Element>) returns (grupy: seq<GrupaWpis>)
      ensures grupy == GrupyOf(es, scrapeTimestamp)
    {
      grupy := ReadGroupElements(es, scrapeTimestamp);
    }

    /** `get_kierunki_by_wydzial`: the courses grouped by department, each group sorted by name; `TypeError` over an unloaded cache. */
    method GetKierunkiByWydzial(page: Option<seq<WydzialItem>>) returns (r: Result<map<string, seq<Kierunek>>, ScraperError>)
      requires Valid()
      modifies this
      ensures Valid()
      ensures kierunkiCache == Loaded(old(kierunkiCache), page)
      ensures wydzialyCache == old(wydzialyCache) && terminyCache == old(terminyCache)
      ensures r.Failure? <==> kierunkiCache.None?
      ensures r.Success? ==> forall w :: w in r.value <==> w in Departments(kierunkiCache.value)
      ensures r.Success? ==> forall w :: w in r.value ==> r.value[w] == Seqs.SortBy(InWydzial(kierunkiCache.value, w), NameLe)
    {
      EnsureKierunki(page);
      if kierunkiCache.None? {
        return Failure(TypeError);
      }
      var groups, keys := GroupByWydzial(kierunkiCache.value);
      var m := SortGroups(groups, keys);
      r := Success(m);
    }

    /**
     * `get_wydzialy`: a non-empty department cache is returned as is; otherwise the
     * sorted departments are computed and cached, or `TypeError` over an unloaded
     * course cache, with the department cache left as it was.
     */
    method GetWydzialy(page: Option<seq<WydzialItem>>) returns (r: Result<seq<string>, ScraperError>)
      requires Valid()
      modifies this
      ensures Valid()
      ensures old(wydzialyCache) != [] ==> r == Success(old(wydzialyCache)) && kierunkiCache == old(kierunkiCache) && wydzialyCache == old(wydzialyCache)
      ensures old(wydzialyCache) == [] ==> kierunkiCache == Loaded(old(kierunkiCache), page)
      ensures old(wydzialyCache) == [] ==> (r.Failure? <==> kierunkiCache.None?)
      ensures old(wydzialyCache) == [] && r.Failure? ==> wydzialyCache == old(wydzialyCache)
      ensures old(wydzialyCache) == [] && r.Success? ==> r.value == SortedDepartments(kierunkiCache.value) && wydzialyCache == r.value
      ensures terminyCache == old(terminyCache)
    {
      if wydzialyCache == [] {
        EnsureKierunki(page);
        if kierunkiCache.None? {
          return Failure(TypeError);
        }
        var wydzialy := CollectWydzialy(kierunkiCache.value);
        SortedDepartmentsValid(kierunkiCache.value);
        wydzialyCache := Seqs.SortBy(wydzialy, StrOrder);
      }
      r := Success(wydzialyCache);
    }

    /**
     * `get_statystyki`: counts by type and by department over the cache loaded
     * from `page`, then the department count of `get_wydzialy`; `TypeError` over
     * an unloaded cache. That call requests the course page again (`page2`)
     * when the department cache is empty and the course cache is still `[]`.
     */
    method GetStatystyki(page: Option<seq<WydzialItem>>, page2: Option<seq<WydzialItem>>) returns (r: Result<Statystyki, ScraperError>)
      requires Valid()
      modifies this
      ensures Valid()
      ensures terminyCache == old(terminyCache)
      ensures r.Failure? <==> Loaded(old(kierunkiCache), page).None?
      ensures r.Failure? ==> kierunkiCache == old(kierunkiCache) && wydzialyCache == old(wydzialyCache)
      ensures r.Success? ==>
        var counted := Loaded(old(kierunkiCache), page).value;
        && r.value.liczbaKierunkow == |counted|
        && r.value.typyKierunkow == CountBy(counted, TypOf)
        && r.value.kierunkiWgWydzialu == CountBy(counted, WydzialOf)
        && r.value.dataAktualizacji == scrapeTimestamp
      ensures r.Success? && old(wydzialyCache) != [] ==>
        && kierunkiCache == Loaded(old(kierunkiCache), page)
        && r.value.liczbaWydzialow == |old(wydzialyCache)| && wydzialyCache == old(wydzialyCache)
      ensures r.Success? && old(wydzialyCache) == [] ==>
        && kierunkiCache == Loaded(Loaded(old(kierunkiCache), page), page2)
        && kierunkiCache.Some?
        && r.value.liczbaWydzialow == |SortedDepartments(kierunkiCache.value)| && wydzialyCache == SortedDepartments(kierunkiCache.value)
      ensures old(wydzialyCache) == [] && Loaded(old(kierunkiCache), page) == Some([]) ==>
        && r.Success? && r.value.liczbaKierunkow == 0
        && kierunkiCache == Loaded(Some([]), page2)
        && r.value.liczbaWydzialow == |SortedDepartments(kierunkiCache.value)|
    {
      EnsureKierunki(page);
      if kierunkiCache.None? {
        return Failure(TypeError);
      }
      var typy := Tally(kierunkiCache.value, TypOf);
      var wgWydzialu := Tally(kierunkiCache.value, WydzialOf);
      var liczba := |kierunkiCache.value|;
      var wydzialy := GetWydzialy(page2);
      r := Success(Statystyki(liczba, |wydzialy.value|, typy, wgWydzialu, scrapeTimestamp));
    }

    /** `search_kierunki`: the matching courses, sorted by (department, name); `TypeError` over an unloaded cache. */
    method SearchKierunki(query: string, page: Option<seq<WydzialItem>>) returns (r: Result<seq<Kierunek>, ScraperError>)
      requires Valid()
      modifies this
      ensures Valid()
      ensures kierunkiCache == Loaded(old(kierunkiCache), page)
      ensures wydzialyCache == old(wydzialyCache) && terminyCache == old(terminyCache)
      ensures r.Failure? <==> kierunkiCache.None?
      ensures r.Success? ==> r.value == Seqs.SortBy(Matching(kierunkiCache.value, Lower(query)), PairLe)
    {
      EnsureKierunki(page);
      if kierunkiCache.None? {
        return Failure(TypeError);
      }
      var results := MatchingIn(kierunkiCache.value, Lower(query));
      r := Success(Seqs.SortBy(results, PairLe));
    }

    /** `get_kierunek_by_id`: the first course with that id, or none; `TypeError` over an unloaded cache. */
    method GetKierunekById(kierunekId: string, page: Option<seq<WydzialItem>>) returns (r: Result<Option<Kierunek>, ScraperError>)
      requires Valid()
      modifies this
      ensures Valid()
      ensures kierunkiCache == Loaded(old(kierunkiCache), page)
      ensures wydzialyCache == old(wydzialyCache) && terminyCache == old(terminyCache)
      ensures r.Failure? <==> kierunkiCache.None?
      ensures r.Success? && FirstWithId(kierunkiCache.value, kierunekId, 0).None? ==> r.value.None?
      ensures r.Success? && FirstWithId(kierunkiCache.value, kierunekId, 0).Some? ==>
        r.value == Some(kierunkiCache.value[FirstWithId(kierunkiCache.value, kierunekId, 0).value])
    {
      EnsureKierunki(page);
      if kierunkiCache.None? {
        return Failure(TypeError);
      }
      var found := FindById(kierunkiCache.value, kierunekId);
      r := Success(found);
    }
  }

  /** A department not among those seen has no courses so far. */
  lemma NoneInWydzial(ks: seq<Kierunek>, w: string)
    requires w !in Departments(ks)
    ensures InWydzial(ks, w) == []
  {
  }
}

/**
 * `IcsParser`: a line scanner over the text of an iCalendar file that turns
 * every VEVENT block (section 3.6.1 of RFC 5545) into an event record, and
 * the conversion of such a record into the shape the database stores.
 *
 * The scanner splits on `\n` only, strips every line, compares whole lines
 * with `BEGIN:VEVENT` / `END:VEVENT`, and splits a content line at its first
 * `:` (section 3.1 of RFC 5545) without unfolding folded lines or reading
 * property parameters: `DTSTART;TZID=...` is a different key.
 */
module IcsParser {
  import opened Wrappers
  import opened Text
  import opened Stamps
  import Seqs

  /** The event dict; `None` is a key that was never set. */
  datatype IcsEvent = IcsEvent(
    startDate: Option<string>, startTime: Option<string>,
    endDate: Option<string>, endTime: Option<string>,
    przedmiot: Option<string>, typZajec: Option<string>, nauczyciel: Option<string>,
    miejsce: Option<string>, uid: Option<string>, kategoria: Option<string>)

  /** `{}`: the event a `BEGIN:VEVENT` line starts. */
  const NoFields := IcsEvent(None, None, None, None, None, None, None, None, None, None)

  /** An event dict is truthy iff it holds at least one key. */
  predicate HasFields(e: IcsEvent) {
    e != NoFields
  }

  // ---------------------------------------------------------------- SUMMARY

  /**
   * `re.match(r'(.*?)\s*\((.*?)\)', s)` on a text without newlines (the
   * scanner's lines are split at every `\n`, so `.` matches every character of
   * them): it matches
   * iff some `(` is followed later by a `)`; the subject is the text before the
   * first `(` and the type the text up to the first `)` after it, both stripped.
   */
  /** `(` at `p` is the first `(`, and `)` at `c` the first `)` after it. */
  predicate FirstBracketPair(s: string, p: nat, c: nat) {
    && p < c < |s| && s[p] == '(' && s[c] == ')'
    && (forall j :: 0 <= j < p ==> s[j] != '(')
    && (forall j :: p < j < c ==> s[j] != ')')
  }

  function SubjectAndType(s: string): (r: Option<(string, string)>)
    ensures r.None? ==> forall i, j :: 0 <= i < j < |s| && s[i] == '(' ==> s[j] != ')'
    ensures r.Some? ==> exists p: nat, c: nat :: FirstBracketPair(s, p, c) && r.value == (Strip(s[..p]), Strip(s[p + 1..c]))
  {
    match FindChar(s, '(')
    case None => None
    case Some(p) =>
      match FindCharFrom(s, ')', p + 1)
      case None => None
      case Some(c) =>
        assert FirstBracketPair(s, p, c);
        Some((Strip(s[..p]), Strip(s[p + 1..c])))
  }

  /** Every `mgr `, `dr ` and `prof. ` removed, in that order, then stripped. */
  function StripTitles(t: string): (r: string)
    ensures r == Strip(r)
  {
    var r := Strip(Replace(Replace(Replace(t, "mgr ", ""), "dr ", ""), "prof. ", ""));
    StripIdempotent(Replace(Replace(Replace(t, "mgr ", ""), "dr ", ""), "prof. ", ""));
    r
  }

  /** The `SUMMARY` branch. */
  function ApplySummary(e: IcsEvent, value: string): (r: IcsEvent)
  {
    match FindChar(value, ':')
    case None => e.(przedmiot := Some(value))
    case Some(k) =>
      var head := Strip(value[..k]);
      var nauczyciel := StripTitles(Strip(value[k + 1..]));
      match SubjectAndType(head)
      case Some((p, t)) => e.(przedmiot := Some(p), typZajec := Some(t), nauczyciel := Some(nauczyciel))
      case None => e.(przedmiot := Some(head), typZajec := Some(""), nauczyciel := Some(nauczyciel))
  }

  // ---------------------------------------------------------------- content lines

  /** A stripped line inside a block: `key:value` at the first colon, or nothing. */
  function ApplyLine(e: IcsEvent, line: string): IcsEvent
  {
    match FindChar(line, ':')
    case None => e
    case Some(k) =>
      var key, value := line[..k], line[k + 1..];
      if key == "DTSTART" then
        if IsStamp(value) then e.(startDate := Some(DateOf(value)), startTime := Some(HourMinute(value))) else e
      else if key == "DTEND" then
        if IsStamp(value) then e.(endDate := Some(DateOf(value)), endTime := Some(HourMinute(value))) else e
      else if key == "SUMMARY" then ApplySummary(e, value)
      else if key == "LOCATION" then e.(miejsce := Some(value))
      else if key == "UID" then e.(uid := Some(value))
      else if key == "CATEGORIES" then e.(kategoria := Some(value))
      else e
  }

  predicate IsKnownKey(key: string) {
    key in {"DTSTART", "DTEND", "SUMMARY", "LOCATION", "UID", "CATEGORIES"}
  }

  /** `DTSTART` reads a well-formed stamp into start date and `HH:MM`, and ignores anything else. */
  lemma DtStartLine(e: IcsEvent, value: string)
    ensures ApplyLine(e, "DTSTART:" + value) ==
      if IsStamp(value) then e.(startDate := Some(DateOf(value)), startTime := Some(HourMinute(value))) else e
  {
    assert "DTSTART" + ":" + value == "DTSTART:" + value;
    FirstColon("DTSTART", value);
  }

  /** `DTEND` does the same for the end date and time. */
  lemma DtEndLine(e: IcsEvent, value: string)
    ensures ApplyLine(e, "DTEND:" + value) ==
      if IsStamp(value) then e.(endDate := Some(DateOf(value)), endTime := Some(HourMinute(value))) else e
  {
    assert "DTEND" + ":" + value == "DTEND:" + value;
    FirstColon("DTEND", value);
  }

  /** Keys are compared exactly: any other key, a parameterised `DTSTART;TZID=...` among them, changes nothing. */
  lemma UnknownKeyLine(e: IcsEvent, key: string, value: string)
    requires ':' !in key && !IsKnownKey(key)
    ensures ApplyLine(e, key + ":" + value) == e
  {
    FirstColon(key, value);
  }

  /** A line without a colon changes nothing. */
  lemma NoColonLine(e: IcsEvent, line: string)
    requires ':' !in line
    ensures ApplyLine(e, line) == e
  {
  }

  /** A summary without a colon sets only the subject, to the whole value. */
  lemma SummaryWithoutColon(e: IcsEvent, value: string)
    requires ':' !in value
    ensures ApplyLine(e, "SUMMARY:" + value) == e.(przedmiot := Some(value))
  {
    assert "SUMMARY" + ":" + value == "SUMMARY:" + value;
    FirstColon("SUMMARY", value);
  }

  /** A `SUMMARY` line hands its value to the summary decoder. */
  lemma SummaryLine(e: IcsEvent, value: string)
    ensures ApplyLine(e, "SUMMARY:" + value) == ApplySummary(e, value)
  {
    assert "SUMMARY" + ":" + value == "SUMMARY:" + value;
    FirstColon("SUMMARY", value);
  }

  /**
   * A summary `head:tail` sets the teacher from `tail` without titles, and the
   * subject and type from the first bracket pair of `head`, or `head` and "";
   * no other key changes.
   */
  lemma SummaryWithColon(e: IcsEvent, head: string, tail: string)
    requires ':' !in head
    ensures var r := ApplySummary(e, head + ":" + tail);
      && r.nauczyciel == Some(StripTitles(Strip(tail)))
      && (SubjectAndType(Strip(head)).Some? ==>
            r.przedmiot == Some(SubjectAndType(Strip(head)).value.0) &&
            r.typZajec == Some(SubjectAndType(Strip(head)).value.1))
      && (SubjectAndType(Strip(head)).None? ==> r.przedmiot == Some(Strip(head)) && r.typZajec == Some(""))
      && r.(przedmiot := e.przedmiot, typZajec := e.typZajec, nauczyciel := e.nauczyciel) == e
  {
    FirstColon(head, tail);
  }

  // ---------------------------------------------------------------- the scanner

  /** One line: the new scanner state (`None` is outside a block) and what it emits. */
  function Step(event: Option<IcsEvent>, raw: string): (r: (Option<IcsEvent>, seq<IcsEvent>))
  {
    var line := Strip(raw);
    if line == "BEGIN:VEVENT" then (Some(NoFields), [])
    else if line == "END:VEVENT" then (None, if event.Some? && HasFields(event.value) then [event.value] else [])
    else if event.Some? then (Some(ApplyLine(event.value, line)), [])
    else (None, [])
  }

  /** The events the lines emit, from a given state. */
  function Scan(event: Option<IcsEvent>, lines: seq<string>): seq<IcsEvent>
    decreases |lines|
  {
    if lines == [] then []
    else
      var (next, out) := Step(event, lines[0]);
      out + Scan(next, lines[1..])
  }

  /** `parse_ics_content`: the content split at every `\n`, then scanned. */
  method ParseIcsContent(content: string) returns (events: seq<IcsEvent>)
    ensures events == Scan(None, SplitOn(content, '\n'))
  {
    events := ScanLines(SplitOn(content, '\n'));
  }

  /** The loop of `parse_ics_content` over its lines. */
  method ScanLines(lines: seq<string>) returns (events: seq<IcsEvent>)
    ensures events == Scan(None, lines)
  {
    events := [];
    var event: Option<IcsEvent> := None;
    var i := 0;
    assert lines[0..] == lines;
    while i < |lines|
      invariant 0 <= i <= |lines|
      invariant events + Scan(event, lines[i..]) == Scan(None, lines)
    {
      ScanStep(event, lines[i..]);
      assert lines[i..][1..] == lines[i + 1..];
      var next, out := ReadLine(event, lines[i]);
      Seqs.AppendAssoc(events, out, Scan(next, lines[i + 1..]));
      events := events + out;
      event := next;
      i := i + 1;
    }
  }

  /** One pass of the loop body: the event being built after `raw`, and what `raw` appends. */
  method ReadLine(event: Option<IcsEvent>, raw: string) returns (next: Option<IcsEvent>, out: seq<IcsEvent>)
    ensures (next, out) == Step(event, raw)
  {
    var line := Strip(raw);
    next, out := event, [];
    if line == "BEGIN:VEVENT" {
      next := Some(NoFields);
    } else if line == "END:VEVENT" {
      if event.Some? && HasFields(event.value) {
        out := [event.value];
      }
      next := None;
    } else if event.Some? {
      next := Some(ApplyLine(event.value, line));
    }
  }

  lemma ScanStep(event: Option<IcsEvent>, lines: seq<string>)
    requires lines != []
    ensures Scan(event, lines) == Step(event, lines[0]).1 + Scan(Step(event, lines[0]).0, lines[1..])
  {
  }

  /** Every emitted event holds at least one key: an empty block emits nothing. */
  lemma {:induction false} ScanHasFields(event: Option<IcsEvent>, lines: seq<string>)
    ensures forall k :: 0 <= k < |Scan(event, lines)| ==> HasFields(Scan(event, lines)[k])
    decreases |lines|
  {
    if lines != [] {
      var (next, out) := Step(event, lines[0]);
      ScanHasFields(next, lines[1..]);
      assert Scan(event, lines) == out + Scan(next, lines[1..]);
    }
  }

  /** Outside a block every line but `BEGIN:VEVENT` is ignored, a stray `END:VEVENT` included. */
  lemma OutsideLineIgnored(line: string, rest: seq<string>)
    requires Strip(line) != "BEGIN:VEVENT"
    ensures Scan(None, [line] + rest) == Scan(None, rest)
  {
    var all := [line] + rest;
    assert all[0] == line && all[1..] == rest;
    assert Step(None, line) == (None, []);
  }

  /** The event a block body builds from `e`, line by line. */
  function Fold(e: IcsEvent, body: seq<string>): IcsEvent
    decreases |body|
  {
    if body == [] then e
    else Fold(ApplyLine(e, Strip(body[0])), body[1..])
  }

  /** A body line: neither a block start nor a block end once stripped. */
  predicate PlainLines(body: seq<string>) {
    forall i :: 0 <= i < |body| ==> Strip(body[i]) != "BEGIN:VEVENT" && Strip(body[i]) != "END:VEVENT"
  }

  lemma {:induction false} ScanInside(e: IcsEvent, body: seq<string>, tail: seq<string>)
    requires PlainLines(body)
    ensures Scan(Some(e), body + tail) == Scan(Some(Fold(e, body)), tail)
    decreases |body|
  {
    if body != [] {
      var all := body + tail;
      assert all[1..] == body[1..] + tail;
      assert all[0] == body[0];
      var e' := ApplyLine(e, Strip(body[0]));
      assert Step(Some(e), all[0]) == (Some(e'), []);
      assert Scan(Some(e), all) == Scan(Some(e'), all[1..]);
      assert PlainLines(body[1..]) by {
        forall i | 0 <= i < |body[1..]| ensures Strip(body[1..][i]) != "BEGIN:VEVENT" && Strip(body[1..][i]) != "END:VEVENT" {
          assert body[1..][i] == body[i + 1];
        }
      }
      ScanInside(e', body[1..], tail);
    } else {
      assert body + tail == tail;
    }
  }

  /**
   * A block emits the event its body builds iff that event holds a key, and
   * the scan then goes on outside a block.
   */
  lemma Block(begin: string, body: seq<string>, end: string, rest: seq<string>)
    requires Strip(begin) == "BEGIN:VEVENT" && Strip(end) == "END:VEVENT" && PlainLines(body)
    ensures Scan(None, [begin] + body + [end] + rest) ==
      (if HasFields(Fold(NoFields, body)) then [Fold(NoFields, body)] else []) + Scan(None, rest)
  {
    var tail := [end] + rest;
    var all := [begin] + (body + tail);
    assert [begin] + body + [end] + rest == all by {
      Seqs.AppendAssoc([begin] + body, [end], rest);
      Seqs.AppendAssoc([begin], body, tail);
    }
    assert all[0] == begin && all[1..] == body + tail;
    assert Step(None, begin) == (Some(NoFields), []);
    assert Scan(None, all) == Scan(Some(NoFields), body + tail);
    ScanInside(NoFields, body, tail);
    var e := Fold(NoFields, body);
    assert Scan(Some(e), tail) == Step(Some(e), end).1 + Scan(None, rest) by {
      assert tail[0] == end && tail[1..] == rest;
    }
  }

  // ---------------------------------------------------------------- database shape

  /** The stored shape; `nauczyciel` is the `{'imie_nazwisko': ...}` sub-record when present. */
  datatype DbEvent = DbEvent(
    przedmiot: string, rz: string, miejsce: string, od: string, do_: string,
    terminy: string, nauczyciel: Option<string>)

  function GetOr(o: Option<string>): string {
    o.GetOr("")
  }

  /** `format_event_for_db`. */
  function FormatEventForDb(e: IcsEvent): (r: DbEvent)
    ensures e.typZajec.Some? ==> r.rz == e.typZajec.value
    ensures e.typZajec.None? ==> r.rz == GetOr(e.kategoria)
    ensures r.nauczyciel.Some? <==> e.nauczyciel.Some?
    ensures r.nauczyciel.Some? ==> r.nauczyciel.value == e.nauczyciel.value
  {
    DbEvent(
      GetOr(e.przedmiot),
      if e.typZajec.Some? then e.typZajec.value else GetOr(e.kategoria),
      GetOr(e.miejsce), GetOr(e.startTime), GetOr(e.endTime),
      GetOr(e.startDate) + " " + GetOr(e.startTime) + "-" + GetOr(e.endTime),
      e.nauczyciel)
  }

  /**
   * For an event read from well-formed stamps, `terminy` gives back the start
   * date and the two times at fixed places.
   */
  lemma TerminyOfStamps(e: IcsEvent, start: string, end: string)
    requires IsStamp(start) && IsStamp(end)
    requires e.startDate == Some(DateOf(start)) && e.startTime == Some(HourMinute(start))
    requires e.endTime == Some(HourMinute(end))
    ensures var t := FormatEventForDb(e).terminy;
      |t| == 22 && t[..10] == DateOf(start) && t[10] == ' ' && t[11..16] == HourMinute(start) &&
      t[16] == '-' && t[17..] == HourMinute(end)
  {
  }

  /** A type key that is present wins over the category, even when it is "". */
  lemma TypeKeyWins(e: IcsEvent)
    requires e.typZajec == Some("") && e.kategoria.Some?
    ensures FormatEventForDb(e).rz == ""
  {
  }
}

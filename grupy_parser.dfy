/**
 * `parsers/grupy_parser.py`: the events of a group's calendar, decoded from
 * their SUMMARY with two regular expressions, the semester named in a group
 * page's header, and the group records of a course page.
 *
 * The regular expressions are modelled by matchers written out by hand. Each
 * has a predicate that states the language the pattern accepts at a position
 * (`TypeShape`, `PgShape`, `PgFragment`, `SemesterShape`), and the matcher's
 * contract says which match `re.search` reports: the leftmost start and, at
 * that start, the choice the greedy or lazy quantifiers make.
 */
module GrupyParser {
  import opened Wrappers
  import opened Text
  import Seqs
  import Labels

  // ------------------------------------------------ \(([^():]+)\):\s+(.+)

  /** The characters `[^():]` excludes. */
  const TypeStop: set<char> := {'(', ')', ':'}

  /**
   * `\(([^():]+)\):\s+.` matches at `p`: an opening bracket, a non-empty run
   * free of `(`, `)` and `:` up to the closing bracket at `c`, a colon,
   * whitespace up to `t`, and at `t` a character that `.` matches.
   */
  predicate TypeShape(s: string, p: nat, c: nat, t: nat) {
    && p + 1 < c && c + 2 < t < |s|
    && s[p] == '(' && (forall j :: p < j < c ==> s[j] !in TypeStop)
    && s[c] == ')' && s[c + 1] == ':'
    && (forall j :: c + 2 <= j < t ==> IsSpace(s[j]))
    && s[t] != '\n'
  }

  /** A match of the pattern: the bracket positions and where group 2 starts. */
  datatype TypeMatch = TypeMatch(open: nat, close: nat, teacher: nat)

  /** The largest `k` in `[lo, hi]` with `s[k]` a character other than a newline. */
  function LastLineChar(s: string, lo: nat, hi: nat): (r: Option<nat>)
    decreases hi
    ensures r.Some? ==> lo <= r.value <= hi && r.value < |s| && s[r.value] != '\n'
    ensures r.Some? ==> forall k :: r.value < k <= hi && k < |s| ==> s[k] == '\n'
    ensures r.None? ==> forall k :: lo <= k <= hi && k < |s| ==> s[k] == '\n'
  {
    if hi < lo then None
    else if hi < |s| && s[hi] != '\n' then Some(hi)
    else if hi == 0 then None
    else LastLineChar(s, lo, hi - 1)
  }

  /**
   * The match at `p`. The run `[^():]+` is maximal and must end at `)`;
   * `\s+` first takes all the whitespace and gives characters back, from the
   * right, until `.+` can start: group 2 starts at the largest `t` possible.
   */
  function TypeMatchAt(s: string, p: nat): (r: Option<TypeMatch>)
    ensures r.Some? ==> r.value.open == p && TypeShape(s, p, r.value.close, r.value.teacher)
    ensures r.Some? ==> forall t: nat :: TypeShape(s, p, r.value.close, t) ==> t <= r.value.teacher
    ensures r.None? ==> forall c: nat, t: nat :: !TypeShape(s, p, c, t)
  {
    if p + 1 < |s| && s[p] == '(' then
      var c := RunEnd(s, p + 1, TypeStop);
      if p + 1 < c && c + 2 < |s| && s[c] == ')' && s[c + 1] == ':' && IsSpace(s[c + 2]) then
        var e := SpaceEnd(s, c + 2);
        match LastLineChar(s, c + 3, e)
        case None => None
        case Some(t) => Some(TypeMatch(p, c, t))
      else None
    else None
  }

  /** `re.search` from `from`: the leftmost position where the pattern matches. */
  function TypeMatchFrom(s: string, from: nat): (r: Option<TypeMatch>)
    decreases |s| - from
    ensures r.Some? ==> from <= r.value.open && TypeMatchAt(s, r.value.open) == r
    ensures r.Some? ==> forall j: nat, c: nat, t: nat :: from <= j < r.value.open ==> !TypeShape(s, j, c, t)
    ensures r.None? ==> forall j: nat, c: nat, t: nat :: from <= j ==> !TypeShape(s, j, c, t)
  {
    if from >= |s| then None
    else
      match TypeMatchAt(s, from)
      case Some(m) => Some(m)
      case None => TypeMatchFrom(s, from + 1)
  }

  /** What the leftmost match is, in terms of the pattern's language alone. */
  ghost predicate FirstTypeMatch(s: string, p: nat, c: nat, t: nat) {
    && TypeShape(s, p, c, t)
    && (forall p': nat, c': nat, t': nat :: p' < p ==> !TypeShape(s, p', c', t'))
    && (forall t': nat :: TypeShape(s, p, c, t') ==> t' <= t)
  }

  /** The closing bracket of a match is determined by its opening bracket. */
  lemma {:induction false} TypeCloseUnique(s: string, p: nat, c: nat, t: nat, c': nat, t': nat)
    requires TypeShape(s, p, c, t) && TypeShape(s, p, c', t')
    ensures c == c'
  {
  }

  // ------------------------------------------------ \(PG:\s*([^)]+)\)

  /**
   * `\(PG:\s*([^)]+)\)` matches at `p`: `(PG:`, at least one character, and
   * the first `)` after it at `c`. Whitespace is not `)`, so however `\s*`
   * splits the text, the group is `s[p + 4..c]` up to leading whitespace.
   */
  predicate PgShape(s: string, p: nat, c: nat) {
    OccursAt(s, "(PG:", p) && p + 4 < c < |s| && s[c] == ')'
    && forall j :: p + 4 <= j < c ==> s[j] != ')'
  }

  datatype PgMatch = PgMatch(open: nat, close: nat)

  function PgCloseAt(s: string, p: nat): (r: Option<nat>)
    ensures r.Some? ==> PgShape(s, p, r.value)
    ensures r.None? ==> forall c: nat :: !PgShape(s, p, c)
  {
    if OccursAt(s, "(PG:", p) then
      var c := RunEnd(s, p + 4, {')'});
      if p + 4 < c < |s| then Some(c) else None
    else None
  }

  /** `re.search` for the subgroup marker: its leftmost match. */
  function PgMatchFrom(s: string, from: nat): (r: Option<PgMatch>)
    decreases |s| - from
    ensures r.Some? ==> from <= r.value.open && PgShape(s, r.value.open, r.value.close)
    ensures r.Some? ==> forall j: nat, c: nat :: from <= j < r.value.open ==> !PgShape(s, j, c)
    ensures r.None? ==> forall j: nat, c: nat :: from <= j ==> !PgShape(s, j, c)
  {
    if from >= |s| then None
    else
      match PgCloseAt(s, from)
      case Some(c) => Some(PgMatch(from, c))
      case None => PgMatchFrom(s, from + 1)
  }

  // ------------------------------------------------ re.sub(r"\(PG:.*?\)", "", t)

  /**
   * `\(PG:.*?\)` matches at the start of `t` and ends at `c`: the lazy `.*?`
   * stops at the first `)`, and cannot cross a newline.
   */
  predicate PgFragment(t: string, c: nat) {
    OccursAt(t, "(PG:", 0) && 4 <= c < |t| && t[c] == ')'
    && forall j :: 4 <= j < c ==> t[j] != ')' && t[j] != '\n'
  }

  function PgFragmentEnd(t: string): (r: Option<nat>)
    ensures r.Some? ==> PgFragment(t, r.value)
    ensures r.None? ==> forall c: nat :: !PgFragment(t, c)
  {
    if OccursAt(t, "(PG:", 0) then
      var c := RunEnd(t, 4, {')', '\n'});
      if c < |t| && t[c] == ')' then Some(c) else None
    else None
  }

  /** `re.sub`: every match, scanning left to right, is deleted; the scan resumes after it. */
  function RemovePg(t: string): (r: string)
    decreases |t|
    ensures |r| <= |t|
  {
    if t == [] then []
    else
      match PgFragmentEnd(t)
      case Some(c) => RemovePg(t[c + 1..])
      case None => [t[0]] + RemovePg(t[1..])
  }

  /** A text without `(PG:` is left as it is. */
  lemma {:induction false} RemovePgNoMarker(t: string)
    requires !Contains(t, "(PG:")
    ensures RemovePg(t) == t
    decreases |t|
  {
    if t != [] {
      assert !OccursAt(t, "(PG:", 0) by {
        if OccursAt(t, "(PG:", 0) {
          ContainsAt(t, "(PG:", 0);
        }
      }
      assert PgFragmentEnd(t).None?;
      assert !Contains(t[1..], "(PG:") by {
        if Contains(t[1..], "(PG:") {
          assert t[1..] == t[1..|t|];
          ContainsInfix(t, 1, |t|, "(PG:");
        }
      }
      RemovePgNoMarker(t[1..]);
      assert RemovePg(t) == [t[0]] + RemovePg(t[1..]);
      assert t == [t[0]] + t[1..];
    }
  }

  /** A marker at the front is deleted up to its closing bracket, and the rest is cleaned on its own. */
  lemma {:induction false} RemovePgFragment(x: string, b: string)
    requires forall j :: 0 <= j < |x| ==> x[j] != ')' && x[j] != '\n'
    ensures RemovePg("(PG:" + x + ")" + b) == RemovePg(b)
  {
    var t := "(PG:" + x + ")" + b;
    assert t[..4] == "(PG:";
    forall j | 4 <= j < 4 + |x| ensures t[j] != ')' && t[j] != '\n' {
      assert t[j] == x[j - 4];
    }
    assert PgFragment(t, 4 + |x|);
    assert PgFragmentEnd(t) == Some(4 + |x|);
    assert t[4 + |x| + 1..] == b;
  }

  /** The cleaned text keeps the characters it keeps in order: it is a subsequence. */
  lemma {:induction false} RemovePgSubseq(t: string)
    ensures Seqs.Subseq(RemovePg(t), t)
    decreases |t|
  {
    if t != [] {
      match PgFragmentEnd(t)
      case Some(c) =>
        RemovePgSubseq(t[c + 1..]);
        DropPrefixSubseq(RemovePg(t[c + 1..]), t, c + 1);
      case None =>
        RemovePgSubseq(t[1..]);
        assert ([t[0]] + RemovePg(t[1..]))[1..] == RemovePg(t[1..]);
    }
  }

  /** A subsequence of a suffix is a subsequence of the whole. */
  lemma {:induction false} DropPrefixSubseq(a: string, t: string, k: nat)
    requires k <= |t| && Seqs.Subseq(a, t[k..])
    ensures Seqs.Subseq(a, t)
    decreases k
  {
    if k > 0 {
      assert t[1..][k - 1..] == t[k..];
      DropPrefixSubseq(a, t[1..], k - 1);
      Seqs.SubseqDrop(a, t[1..], t[0]);
      assert [t[0]] + t[1..] == t;
    }
  }

  // ------------------------------------------------ the SUMMARY of one event

  /** The default subgroup, for an event of the whole course. */
  const NoSubgroup: string := "CAŁY KIERUNEK"

  /** The subject, the class type (`rz`), the teacher and the subgroup of an event. */
  datatype SummaryParts = SummaryParts(przedmiot: string, rz: Option<string>, nauczyciel: Option<string>, pg: string)

  /** What `.+` takes from `t`: the rest of the line. */
  function LineFrom(s: string, t: nat): string
    requires t <= |s|
  {
    s[t..RunEnd(s, t, {'\n'})]
  }

  /**
   * The text before the leftmost match and the two groups, unstripped; None
   * when the pattern matches nowhere.
   */
  function TypeGroups(s: string): Option<TypeGroup> {
    match TypeMatchFrom(s, 0)
    case None => None
    case Some(m) => Some(TypeGroup(s[..m.open], s[m.open + 1..m.close], LineFrom(s, m.teacher)))
  }

  datatype TypeGroup = TypeGroup(before: string, rz: string, teacher: string)

  /** The first regex: subject, type and teacher; the subgroup is still the default. */
  function TypeParts(s: string): (r: SummaryParts)
    ensures r.pg == NoSubgroup
    ensures r.rz.None? ==> r.przedmiot == Strip(s) && r.nauczyciel.None?
    ensures r.rz.Some? <==> r.nauczyciel.Some?
  {
    match TypeGroups(s)
    case None => SummaryParts(Strip(s), None, None, NoSubgroup)
    case Some(g) => SummaryParts(Strip(g.before), Some(Strip(g.rz)), Some(Strip(g.teacher)), NoSubgroup)
  }

  /** There is a type and a teacher iff the pattern matches somewhere. */
  lemma TypePartsMatchIff(s: string)
    ensures TypeParts(s).rz.None? <==> forall p: nat, c: nat, t: nat :: !TypeShape(s, p, c, t)
  {
    var m := TypeMatchFrom(s, 0);
    if m.Some? {
      assert TypeShape(s, m.value.open, m.value.close, m.value.teacher);
    }
  }

  /** The groups come from the leftmost match, with group 2 starting where the backtracking leaves it. */
  lemma {:induction false} TypeGroupsAt(s: string, p: nat, c: nat, t: nat)
    requires FirstTypeMatch(s, p, c, t)
    ensures TypeGroups(s) == Some(TypeGroup(s[..p], s[p + 1..c], LineFrom(s, t)))
  {
    var m := TypeMatchFrom(s, 0);
    assert TypeMatchAt(s, p).Some?;
    assert m.Some?;
    assert m.value.open == p;
    TypeCloseUnique(s, p, c, t, m.value.close, m.value.teacher);
    assert m.value.teacher == t;
  }

  /**
   * `subject (T): teacher`: with no bracket before it, a type free of `(`,
   * `)` and `:`, one space and a one-line teacher starting with a visible
   * character, the three parts are the stripped pieces.
   */
  lemma {:induction false} TypedSummary(a: string, x: string, teacher: string)
    requires '(' !in a
    requires x != [] && forall j :: 0 <= j < |x| ==> x[j] !in TypeStop
    requires teacher != [] && !IsSpace(teacher[0]) && '\n' !in teacher
    ensures TypeParts(a + "(" + x + "): " + teacher) ==
      SummaryParts(Strip(a), Some(Strip(x)), Some(Strip(teacher)), NoSubgroup)
  {
    TypedGroups(a, x, teacher);
  }

  lemma {:induction false} TypedGroups(a: string, x: string, teacher: string)
    requires '(' !in a
    requires x != [] && forall j :: 0 <= j < |x| ==> x[j] !in TypeStop
    requires teacher != [] && !IsSpace(teacher[0]) && '\n' !in teacher
    ensures TypeGroups(a + "(" + x + "): " + teacher) == Some(TypeGroup(a, x, teacher))
  {
    var s := a + "(" + x + "): " + teacher;
    var p, c := |a|, |a| + 1 + |x|;
    assert s[..p] == a && s[p] == '(' && s[p + 1..c] == x;
    assert s[c] == ')' && s[c + 1] == ':' && s[c + 2] == ' ';
    assert s[c + 3..] == teacher;
    forall j | p < j < c ensures s[j] !in TypeStop {
      assert s[j] == x[j - p - 1];
    }
    TypedGroupsAt(s, p, c);
  }

  /** `TypedGroups` on the positions of one string. */
  lemma {:induction false} TypedGroupsAt(s: string, p: nat, c: nat)
    requires p + 1 < c && c + 3 < |s|
    requires '(' !in s[..p] && s[p] == '(' && forall j :: p < j < c ==> s[j] !in TypeStop
    requires s[c] == ')' && s[c + 1] == ':' && s[c + 2] == ' ' && !IsSpace(s[c + 3]) && '\n' !in s[c + 3..]
    ensures TypeGroups(s) == Some(TypeGroup(s[..p], s[p + 1..c], s[c + 3..]))
  {
    FirstTypeMatchAt(s, p, c);
    TypeGroupsAt(s, p, c, c + 3);
    LineFromLast(s, c + 3);
  }

  /** On the last line, `.+` takes everything. */
  lemma {:induction false} LineFromLast(s: string, t: nat)
    requires t <= |s| && '\n' !in s[t..]
    ensures LineFrom(s, t) == s[t..]
  {
  }

  /** At a bracket with nothing bracketed before it, a type pattern with one space after the colon is the leftmost match. */
  lemma {:induction false} FirstTypeMatchAt(s: string, p: nat, c: nat)
    requires p + 1 < c && c + 3 < |s|
    requires '(' !in s[..p] && s[p] == '(' && forall j :: p < j < c ==> s[j] !in TypeStop
    requires s[c] == ')' && s[c + 1] == ':' && s[c + 2] == ' ' && !IsSpace(s[c + 3])
    ensures FirstTypeMatch(s, p, c, c + 3)
  {
    assert TypeShape(s, p, c, c + 3);
    forall p': nat, c': nat, t': nat | p' < p ensures !TypeShape(s, p', c', t') {
      assert s[p'] == s[..p][p'];
    }
    forall t': nat | TypeShape(s, p, c, t') ensures t' <= c + 3 {
    }
  }

  /**
   * `parse_ics`'s decoding of one SUMMARY: the first regex, then the
   * subgroup. A subgroup marker sets `pg` and cleans the teacher, which
   * becomes None when it is empty or absent.
   */
  function DecodeSummary(s: string): (r: SummaryParts)
    ensures r.przedmiot == TypeParts(s).przedmiot && r.rz == TypeParts(s).rz
    ensures (forall p: nat, c: nat :: !PgShape(s, p, c)) ==> r == TypeParts(s)
    ensures TypeParts(s).nauczyciel.None? ==> r.nauczyciel.None?
  {
    var base := TypeParts(s);
    match PgMatchFrom(s, 0)
    case None => base
    case Some(m) =>
      assert PgShape(s, m.open, m.close);
      var nauczyciel :=
        if base.nauczyciel.Some? && base.nauczyciel.value != "" then Some(Strip(RemovePg(base.nauczyciel.value)))
        else None;
      base.(nauczyciel := nauczyciel, pg := Strip(s[m.open + 4..m.close]))
  }

  /** With a marker, `pg` is the stripped text of the leftmost marker and the teacher is cleaned of all markers. */
  lemma {:induction false} PgSubgroup(s: string, p: nat, c: nat)
    requires PgShape(s, p, c) && forall p': nat, c': nat :: p' < p ==> !PgShape(s, p', c')
    ensures DecodeSummary(s).pg == Strip(s[p + 4..c])
    ensures var n := TypeParts(s).nauczyciel;
      DecodeSummary(s).nauczyciel == if n.Some? && n.value != "" then Some(Strip(RemovePg(n.value))) else None
  {
    var m := PgMatchFrom(s, 0);
    assert m.Some?;
    assert m.value.open == p;
    assert m.value.close == c;
  }

  // ------------------------------------------------ parse_ics

  /** What `cal.walk()` yields for one component: its name and the properties read from it. */
  datatype Component = Component(name: string, summary: string, start: string, end: string, location: Option<string>)

  /** One event dict; `grupaId` is None when the key is absent. */
  datatype GroupEvent = GroupEvent(
    przedmiot: string, rz: Option<string>, nauczyciel: Option<string>, pg: string,
    od: string, do_: string, miejsce: Option<string>, grupaId: Option<string>)

  predicate IsVEvent(c: Component) {
    c.name == "VEVENT"
  }

  function EventOf(c: Component, grupaId: Option<string>): GroupEvent {
    var d := DecodeSummary(c.summary);
    GroupEvent(d.przedmiot, d.rz, d.nauczyciel, d.pg, c.start, c.end, c.location, grupaId)
  }

  /** The events of the components, in order. */
  function Events(cs: seq<Component>, grupaId: Option<string>): seq<GroupEvent> {
    if cs == [] then []
    else
      var last := cs[|cs| - 1];
      Events(cs[..|cs| - 1], grupaId) + (if IsVEvent(last) then [EventOf(last, grupaId)] else [])
  }

  method ParseIcs(components: seq<Component>, grupaId: Option<string>) returns (events: seq<GroupEvent>)
    ensures events == Events(components, grupaId)
  {
    events := [];
    for i := 0 to |components|
      invariant events == Events(components[..i], grupaId)
    {
      var component := components[i];
      assert components[..i + 1][..i] == components[..i];
      if component.name != "VEVENT" {
        continue;
      }
      events := events + [EventOf(component, grupaId)];
    }
    assert components[..|components|] == components;
  }

  /**
   * Exactly one event per VEVENT, in order, each decoded from its own
   * component and carrying `grupa_id` iff one was passed.
   */
  lemma {:induction false} EventsPerVEvent(cs: seq<Component>, grupaId: Option<string>)
    ensures |Events(cs, grupaId)| == |Seqs.Filter(cs, IsVEvent)|
    ensures forall k :: 0 <= k < |Seqs.Filter(cs, IsVEvent)| ==>
      Events(cs, grupaId)[k] == EventOf(Seqs.Filter(cs, IsVEvent)[k], grupaId)
  {
    if cs != [] {
      var init, last := cs[..|cs| - 1], cs[|cs| - 1];
      assert cs == init + [last];
      EventsPerVEvent(init, grupaId);
      Seqs.FilterAppend(init, last, IsVEvent);
      var vs, es := Seqs.Filter(cs, IsVEvent), Events(cs, grupaId);
      var vs0, es0 := Seqs.Filter(init, IsVEvent), Events(init, grupaId);
      assert es == es0 + (if IsVEvent(last) then [EventOf(last, grupaId)] else []);
      assert vs == vs0 + (if IsVEvent(last) then [last] else []);
      forall k | 0 <= k < |vs| ensures es[k] == EventOf(vs[k], grupaId) {
        if k < |vs0| {
          assert es[k] == es0[k] && vs[k] == vs0[k];
        }
      }
    }
  }

  /** Every event carries the `grupa_id` passed in (None: the key is absent). */
  lemma EventsGrupaId(cs: seq<Component>, grupaId: Option<string>, k: nat)
    requires k < |Events(cs, grupaId)|
    ensures Events(cs, grupaId)[k].grupaId == grupaId
  {
    EventsPerVEvent(cs, grupaId);
  }

  // ------------------------------------------------ fetch_grupa_semestr

  /** `\d{4}/\d{4}` at `i`. */
  predicate YearAt(t: string, i: nat) {
    i + 9 <= |t| && AllDigits(t[i..i + 4]) && t[i + 4] == '/' && AllDigits(t[i + 5..i + 9])
  }

  /** The alternation `(letni|zimowy)` at `k`, tried in that order. */
  function KindAt(t: string, k: nat): (r: Option<string>)
    ensures r.Some? ==> (r.value == "letni" || r.value == "zimowy") && OccursAt(t, r.value, k)
    ensures r.None? ==> !OccursAt(t, "letni", k) && !OccursAt(t, "zimowy", k)
  {
    if OccursAt(t, "letni", k) then Some("letni")
    else if OccursAt(t, "zimowy", k) then Some("zimowy")
    else None
  }

  /**
   * `semestr\s+(letni|zimowy)\s+(\d{4}/\d{4})` matches at `p`, with the
   * kind at `k` and the year at `y`. Neither a kind nor a year starts with
   * whitespace, so both `\s+` are maximal and the match is unique.
   */
  predicate SemesterShape(t: string, p: nat, k: nat, y: nat) {
    && OccursAt(t, "semestr", p) && p + 7 < k && YearAt(t, y)
    && KindAt(t, k).Some? && k + |KindAt(t, k).value| < y
    && (forall j :: p + 7 <= j < k ==> IsSpace(t[j]))
    && (forall j :: k + |KindAt(t, k).value| <= j < y ==> IsSpace(t[j]))
  }

  /** The whitespace runs of a match are maximal, so a match at `p` has one kind position and one year position. */
  lemma SemesterShapeCanonical(t: string, p: nat)
    requires p + 7 <= |t|
    ensures forall k: nat, y: nat :: SemesterShape(t, p, k, y) ==>
      k == SpaceEnd(t, p + 7) && y == SpaceEnd(t, k + |KindAt(t, k).value|)
  {
    forall k: nat, y: nat | SemesterShape(t, p, k, y)
      ensures k == SpaceEnd(t, p + 7) && y == SpaceEnd(t, k + |KindAt(t, k).value|)
    {
      assert !IsSpace(t[k]) by { assert t[k] == KindAt(t, k).value[0]; }
      assert !IsSpace(t[y]) by { assert IsDigit(t[y..y + 4][0]); }
    }
  }

  /** The match at `p`, as `f"{semester_type} {academic_year}"`. */
  function SemesterAt(t: string, p: nat): (r: Option<string>)
    ensures r.Some? ==> exists k: nat, y: nat :: SemesterShape(t, p, k, y) && r.value == KindAt(t, k).value + " " + t[y..y + 9]
    ensures r.Some? ==> StartsWith(r.value, "letni ") || StartsWith(r.value, "zimowy ")
    ensures r.None? ==> forall k: nat, y: nat :: !SemesterShape(t, p, k, y)
  {
    if OccursAt(t, "semestr", p) then
      SemesterShapeCanonical(t, p);
      var k := SpaceEnd(t, p + 7);
      match KindAt(t, k)
      case None => None
      case Some(kind) => SemesterAfterKind(t, p, k, kind)
    else None
  }

  /** The rest of the match once the kind is found at `k`. */
  function SemesterAfterKind(t: string, p: nat, k: nat, kind: string): (r: Option<string>)
    requires p + 7 <= |t| && k == SpaceEnd(t, p + 7) && OccursAt(t, "semestr", p) && KindAt(t, k) == Some(kind)
    requires forall k': nat, y: nat :: SemesterShape(t, p, k', y) ==> k' == k && y == SpaceEnd(t, k + |kind|)
    ensures r.Some? ==> exists y: nat :: SemesterShape(t, p, k, y) && r.value == kind + " " + t[y..y + 9]
    ensures r.Some? ==> StartsWith(r.value, kind + " ")
    ensures r.None? ==> forall k': nat, y: nat :: !SemesterShape(t, p, k', y)
  {
    var y := SpaceEnd(t, k + |kind|);
    if p + 7 < k && k + |kind| < y && YearAt(t, y) then
      assert SemesterShape(t, p, k, y);
      var v := kind + " " + t[y..y + 9];
      assert v[..|kind| + 1] == kind + " ";
      Some(v)
    else None
  }

  /** `re.search`: the leftmost match. */
  function SemesterFrom(t: string, from: nat): (r: Option<string>)
    decreases |t| - from
    ensures r.Some? ==> StartsWith(r.value, "letni ") || StartsWith(r.value, "zimowy ")
    ensures r.None? ==> forall p: nat, k: nat, y: nat :: from <= p ==> !SemesterShape(t, p, k, y)
  {
    if from >= |t| then None
    else
      match SemesterAt(t, from)
      case Some(v) => Some(v)
      case None => SemesterFrom(t, from + 1)
  }

  /** `re.search(r'(\d{4}/\d{4})', text)`: the leftmost year, or "" when there is none. */
  function FirstYear(t: string, from: nat): (r: string)
    decreases |t| - from
    ensures r == [] || (|r| == 9 && YearAt(r, 0) && exists i: nat :: from <= i && YearAt(t, i) && r == t[i..i + 9])
    ensures r == [] <==> forall i: nat :: from <= i ==> !YearAt(t, i)
  {
    if from + 9 > |t| then []
    else if YearAt(t, from) then
      var r := t[from..from + 9];
      assert r[0..4] == t[from..from + 4] && r[5..9] == t[from + 5..from + 9];
      r
    else FirstYear(t, from + 1)
  }

  /** A kind followed by the year found, or the kind alone when there is no year. */
  function Labelled(kind: string, year: string): string {
    if year == [] then kind else kind + " " + year
  }

  /**
   * The semester named in a lower-cased header: the full pattern if it
   * matches; else "letni" if "semestr letni" occurs (tried first), else
   * "zimowy" if "semestr zimowy" occurs, each with the first year anywhere
   * in the text; else "nieznany".
   */
  function SemestrZTekstu(text: string): (r: string)
    ensures SemesterFrom(text, 0).Some? ==> r == SemesterFrom(text, 0).value
    ensures SemesterFrom(text, 0).None? && Contains(text, "semestr letni") ==> r == Labelled("letni", FirstYear(text, 0))
    ensures SemesterFrom(text, 0).None? && !Contains(text, "semestr letni") && Contains(text, "semestr zimowy") ==>
      r == Labelled("zimowy", FirstYear(text, 0))
    ensures r == "nieznany" <==>
      SemesterFrom(text, 0).None? && !Contains(text, "semestr letni") && !Contains(text, "semestr zimowy")
  {
    match SemesterFrom(text, 0)
    case Some(v) =>
      assert v[0] == 'l' || v[0] == 'z' by {
        if StartsWith(v, "letni ") { assert v[..6][0] == v[0]; } else { assert v[..7][0] == v[0]; }
      }
      v
    case None =>
      var kind := if Contains(text, "semestr letni") then Some("letni")
        else if Contains(text, "semestr zimowy") then Some("zimowy")
        else None;
      match kind
      case None => "nieznany"
      case Some(k) =>
        var year := FirstYear(text, 0);
        KindYearStrip(k, year);
        Strip(k + " " + year)
  }

  /** `f"{kind} {year}".strip()` for a kind and a year that is empty or starts and ends with a digit. */
  lemma KindYearStrip(kind: string, year: string)
    requires kind == "letni" || kind == "zimowy"
    requires year == [] || (|year| == 9 && YearAt(year, 0))
    ensures Strip(kind + " " + year) == Labelled(kind, year)
  {
    if year == [] {
      assert kind + " " + year == kind + " ";
      StripSpaceAfter(kind);
    } else {
      var s := kind + " " + year;
      assert IsDigit(year[0..4][0]) && IsDigit(year[5..9][3]);
      assert s[0] == kind[0] && s[|s| - 1] == year[8];
      StripUnpadded(s);
    }
  }

  /** What the group's page gives: nothing (an empty or failed response), or the text of its first `h3`, if any. */
  datatype GroupPage = NoPage | Page(firstH3: Option<string>)

  /** `fetch_grupa_semestr`, on what the page gives. */
  function FetchGrupaSemestr(page: GroupPage): (r: string)
    ensures page.NoPage? || page.firstH3.None? || page.firstH3 == Some("") ==> r == "nieznany"
    ensures page.Page? && page.firstH3.Some? && page.firstH3.value != "" ==> r == SemestrZTekstu(Lower(page.firstH3.value))
  {
    match page
    case NoPage => "nieznany"
    case Page(None) => "nieznany"
    case Page(Some(h3)) => if h3 == "" then "nieznany" else SemestrZTekstu(Lower(h3))
  }

  /**
   * A header `... semestr <kind> <year> ...`, with one space on each side of
   * the kind and no match earlier in the text, names that kind and year.
   */
  lemma SemesterHeader(a: string, kind: string, year: string, b: string)
    requires kind == "letni" || kind == "zimowy"
    requires YearAt(year, 0) && |year| == 9
    requires var t := a + "semestr " + kind + " " + year + b;
      forall p: nat, k: nat, y: nat :: p < |a| ==> !SemesterShape(t, p, k, y)
    ensures SemestrZTekstu(a + "semestr " + kind + " " + year + b) == kind + " " + year
  {
    var t := a + "semestr " + kind + " " + year + b;
    var p, k := |a|, |a| + 8;
    var y := k + |kind| + 1;
    assert t[p..p + 7] == "semestr" && t[p + 7] == ' ';
    assert t[k..k + |kind|] == kind && t[k + |kind|] == ' ';
    assert t[y..y + 9] == year;
    SemesterAtPositions(t, p, kind, year);
    SemesterFromAt(t, 0, p);
  }

  /** The match at `p` when `t` holds `semestr <kind> <year>` there, with single spaces. */
  lemma SemesterAtPositions(t: string, p: nat, kind: string, year: string)
    requires kind == "letni" || kind == "zimowy"
    requires YearAt(year, 0) && |year| == 9
    requires p + 8 + |kind| + 1 + 9 <= |t|
    requires t[p..p + 7] == "semestr" && t[p + 7] == ' '
    requires t[p + 8..p + 8 + |kind|] == kind && t[p + 8 + |kind|] == ' '
    requires t[p + 9 + |kind|..p + 18 + |kind|] == year
    ensures SemesterAt(t, p) == Some(kind + " " + year)
  {
    var k := p + 8;
    var y := k + |kind| + 1;
    KindPosition(t, p, kind);
    YearPosition(t, y, year);
    assert t[y - 1] == ' ';
    assert SpaceEnd(t, y - 1) == y;
  }

  lemma KindPosition(t: string, p: nat, kind: string)
    requires kind == "letni" || kind == "zimowy"
    requires p + 8 + |kind| <= |t|
    requires t[p..p + 7] == "semestr" && t[p + 7] == ' '
    requires t[p + 8..p + 8 + |kind|] == kind
    ensures OccursAt(t, "semestr", p) && SpaceEnd(t, p + 7) == p + 8
    ensures KindAt(t, p + 8) == Some(kind)
  {
    assert t[p + 8] == kind[0];
    assert SpaceEnd(t, p + 8) == p + 8;
    if kind == "zimowy" {
      assert t[p + 8..p + 13][0] == 'z';
    }
  }

  lemma YearPosition(t: string, y: nat, year: string)
    requires YearAt(year, 0) && |year| == 9
    requires y + 9 <= |t| && t[y..y + 9] == year
    ensures YearAt(t, y) && !IsSpace(t[y])
  {
    assert t[y..y + 4] == year[0..4] && t[y + 5..y + 9] == year[5..9];
    assert t[y] == year[0..4][0];
  }

  /** With no match before `p`, the search reports the match at `p`. */
  lemma {:induction false} SemesterFromAt(t: string, from: nat, p: nat)
    requires from <= p && SemesterAt(t, p).Some?
    requires forall p': nat, k: nat, y: nat :: from <= p' < p ==> !SemesterShape(t, p', k, y)
    ensures SemesterFrom(t, from) == SemesterAt(t, p)
    decreases p - from
  {
    if from < p {
      SemesterAtNone(t, from);
      SemesterFromAt(t, from + 1, p);
    } else {
      assert OccursAt(t, "semestr", p) by { SemesterAtOccurs(t, p); }
    }
  }

  lemma SemesterAtNone(t: string, p: nat)
    requires forall k: nat, y: nat :: !SemesterShape(t, p, k, y)
    ensures SemesterAt(t, p).None?
  {
  }

  lemma SemesterAtOccurs(t: string, p: nat)
    requires SemesterAt(t, p).Some?
    ensures OccursAt(t, "semestr", p)
  {
  }

  // ------------------------------------------------------- parse_grupy

  /** `kod_grupy`: the part of the link text before its first space, stripped. */
  function KodGrupy(nazwa: string): (r: string)
    ensures ' ' !in r
    ensures ' ' !in nazwa ==> r == Strip(nazwa)
  {
    var head := Before(nazwa, " ");
    BeforeLacks(nazwa, ' ');
    FindSingle(nazwa, ' ');
    StripLacks(head, ' ');
    Strip(head)
  }

  /** A name starting with a code and a space has that code. */
  lemma KodGrupyOfCode(code: string, rest: string)
    requires code != [] && NoSpace(code)
    ensures KodGrupy(code + " " + rest) == code
  {
    var s := code + " " + rest;
    assert s[|code|..|code| + 1] == " ";
    FindAfterLacking(s, " ", |code|);
    assert s[..|code|] == code;
    StripUnpadded(code);
  }

  /** `tryb_studiow`: the second `/`-separated part of the name, stripped, or "nieznany" when it has no `/`. */
  function TrybStudiow(nazwa: string): (r: string)
    ensures '/' !in nazwa ==> r == "nieznany"
    ensures '/' in nazwa ==> Segment1(nazwa, "/").Some? && r == Strip(Segment1(nazwa, "/").value)
  {
    FindSingle(nazwa, '/');
    match Segment1(nazwa, "/")
    case None => "nieznany"
    case Some(m) => Strip(m)
  }

  /** `a/m/b` and `a/m`, with no `/` in `a` or `m`, have mode `m`, stripped. */
  lemma TrybStudiowOfSlashes(a: string, m: string, rest: string)
    requires '/' !in a && '/' !in m
    requires rest == [] || rest[0] == '/'
    ensures TrybStudiow(a + "/" + m + rest) == Strip(m)
  {
    var s := a + "/" + m + rest;
    assert s[|a|..|a| + 1] == "/";
    FindAfterLacking(s, "/", |a|);
    var after := s[|a| + 1..];
    assert after == m + rest;
    if rest == [] {
      FindLacking(after, "/");
    } else {
      assert after[|m|..|m| + 1] == "/";
      FindAfterLacking(after, "/", |m|);
      assert after[..|m|] == m;
    }
  }

  const PlanPage: string := "grupy_plan.php?ID="
  const IcsPage: string := "grupy_ics.php?ID="

  /** A plan href `grupy_plan.php?ID=<digits>`, optionally followed by `&...`, names the group by those digits. */
  lemma GrupaIdOfPlanHref(id: string, rest: string)
    requires AllDigits(id)
    requires rest == [] || rest[0] == '&'
    ensures Labels.IdParam(PlanPage + id + rest) == Some(id)
  {
    assert PlanPage[|PlanPage| - 3..] == "ID=";
    Labels.IdParamOfDigits(PlanPage, id, rest);
  }

  /** `link_grupy_ics`: the plan link turned into the calendar link, with `&KIND=GG` appended. */
  function LinkIcs(link: string): string {
    Replace(link, PlanPage, IcsPage) + "&KIND=GG"
  }

  /** The plan link of a group becomes its calendar link. */
  lemma IcsLinkOfPlanLink(id: string)
    requires AllDigits(id)
    ensures LinkIcs(Labels.BaseUrl + PlanPage + id) == Labels.BaseUrl + IcsPage + id + "&KIND=GG"
  {
    var s := Labels.BaseUrl + PlanPage + id;
    forall i | 0 <= i < |Labels.BaseUrl| ensures !OccursAt(s, PlanPage, i) {
      if i + |PlanPage| <= |s| {
        assert s[i..i + |PlanPage|][0] == s[i] && s[i..i + |PlanPage|][1] == s[i + 1];
      }
    }
    ReplaceFirst(Labels.BaseUrl, PlanPage, id, IcsPage);
    FindLacking(id, PlanPage);
    ReplaceAbsent(id, PlanPage, IcsPage);
  }

  /** One group record; `kierunekId` is None when the key is absent. */
  datatype Grupa = Grupa(
    kodGrupy: string, trybStudiow: string, kierunek: string, wydzial: string,
    linkGrupy: string, linkIcsGrupy: string, semestr: string,
    grupaId: Option<string>, kierunekId: Option<int>)

  /** `kierunek_id` is attached only when it is truthy (given and not 0). */
  function AttachedId(kierunekId: Option<int>): (r: Option<int>)
    ensures r.Some? <==> kierunekId.Some? && kierunekId.value != 0
    ensures r.Some? ==> r == kierunekId
  {
    match kierunekId
    case Some(v) => if v != 0 then Some(v) else None
    case None => None
  }

  /**
   * What `parse_grupy` is called with besides the page: the course name, the
   * department, the optional course id, and what each group's page holds.
   */
  datatype Course = Course(kierunek: string, wydzial: string, kierunekId: Option<int>, pageOf: string -> GroupPage)

  /** The record for one row's anchor. */
  function GrupaOf(a: Labels.Anchor, c: Course): Grupa {
    var pelnaNazwa := Strip(a.text);
    var link := Labels.BaseUrl + a.href;
    Grupa(KodGrupy(pelnaNazwa), TrybStudiow(pelnaNazwa), c.kierunek, c.wydzial, link, LinkIcs(link),
          FetchGrupaSemestr(c.pageOf(link)), Labels.IdParam(a.href), AttachedId(c.kierunekId))
  }

  predicate HasAnchor(row: Option<Labels.Anchor>) {
    row.Some?
  }

  /** The records of the rows with an anchor, in order. */
  function Grupy(rows: seq<Option<Labels.Anchor>>, c: Course): seq<Grupa> {
    if rows == [] then []
    else
      var last := rows[|rows| - 1];
      Grupy(rows[..|rows| - 1], c) + (if last.Some? then [GrupaOf(last.value, c)] else [])
  }

  /** `parse_grupy`, on the first anchor of each `odd`/`even` row (None: the row has none). */
  method ParseGrupy(rows: seq<Option<Labels.Anchor>>, c: Course) returns (wynik: seq<Grupa>)
    ensures wynik == Grupy(rows, c)
  {
    wynik := [];
    if rows == [] {
      return;
    }
    for i := 0 to |rows|
      invariant wynik == Grupy(rows[..i], c)
    {
      assert rows[..i + 1][..i] == rows[..i];
      match rows[i]
      case None =>
      case Some(a) =>
        wynik := wynik + [GrupaOf(a, c)];
    }
    assert rows[..|rows|] == rows;
  }

  /** Exactly one record per row with an anchor, in order, each built from its own anchor. */
  lemma {:induction false} GrupyPerAnchor(rows: seq<Option<Labels.Anchor>>, c: Course)
    ensures |Grupy(rows, c)| == |Seqs.Filter(rows, HasAnchor)|
    ensures forall k :: 0 <= k < |Seqs.Filter(rows, HasAnchor)| ==>
      Seqs.Filter(rows, HasAnchor)[k].Some? && Grupy(rows, c)[k] == GrupaOf(Seqs.Filter(rows, HasAnchor)[k].value, c)
  {
    if rows != [] {
      var init, last := rows[..|rows| - 1], rows[|rows| - 1];
      assert rows == init + [last];
      GrupyPerAnchor(init, c);
      Seqs.FilterAppend(init, last, HasAnchor);
      assert Grupy(rows, c) == Grupy(init, c) + (if last.Some? then [GrupaOf(last.value, c)] else []);
      RecordsSnoc(Seqs.Filter(init, HasAnchor), Grupy(init, c), last, c);
    }
  }

  /** One more row keeps the records in step with the rows that have an anchor. */
  lemma RecordsSnoc(vs0: seq<Option<Labels.Anchor>>, gs0: seq<Grupa>, last: Option<Labels.Anchor>, c: Course)
    requires |gs0| == |vs0| && forall k :: 0 <= k < |vs0| ==> vs0[k].Some? && gs0[k] == GrupaOf(vs0[k].value, c)
    ensures var vs := vs0 + (if HasAnchor(last) then [last] else []);
      var gs := gs0 + (if last.Some? then [GrupaOf(last.value, c)] else []);
      |gs| == |vs| && forall k :: 0 <= k < |vs| ==> vs[k].Some? && gs[k] == GrupaOf(vs[k].value, c)
  {
  }

  /** Every record's link is the base URL plus its href, and its calendar link ends in `&KIND=GG`. */
  lemma GrupaLinks(a: Labels.Anchor, c: Course)
    ensures var g := GrupaOf(a, c);
      && StartsWith(g.linkGrupy, Labels.BaseUrl) && g.linkGrupy[|Labels.BaseUrl|..] == a.href
      && |g.linkIcsGrupy| >= 8 && g.linkIcsGrupy[|g.linkIcsGrupy| - 8..] == "&KIND=GG"
      && g.kierunek == c.kierunek && g.wydzial == c.wydzial
  {
    var link := Labels.BaseUrl + a.href;
    assert link[..|Labels.BaseUrl|] == Labels.BaseUrl;
    var ics := Replace(link, PlanPage, IcsPage) + "&KIND=GG";
    assert ics[|ics| - 8..] == "&KIND=GG";
  }
}

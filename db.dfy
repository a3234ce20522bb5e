/**
 * The `Database` object of `scraper/db.py`, with its tables held in memory.
 * Every query of the source is one `SELECT`, `INSERT` or `DELETE` against one
 * table; only its successful path is modelled. Fresh ids come from
 * `uuid.uuid4()`, modelled as an injective oracle `uuidOf` with a counter
 * `next` of the ids handed out so far.
 */
module Db {
  import opened Wrappers

  // ---------------------------------------------------------------- rows

  datatype KierunekRow = KierunekRow(id: string, nazwaKierunku: string, wydzial: string, linkGrupy: string)

  datatype GrupaRow = GrupaRow(
    id: string, kodGrupy: string, nazwaGrupy: string, semestr: string,
    trybStudiow: string, kierunekId: string, linkPlanu: string)

  datatype NauczycielRow = NauczycielRow(
    id: string, imieNazwisko: string, instytut: Option<string>, email: Option<string>, linkPlanu: Option<string>)

  /** A row of `plany_grup`; the fields read with `event.get(...)` are `None` when the key is missing. */
  datatype PlanGrupyRow = PlanGrupyRow(
    id: string, grupaId: string, linkIcs: Option<string>, nauczycielId: Option<string>,
    od: Option<string>, do_: Option<string>, przedmiot: Option<string>, rz: Option<string>,
    miejsce: Option<string>, terminy: Option<string>)

  datatype PlanNauczycielaRow = PlanNauczycielaRow(
    id: string, nauczycielId: string, linkIcs: Option<string>,
    od: Option<string>, do_: Option<string>, przedmiot: Option<string>, rz: Option<string>,
    grupy: Option<string>, miejsce: Option<string>, terminy: Option<string>)

  datatype Tables = Tables(
    kierunki: seq<KierunekRow>, grupy: seq<GrupaRow>, nauczyciele: seq<NauczycielRow>,
    planyGrup: seq<PlanGrupyRow>, planyNauczycieli: seq<PlanNauczycielaRow>)

  /** `id` is not the id of any row of any table. */
  predicate IdFree(t: Tables, id: string) {
    && (forall r :: r in t.kierunki ==> r.id != id)
    && (forall r :: r in t.grupy ==> r.id != id)
    && (forall r :: r in t.nauczyciele ==> r.id != id)
    && (forall r :: r in t.planyGrup ==> r.id != id)
    && (forall r :: r in t.planyNauczycieli ==> r.id != id)
  }

  /** No id the oracle hands out at or after `next` is in use. */
  ghost predicate FreshFrom(t: Tables, next: nat, uuidOf: nat -> string) {
    forall j: nat :: next <= j ==> IdFree(t, uuidOf(j))
  }

  ghost predicate Injective(uuidOf: nat -> string) {
    forall i: nat, j: nat :: i != j ==> uuidOf(i) != uuidOf(j)
  }

  // ---------------------------------------------------------------- inputs

  /** A teacher dict as `get_or_create_nauczyciel` reads it: a missing key (or an empty dict) is `None`. */
  datatype TeacherData = TeacherData(
    imieNazwisko: Option<string>, instytut: Option<string>, email: Option<string>, linkPlanu: Option<string>)

  /** An event dict of `save_events_for_group`; `nauczyciel` defaults to the empty dict. */
  datatype GroupEvent = GroupEvent(
    linkIcs: Option<string>, od: Option<string>, do_: Option<string>, przedmiot: Option<string>,
    rz: Option<string>, miejsce: Option<string>, terminy: Option<string>, nauczyciel: TeacherData)

  /** An event dict of `save_events_for_nauczyciel`. */
  datatype TeacherEvent = TeacherEvent(
    linkIcs: Option<string>, od: Option<string>, do_: Option<string>, przedmiot: Option<string>,
    rz: Option<string>, grupy: Option<string>, miejsce: Option<string>, terminy: Option<string>)

  // ---------------------------------------------------------------- constructor check

  datatype UrlError = MissingDatabaseUrl

  /** The URL argument if it is non-empty, else the environment's `DATABASE_URL` if non-empty, else an error. */
  function ResolveUrl(argument: Option<string>, environment: Option<string>): (r: Result<string, UrlError>)
    ensures r.Success? ==> r.value != ""
    ensures r.Failure? <==> (argument.None? || argument.value == "") && (environment.None? || environment.value == "")
    ensures argument.Some? && argument.value != "" ==> r == Success(argument.value)
  {
    if argument.Some? && argument.value != "" then Success(argument.value)
    else if environment.Some? && environment.value != "" then Success(environment.value)
    else Failure(MissingDatabaseUrl)
  }

  // ---------------------------------------------------------------- queries

  /** The position of the first row satisfying `p` at or after `from`: the `results[0]` of a `SELECT`. */
  function FirstWhere<T>(s: seq<T>, p: T -> bool, from: nat): (r: Option<nat>)
    requires from <= |s|
    ensures r.None? <==> forall i :: from <= i < |s| ==> !p(s[i])
    ensures r.Some? ==> from <= r.value < |s| && p(s[r.value])
    ensures r.Some? ==> forall i :: from <= i < r.value ==> !p(s[i])
    decreases |s| - from
  {
    if from == |s| then None
    else if p(s[from]) then Some(from)
    else FirstWhere(s, p, from + 1)
  }

  function ByName(ns: seq<NauczycielRow>, name: string): Option<nat> {
    FirstWhere(ns, (n: NauczycielRow) => n.imieNazwisko == name, 0)
  }

  /** `not nauczyciel_data or not nauczyciel_data.get('imie_nazwisko')` fails. */
  predicate Named(data: TeacherData) {
    data.imieNazwisko.Some? && data.imieNazwisko.value != ""
  }

  datatype Created = Created(id: Option<string>, teachers: seq<NauczycielRow>, next: nat)

  /** `get_or_create_nauczyciel` on the teacher table: the id of the first row with the name, or a new row. */
  function GetOrCreate(ns: seq<NauczycielRow>, next: nat, data: TeacherData, uuidOf: nat -> string): (c: Created)
    ensures !Named(data) ==> c == Created(None, ns, next)
    ensures Named(data) ==> c.id.Some? && ByName(c.teachers, data.imieNazwisko.value).Some?
    ensures Named(data) ==> c.teachers[ByName(c.teachers, data.imieNazwisko.value).value].id == c.id.value
    ensures |ns| <= |c.teachers| && c.teachers[..|ns|] == ns
    ensures c.next == next ==> c.teachers == ns
    ensures c.next != next ==> c.next == next + 1 && |c.teachers| == |ns| + 1 && c.teachers[|ns|].id == uuidOf(next)
  {
    if !Named(data) then Created(None, ns, next)
    else
      var name := data.imieNazwisko.value;
      match ByName(ns, name)
      case Some(i) => Created(Some(ns[i].id), ns, next)
      case None =>
        var row := NauczycielRow(uuidOf(next), name, data.instytut, data.email, data.linkPlanu);
        NewNameFirst(ns, row);
        Created(Some(row.id), ns + [row], next + 1)
  }

  lemma NewNameFirst(ns: seq<NauczycielRow>, row: NauczycielRow)
    requires ByName(ns, row.imieNazwisko).None?
    ensures ByName(ns + [row], row.imieNazwisko) == Some(|ns|)
  {
    var t := ns + [row];
    assert forall i :: 0 <= i < |ns| ==> t[i] == ns[i];
    assert t[|ns|] == row;
  }

  /** A second request with the same name finds the first one's row: same id, no new row. */
  lemma GetOrCreateStable(ns: seq<NauczycielRow>, next: nat, data: TeacherData, other: TeacherData, uuidOf: nat -> string)
    requires Named(data) && other.imieNazwisko == data.imieNazwisko
    ensures var c := GetOrCreate(ns, next, data, uuidOf);
      GetOrCreate(c.teachers, c.next, other, uuidOf) == Created(c.id, c.teachers, c.next)
  {
  }

  /** A name already in the table is answered without a new row. */
  lemma GetOrCreateExisting(ns: seq<NauczycielRow>, next: nat, data: TeacherData, uuidOf: nat -> string, i: nat)
    requires Named(data) && i < |ns| && ns[i].imieNazwisko == data.imieNazwisko.value
    ensures GetOrCreate(ns, next, data, uuidOf).teachers == ns
    ensures GetOrCreate(ns, next, data, uuidOf).next == next
  {
    assert ByName(ns, data.imieNazwisko.value).Some?;
  }

  /** What `get_existing_events` returns: rows of one of the two plan tables, or `[]`. */
  datatype Existing = OfGroup(groupRows: seq<PlanGrupyRow>) | OfTeacher(teacherRows: seq<PlanNauczycielaRow>) | NoEvents

  function RowsOfGroup(rows: seq<PlanGrupyRow>, g: string): (r: seq<PlanGrupyRow>)
  {
    if rows == [] then []
    else
      var init, last := rows[..|rows| - 1], rows[|rows| - 1];
      assert rows == init + [last];
      RowsOfGroup(init, g) + (if last.grupaId == g then [last] else [])
  }

  function RowsOfTeacher(rows: seq<PlanNauczycielaRow>, n: string): (r: seq<PlanNauczycielaRow>)
  {
    if rows == [] then []
    else
      var init, last := rows[..|rows| - 1], rows[|rows| - 1];
      assert rows == init + [last];
      RowsOfTeacher(init, n) + (if last.nauczycielId == n then [last] else [])
  }

  /** `DELETE FROM plany_grup WHERE grupa_id = g`: the other rows, in order. */
  function OtherGroups(rows: seq<PlanGrupyRow>, g: string): (r: seq<PlanGrupyRow>)
    ensures |r| <= |rows|
  {
    if rows == [] then []
    else
      var init, last := rows[..|rows| - 1], rows[|rows| - 1];
      assert rows == init + [last];
      OtherGroups(init, g) + (if last.grupaId != g then [last] else [])
  }

  function OtherTeachers(rows: seq<PlanNauczycielaRow>, n: string): (r: seq<PlanNauczycielaRow>)
    ensures |r| <= |rows|
  {
    if rows == [] then []
    else
      var init, last := rows[..|rows| - 1], rows[|rows| - 1];
      assert rows == init + [last];
      OtherTeachers(init, n) + (if last.nauczycielId != n then [last] else [])
  }

  lemma {:induction false} RowsOfGroupMembers(rows: seq<PlanGrupyRow>, g: string)
    ensures forall x :: x in RowsOfGroup(rows, g) <==> x in rows && x.grupaId == g
  {
    if rows != [] {
      var init := rows[..|rows| - 1];
      RowsOfGroupMembers(init, g);
      assert rows == init + [rows[|rows| - 1]];
    }
  }

  lemma {:induction false} RowsOfTeacherMembers(rows: seq<PlanNauczycielaRow>, n: string)
    ensures forall x :: x in RowsOfTeacher(rows, n) <==> x in rows && x.nauczycielId == n
  {
    if rows != [] {
      var init := rows[..|rows| - 1];
      RowsOfTeacherMembers(init, n);
      assert rows == init + [rows[|rows| - 1]];
    }
  }

  lemma {:induction false} OtherGroupsMembers(rows: seq<PlanGrupyRow>, g: string)
    ensures forall x :: x in OtherGroups(rows, g) <==> x in rows && x.grupaId != g
  {
    if rows != [] {
      var init := rows[..|rows| - 1];
      OtherGroupsMembers(init, g);
      assert rows == init + [rows[|rows| - 1]];
    }
  }

  lemma {:induction false} OtherTeachersMembers(rows: seq<PlanNauczycielaRow>, n: string)
    ensures forall x :: x in OtherTeachers(rows, n) <==> x in rows && x.nauczycielId != n
  {
    if rows != [] {
      var init := rows[..|rows| - 1];
      OtherTeachersMembers(init, n);
      assert rows == init + [rows[|rows| - 1]];
    }
  }

  /** Deleting an owner with no rows changes nothing. */
  lemma {:induction false} OtherGroupsNoop(rows: seq<PlanGrupyRow>, g: string)
    requires forall i :: 0 <= i < |rows| ==> rows[i].grupaId != g
    ensures OtherGroups(rows, g) == rows
  {
    if rows != [] {
      OtherGroupsNoop(rows[..|rows| - 1], g);
      assert rows == rows[..|rows| - 1] + [rows[|rows| - 1]];
    }
  }

  lemma {:induction false} OtherTeachersNoop(rows: seq<PlanNauczycielaRow>, n: string)
    requires forall i :: 0 <= i < |rows| ==> rows[i].nauczycielId != n
    ensures OtherTeachers(rows, n) == rows
  {
    if rows != [] {
      OtherTeachersNoop(rows[..|rows| - 1], n);
      assert rows == rows[..|rows| - 1] + [rows[|rows| - 1]];
    }
  }

  // ---------------------------------------------------------------- batches

  datatype GroupBatch = GroupBatch(rows: seq<PlanGrupyRow>, teachers: seq<NauczycielRow>, next: nat)

  /** The insertion loop of `save_events_for_group`: per event, resolve its teacher, then insert a row with a fresh id. */
  function InsertGroupEvents(ns: seq<NauczycielRow>, next: nat, g: string, events: seq<GroupEvent>, uuidOf: nat -> string): (b: GroupBatch)
    ensures |b.rows| == |events|
  {
    if events == [] then GroupBatch([], ns, next)
    else
      var b := InsertGroupEvents(ns, next, g, events[..|events| - 1], uuidOf);
      var e := events[|events| - 1];
      var c := GetOrCreate(b.teachers, b.next, e.nauczyciel, uuidOf);
      GroupBatch(b.rows + [GroupRow(uuidOf(c.next), g, e, c.id)], c.teachers, c.next + 1)
  }

  /** The row an event becomes, given its resolved teacher and fresh id. */
  function GroupRow(id: string, g: string, e: GroupEvent, nauczycielId: Option<string>): PlanGrupyRow {
    PlanGrupyRow(id, g, e.linkIcs, nauczycielId, e.od, e.do_, e.przedmiot, e.rz, e.miejsce, e.terminy)
  }

  /** One more event extends the batch by its row. */
  lemma GroupBatchSnoc(ns: seq<NauczycielRow>, next: nat, g: string, events: seq<GroupEvent>, i: nat, uuidOf: nat -> string)
    requires i < |events|
    ensures var b := InsertGroupEvents(ns, next, g, events[..i], uuidOf);
      var c := GetOrCreate(b.teachers, b.next, events[i].nauczyciel, uuidOf);
      InsertGroupEvents(ns, next, g, events[..i + 1], uuidOf)
        == GroupBatch(b.rows + [GroupRow(uuidOf(c.next), g, events[i], c.id)], c.teachers, c.next + 1)
  {
    assert events[..i + 1][..i] == events[..i];
  }

  /** The rows of a batch are one per event, in order, each owned by `g` and carrying the event's fields. */
  lemma {:induction false} GroupBatchFields(ns: seq<NauczycielRow>, next: nat, g: string, events: seq<GroupEvent>, uuidOf: nat -> string)
    ensures var b := InsertGroupEvents(ns, next, g, events, uuidOf);
      forall k :: 0 <= k < |b.rows| ==> b.rows[k] == GroupRow(b.rows[k].id, g, events[k], b.rows[k].nauczycielId)
  {
    if events != [] {
      var init := events[..|events| - 1];
      GroupBatchFields(ns, next, g, init, uuidOf);
      var b := InsertGroupEvents(ns, next, g, init, uuidOf);
      var b' := InsertGroupEvents(ns, next, g, events, uuidOf);
      assert forall k :: 0 <= k < |b.rows| ==> b'.rows[k] == b.rows[k] && events[k] == init[k];
    }
  }

  /** Each row's id is drawn from the oracle at or after `next` and before the batch's counter. */
  lemma {:induction false} GroupBatchIds(ns: seq<NauczycielRow>, next: nat, g: string, events: seq<GroupEvent>, uuidOf: nat -> string)
    ensures var b := InsertGroupEvents(ns, next, g, events, uuidOf);
      && next <= b.next
      && forall k :: 0 <= k < |b.rows| ==> exists j :: next <= j < b.next && b.rows[k].id == uuidOf(j)
  {
    if events != [] {
      var init := events[..|events| - 1];
      GroupBatchIds(ns, next, g, init, uuidOf);
      var b := InsertGroupEvents(ns, next, g, init, uuidOf);
      var c := GetOrCreate(b.teachers, b.next, events[|events| - 1].nauczyciel, uuidOf);
      var b' := InsertGroupEvents(ns, next, g, events, uuidOf);
      assert forall k :: 0 <= k < |b.rows| ==> b'.rows[k] == b.rows[k];
      assert b'.rows[|b.rows|].id == uuidOf(c.next);
    }
  }

  /** With an injective oracle the rows of a batch have pairwise distinct, fresh ids. */
  lemma {:induction false} GroupBatchDistinct(ns: seq<NauczycielRow>, next: nat, g: string, events: seq<GroupEvent>, uuidOf: nat -> string)
    requires Injective(uuidOf)
    ensures var b := InsertGroupEvents(ns, next, g, events, uuidOf);
      forall k1, k2 :: 0 <= k1 < k2 < |b.rows| ==> b.rows[k1].id != b.rows[k2].id
  {
    if events != [] {
      var init := events[..|events| - 1];
      GroupBatchDistinct(ns, next, g, init, uuidOf);
      GroupBatchIds(ns, next, g, init, uuidOf);
      var b := InsertGroupEvents(ns, next, g, init, uuidOf);
      var c := GetOrCreate(b.teachers, b.next, events[|events| - 1].nauczyciel, uuidOf);
      var rows := InsertGroupEvents(ns, next, g, events, uuidOf).rows;
      assert rows == b.rows + [GroupRow(uuidOf(c.next), g, events[|events| - 1], c.id)];
      forall k1, k2 | 0 <= k1 < k2 < |rows| ensures rows[k1].id != rows[k2].id {
        assert rows[k1] == b.rows[k1];
        if k2 == |b.rows| {
          var j :| next <= j < b.next && b.rows[k1].id == uuidOf(j);
          assert rows[k2].id == uuidOf(c.next) && j < c.next;
        } else {
          assert rows[k2] == b.rows[k2];
        }
      }
    }
  }

  /** The teacher rows a batch adds come after the old ones. */
  lemma {:induction false} GroupBatchTeachers(ns: seq<NauczycielRow>, next: nat, g: string, events: seq<GroupEvent>, uuidOf: nat -> string)
    ensures var b := InsertGroupEvents(ns, next, g, events, uuidOf);
      |ns| <= |b.teachers| && b.teachers[..|ns|] == ns
  {
    if events != [] {
      var init := events[..|events| - 1];
      GroupBatchTeachers(ns, next, g, init, uuidOf);
      var b := InsertGroupEvents(ns, next, g, init, uuidOf);
      assert b.teachers[..|ns|] == ns;
      var c := GetOrCreate(b.teachers, b.next, events[|events| - 1].nauczyciel, uuidOf);
      assert c.teachers[..|b.teachers|] == b.teachers;
      assert c.teachers[..|ns|] == c.teachers[..|b.teachers|][..|ns|];
    }
  }

  /** The row a teacher event becomes, given its fresh id. */
  function TeacherRow(id: string, n: string, e: TeacherEvent): PlanNauczycielaRow {
    PlanNauczycielaRow(id, n, e.linkIcs, e.od, e.do_, e.przedmiot, e.rz, e.grupy, e.miejsce, e.terminy)
  }

  /** The insertion loop of `save_events_for_nauczyciel`: one row per event, in order, the k-th with the oracle's id `next + k`. */
  function InsertTeacherEvents(next: nat, n: string, events: seq<TeacherEvent>, uuidOf: nat -> string): (rows: seq<PlanNauczycielaRow>)
    ensures |rows| == |events|
    ensures forall k :: 0 <= k < |rows| ==> rows[k] == TeacherRow(uuidOf(next + k), n, events[k])
  {
    if events == [] then []
    else
      var init := events[..|events| - 1];
      var rows := InsertTeacherEvents(next, n, init, uuidOf);
      assert forall k :: 0 <= k < |init| ==> events[k] == init[k];
      rows + [TeacherRow(uuidOf(next + |init|), n, events[|events| - 1])]
  }

  lemma TeacherBatchSnoc(next: nat, n: string, events: seq<TeacherEvent>, i: nat, uuidOf: nat -> string)
    requires i < |events|
    ensures InsertTeacherEvents(next, n, events[..i + 1], uuidOf)
      == InsertTeacherEvents(next, n, events[..i], uuidOf) + [TeacherRow(uuidOf(next + i), n, events[i])]
  {
    assert events[..i + 1][..i] == events[..i];
  }

  /** With an injective oracle the new teacher-plan rows have pairwise distinct ids. */
  lemma TeacherRowsDistinct(next: nat, n: string, events: seq<TeacherEvent>, uuidOf: nat -> string)
    requires Injective(uuidOf)
    ensures var rows := InsertTeacherEvents(next, n, events, uuidOf);
      forall k1, k2 :: 0 <= k1 < k2 < |rows| ==> rows[k1].id != rows[k2].id
  {
    var rows := InsertTeacherEvents(next, n, events, uuidOf);
    forall k1, k2 | 0 <= k1 < k2 < |rows| ensures rows[k1].id != rows[k2].id {
      assert rows[k1].id == uuidOf(next + k1) && rows[k2].id == uuidOf(next + k2);
    }
  }

  // ---------------------------------------------------------------- fresh ids

  /** Resolving a teacher keeps every oracle id from its new counter on unused. */
  lemma GetOrCreateFresh(t: Tables, next: nat, data: TeacherData, uuidOf: nat -> string)
    requires Injective(uuidOf) && FreshFrom(t, next, uuidOf)
    ensures var c := GetOrCreate(t.nauczyciele, next, data, uuidOf);
      FreshFrom(t.(nauczyciele := c.teachers), c.next, uuidOf)
  {
    var ns := t.nauczyciele;
    var c := GetOrCreate(ns, next, data, uuidOf);
    if c.next != next {
      assert c.teachers == c.teachers[..|ns|] + [c.teachers[|ns|]];
      forall j: nat | c.next <= j ensures IdFree(t.(nauczyciele := c.teachers), uuidOf(j)) {
        assert IdFree(t, uuidOf(j)) && uuidOf(j) != uuidOf(next);
      }
    }
  }

  /** Appending a plan row carrying the oracle's `next` id moves the counter past it. */
  lemma AppendGroupRowFresh(t: Tables, next: nat, row: PlanGrupyRow, uuidOf: nat -> string)
    requires Injective(uuidOf) && FreshFrom(t, next, uuidOf) && row.id == uuidOf(next)
    ensures FreshFrom(t.(planyGrup := t.planyGrup + [row]), next + 1, uuidOf)
  {
    forall j: nat | next + 1 <= j ensures IdFree(t.(planyGrup := t.planyGrup + [row]), uuidOf(j)) {
      assert IdFree(t, uuidOf(j)) && uuidOf(j) != uuidOf(next);
    }
  }

  lemma AppendTeacherRowFresh(t: Tables, next: nat, row: PlanNauczycielaRow, uuidOf: nat -> string)
    requires Injective(uuidOf) && FreshFrom(t, next, uuidOf) && row.id == uuidOf(next)
    ensures FreshFrom(t.(planyNauczycieli := t.planyNauczycieli + [row]), next + 1, uuidOf)
  {
    forall j: nat | next + 1 <= j ensures IdFree(t.(planyNauczycieli := t.planyNauczycieli + [row]), uuidOf(j)) {
      assert IdFree(t, uuidOf(j)) && uuidOf(j) != uuidOf(next);
    }
  }

  /** Deleting rows frees ids, never uses them. */
  lemma ClearGroupFresh(t: Tables, next: nat, g: string, uuidOf: nat -> string)
    requires FreshFrom(t, next, uuidOf)
    ensures FreshFrom(t.(planyGrup := OtherGroups(t.planyGrup, g)), next, uuidOf)
  {
    OtherGroupsMembers(t.planyGrup, g);
    forall j: nat | next <= j ensures IdFree(t.(planyGrup := OtherGroups(t.planyGrup, g)), uuidOf(j)) {
      assert IdFree(t, uuidOf(j));
    }
  }

  lemma ClearTeacherFresh(t: Tables, next: nat, n: string, uuidOf: nat -> string)
    requires FreshFrom(t, next, uuidOf)
    ensures FreshFrom(t.(planyNauczycieli := OtherTeachers(t.planyNauczycieli, n)), next, uuidOf)
  {
    OtherTeachersMembers(t.planyNauczycieli, n);
    forall j: nat | next <= j ensures IdFree(t.(planyNauczycieli := OtherTeachers(t.planyNauczycieli, n)), uuidOf(j)) {
      assert IdFree(t, uuidOf(j));
    }
  }

  /** A whole group batch, teachers included, leaves every id from its counter on unused. */
  lemma {:induction false} GroupBatchFresh(t: Tables, next: nat, g: string, events: seq<GroupEvent>, uuidOf: nat -> string)
    requires Injective(uuidOf) && FreshFrom(t, next, uuidOf)
    ensures var b := InsertGroupEvents(t.nauczyciele, next, g, events, uuidOf);
      FreshFrom(t.(planyGrup := t.planyGrup + b.rows, nauczyciele := b.teachers), b.next, uuidOf)
  {
    if events != [] {
      var init, e := events[..|events| - 1], events[|events| - 1];
      GroupBatchFresh(t, next, g, init, uuidOf);
      var b := InsertGroupEvents(t.nauczyciele, next, g, init, uuidOf);
      var s := t.(planyGrup := t.planyGrup + b.rows, nauczyciele := b.teachers);
      GetOrCreateFresh(s, b.next, e.nauczyciel, uuidOf);
      var c := GetOrCreate(b.teachers, b.next, e.nauczyciel, uuidOf);
      var row := GroupRow(uuidOf(c.next), g, e, c.id);
      AppendGroupRowFresh(s.(nauczyciele := c.teachers), c.next, row, uuidOf);
      assert t.planyGrup + (b.rows + [row]) == (t.planyGrup + b.rows) + [row];
    }
  }

  lemma {:induction false} TeacherBatchFresh(t: Tables, next: nat, n: string, events: seq<TeacherEvent>, uuidOf: nat -> string)
    requires Injective(uuidOf) && FreshFrom(t, next, uuidOf)
    ensures FreshFrom(t.(planyNauczycieli := t.planyNauczycieli + InsertTeacherEvents(next, n, events, uuidOf)), next + |events|, uuidOf)
  {
    if events != [] {
      var init, e := events[..|events| - 1], events[|events| - 1];
      TeacherBatchFresh(t, next, n, init, uuidOf);
      var rows := InsertTeacherEvents(next, n, init, uuidOf);
      var row := TeacherRow(uuidOf(next + |init|), n, e);
      AppendTeacherRowFresh(t.(planyNauczycieli := t.planyNauczycieli + rows), next + |init|, row, uuidOf);
      assert t.planyNauczycieli + (rows + [row]) == (t.planyNauczycieli + rows) + [row];
    }
  }

  /** Every row of a group batch has an id no table held before the batch. */
  lemma GroupBatchIdsFresh(t: Tables, next: nat, g: string, events: seq<GroupEvent>, uuidOf: nat -> string)
    requires FreshFrom(t, next, uuidOf)
    ensures var b := InsertGroupEvents(t.nauczyciele, next, g, events, uuidOf);
      forall k :: 0 <= k < |b.rows| ==> IdFree(t, b.rows[k].id)
  {
    GroupBatchIds(t.nauczyciele, next, g, events, uuidOf);
    var b := InsertGroupEvents(t.nauczyciele, next, g, events, uuidOf);
    assert forall k :: 0 <= k < |b.rows| ==> exists j :: next <= j < b.next && b.rows[k].id == uuidOf(j);
    forall k | 0 <= k < |b.rows| ensures IdFree(t, b.rows[k].id) {
      var j :| next <= j < b.next && b.rows[k].id == uuidOf(j);
      assert IdFree(t, uuidOf(j));
    }
  }

  lemma TeacherBatchIdsFresh(t: Tables, next: nat, n: string, events: seq<TeacherEvent>, uuidOf: nat -> string)
    requires FreshFrom(t, next, uuidOf)
    ensures var rows := InsertTeacherEvents(next, n, events, uuidOf);
      forall k :: 0 <= k < |rows| ==> IdFree(t, rows[k].id)
  {
    var rows := InsertTeacherEvents(next, n, events, uuidOf);
    forall k | 0 <= k < |rows| ensures IdFree(t, rows[k].id) {
      assert rows[k].id == uuidOf(next + k);
      assert IdFree(t, uuidOf(next + k));
    }
  }

  // ---------------------------------------------------------------- replace-all

  /** The group plan rows after a non-empty save: the delete runs only for a non-empty id. */
  function ReplaceGroup(rows: seq<PlanGrupyRow>, g: string, added: seq<PlanGrupyRow>): seq<PlanGrupyRow> {
    (if g != "" then OtherGroups(rows, g) else rows) + added
  }

  function ReplaceTeacher(rows: seq<PlanNauczycielaRow>, n: string, added: seq<PlanNauczycielaRow>): seq<PlanNauczycielaRow> {
    (if n != "" then OtherTeachers(rows, n) else rows) + added
  }

  lemma {:induction false} RowsOfGroupAppend(a: seq<PlanGrupyRow>, b: seq<PlanGrupyRow>, g: string)
    ensures RowsOfGroup(a + b, g) == RowsOfGroup(a, g) + RowsOfGroup(b, g)
  {
    if b == [] {
      assert a + b == a;
    } else {
      var init, last := b[..|b| - 1], b[|b| - 1];
      RowsOfGroupAppend(a, init, g);
      var ab := a + b;
      assert ab[..|ab| - 1] == a + init && ab[|ab| - 1] == last;
      var tail := if last.grupaId == g then [last] else [];
      assert RowsOfGroup(ab, g) == RowsOfGroup(a + init, g) + tail;
      assert RowsOfGroup(b, g) == RowsOfGroup(init, g) + tail;
    }
  }

  lemma {:induction false} RowsOfGroupOwned(a: seq<PlanGrupyRow>, g: string, h: string)
    requires forall k :: 0 <= k < |a| ==> a[k].grupaId == g
    ensures RowsOfGroup(a, h) == if h == g then a else []
  {
    if a != [] {
      RowsOfGroupOwned(a[..|a| - 1], g, h);
    }
  }

  lemma {:induction false} RowsOfOtherGroups(a: seq<PlanGrupyRow>, g: string, h: string)
    ensures RowsOfGroup(OtherGroups(a, g), h) == if h == g then [] else RowsOfGroup(a, h)
  {
    if a != [] {
      var init, last := a[..|a| - 1], a[|a| - 1];
      RowsOfOtherGroups(init, g, h);
      RowsOfGroupAppend(OtherGroups(init, g), if last.grupaId != g then [last] else [], h);
    }
  }

  /**
   * Replacing a group's rows by rows it owns: that group's rows become the
   * new ones (after the old ones only for the empty id, which is never
   * deleted); every other group's rows are as before.
   */
  lemma ReplaceGroupRows(rows: seq<PlanGrupyRow>, g: string, added: seq<PlanGrupyRow>, h: string)
    requires forall k :: 0 <= k < |added| ==> added[k].grupaId == g
    ensures RowsOfGroup(ReplaceGroup(rows, g, added), h)
      == if h == g then (if g == "" then RowsOfGroup(rows, g) else []) + added else RowsOfGroup(rows, h)
  {
    var kept := if g != "" then OtherGroups(rows, g) else rows;
    RowsOfGroupAppend(kept, added, h);
    RowsOfGroupOwned(added, g, h);
    if g != "" {
      RowsOfOtherGroups(rows, g, h);
    }
  }

  lemma {:induction false} RowsOfTeacherAppend(a: seq<PlanNauczycielaRow>, b: seq<PlanNauczycielaRow>, n: string)
    ensures RowsOfTeacher(a + b, n) == RowsOfTeacher(a, n) + RowsOfTeacher(b, n)
  {
    if b == [] {
      assert a + b == a;
    } else {
      var init, last := b[..|b| - 1], b[|b| - 1];
      RowsOfTeacherAppend(a, init, n);
      var ab := a + b;
      assert ab[..|ab| - 1] == a + init && ab[|ab| - 1] == last;
      var tail := if last.nauczycielId == n then [last] else [];
      assert RowsOfTeacher(ab, n) == RowsOfTeacher(a + init, n) + tail;
      assert RowsOfTeacher(b, n) == RowsOfTeacher(init, n) + tail;
    }
  }

  lemma {:induction false} RowsOfTeacherOwned(a: seq<PlanNauczycielaRow>, n: string, h: string)
    requires forall k :: 0 <= k < |a| ==> a[k].nauczycielId == n
    ensures RowsOfTeacher(a, h) == if h == n then a else []
  {
    if a != [] {
      RowsOfTeacherOwned(a[..|a| - 1], n, h);
    }
  }

  lemma {:induction false} RowsOfOtherTeachers(a: seq<PlanNauczycielaRow>, n: string, h: string)
    ensures RowsOfTeacher(OtherTeachers(a, n), h) == if h == n then [] else RowsOfTeacher(a, h)
  {
    if a != [] {
      var init, last := a[..|a| - 1], a[|a| - 1];
      RowsOfOtherTeachers(init, n, h);
      RowsOfTeacherAppend(OtherTeachers(init, n), if last.nauczycielId != n then [last] else [], h);
    }
  }

  lemma ReplaceTeacherRows(rows: seq<PlanNauczycielaRow>, n: string, added: seq<PlanNauczycielaRow>, h: string)
    requires forall k :: 0 <= k < |added| ==> added[k].nauczycielId == n
    ensures RowsOfTeacher(ReplaceTeacher(rows, n, added), h)
      == if h == n then (if n == "" then RowsOfTeacher(rows, n) else []) + added else RowsOfTeacher(rows, h)
  {
    var kept := if n != "" then OtherTeachers(rows, n) else rows;
    RowsOfTeacherAppend(kept, added, h);
    RowsOfTeacherOwned(added, n, h);
    if n != "" {
      RowsOfOtherTeachers(rows, n, h);
    }
  }

  /**
   * What `save_events_for_group` leaves, for a non-empty id and events: the
   * group's rows are exactly the batch (one row per event, in order, by
   * `GroupBatchFields`), each with an id no table held before; the rows of
   * every other group are kept.
   */
  lemma SaveGroupRows(t: Tables, next: nat, g: string, events: seq<GroupEvent>, uuidOf: nat -> string, h: string)
    requires FreshFrom(t, next, uuidOf) && g != ""
    ensures var b := InsertGroupEvents(t.nauczyciele, next, g, events, uuidOf);
      var after := ReplaceGroup(t.planyGrup, g, b.rows);
      && RowsOfGroup(after, g) == b.rows
      && (forall k :: 0 <= k < |b.rows| ==> IdFree(t, b.rows[k].id))
      && (h != g ==> RowsOfGroup(after, h) == RowsOfGroup(t.planyGrup, h))
  {
    var b := InsertGroupEvents(t.nauczyciele, next, g, events, uuidOf);
    GroupBatchFields(t.nauczyciele, next, g, events, uuidOf);
    GroupBatchIdsFresh(t, next, g, events, uuidOf);
    ReplaceGroupRows(t.planyGrup, g, b.rows, g);
    ReplaceGroupRows(t.planyGrup, g, b.rows, h);
  }

  /** The same for `save_events_for_nauczyciel`. */
  lemma SaveTeacherRows(t: Tables, next: nat, n: string, events: seq<TeacherEvent>, uuidOf: nat -> string, h: string)
    requires FreshFrom(t, next, uuidOf) && n != ""
    ensures var rows := InsertTeacherEvents(next, n, events, uuidOf);
      var after := ReplaceTeacher(t.planyNauczycieli, n, rows);
      && RowsOfTeacher(after, n) == rows
      && (forall k :: 0 <= k < |rows| ==> IdFree(t, rows[k].id))
      && (h != n ==> RowsOfTeacher(after, h) == RowsOfTeacher(t.planyNauczycieli, h))
  {
    var rows := InsertTeacherEvents(next, n, events, uuidOf);
    TeacherBatchIdsFresh(t, next, n, events, uuidOf);
    ReplaceTeacherRows(t.planyNauczycieli, n, rows, n);
    ReplaceTeacherRows(t.planyNauczycieli, n, rows, h);
  }

  // ---------------------------------------------------------------- the database object

  class Database {
    const databaseUrl: string
    const uuidOf: nat -> string
    var db: Tables
    var next: nat

    /** The oracle is injective and has not yet produced any id at or after `next`. */
    ghost predicate Valid()
      reads this
    {
      Injective(uuidOf) && FreshFrom(db, next, uuidOf)
    }

    /** The connection is not opened here; the tables are what the database holds. */
    constructor (url: string, oracle: nat -> string, initial: Tables)
      requires Injective(oracle) && FreshFrom(initial, 0, oracle)
      ensures Valid()
      ensures databaseUrl == url && uuidOf == oracle && db == initial && next == 0
    {
      databaseUrl := url;
      uuidOf := oracle;
      db := initial;
      next := 0;
    }

    /** `get_kierunki`. */
    function GetKierunki(): (r: seq<KierunekRow>)
      reads this
      ensures r == db.kierunki
    {
      db.kierunki
    }

    /** `get_nauczyciele`: `SELECT * FROM nauczyciele`, every teacher row in table order. */
    method GetNauczyciele() returns (r: seq<NauczycielRow>)
      ensures r == db.nauczyciele
    {
      r := db.nauczyciele;
    }

    /** `get_kierunek_by_id`: the first row with that id, or `None`. */
    function GetKierunekById(id: string): (r: Option<KierunekRow>)
      reads this
      ensures r.None? <==> forall i :: 0 <= i < |db.kierunki| ==> db.kierunki[i].id != id
      ensures r.Some? ==> exists i :: (0 <= i < |db.kierunki| && db.kierunki[i] == r.value && r.value.id == id &&
        forall j :: 0 <= j < i ==> db.kierunki[j].id != id)
    {
      match FirstWhere(db.kierunki, (k: KierunekRow) => k.id == id, 0)
      case None => None
      case Some(i) => Some(db.kierunki[i])
    }

    /** `get_grupa_by_id`. */
    function GetGrupaById(id: string): (r: Option<GrupaRow>)
      reads this
      ensures r.None? <==> forall i :: 0 <= i < |db.grupy| ==> db.grupy[i].id != id
      ensures r.Some? ==> exists i :: (0 <= i < |db.grupy| && db.grupy[i] == r.value && r.value.id == id &&
        forall j :: 0 <= j < i ==> db.grupy[j].id != id)
    {
      match FirstWhere(db.grupy, (k: GrupaRow) => k.id == id, 0)
      case None => None
      case Some(i) => Some(db.grupy[i])
    }

    /** `get_nauczyciel_by_id`. */
    function GetNauczycielById(id: string): (r: Option<NauczycielRow>)
      reads this
      ensures r.None? <==> forall i :: 0 <= i < |db.nauczyciele| ==> db.nauczyciele[i].id != id
      ensures r.Some? ==> exists i :: (0 <= i < |db.nauczyciele| && db.nauczyciele[i] == r.value && r.value.id == id &&
        forall j :: 0 <= j < i ==> db.nauczyciele[j].id != id)
    {
      match FirstWhere(db.nauczyciele, (k: NauczycielRow) => k.id == id, 0)
      case None => None
      case Some(i) => Some(db.nauczyciele[i])
    }

    /** `get_grupy_by_kierunek`. */
    function GetGrupyByKierunek(kierunekId: string): (r: seq<GrupaRow>)
      reads this
      ensures forall x :: x in r <==> x in db.grupy && x.kierunekId == kierunekId
    {
      GroupsOfKierunek(db.grupy, kierunekId)
    }

    /** `get_existing_events`: a group id (if non-empty) wins over a teacher id; with neither, nothing. */
    function GetExistingEvents(grupaId: Option<string>, nauczycielId: Option<string>): (r: Existing)
      reads this
      ensures grupaId.Some? && grupaId.value != "" ==> r == OfGroup(RowsOfGroup(db.planyGrup, grupaId.value))
      ensures (grupaId.None? || grupaId.value == "") && nauczycielId.Some? && nauczycielId.value != "" ==>
        r == OfTeacher(RowsOfTeacher(db.planyNauczycieli, nauczycielId.value))
      ensures r == NoEvents <==> (grupaId.None? || grupaId.value == "") && (nauczycielId.None? || nauczycielId.value == "")
    {
      if grupaId.Some? && grupaId.value != "" then OfGroup(RowsOfGroup(db.planyGrup, grupaId.value))
      else if nauczycielId.Some? && nauczycielId.value != "" then OfTeacher(RowsOfTeacher(db.planyNauczycieli, nauczycielId.value))
      else NoEvents
    }

    /** `get_or_create_nauczyciel`. */
    method GetOrCreateNauczyciel(data: TeacherData) returns (id: Option<string>)
      modifies this
      ensures old(Valid()) ==> Valid()
      ensures var c := GetOrCreate(old(db.nauczyciele), old(next), data, uuidOf);
        id == c.id && db == old(db).(nauczyciele := c.teachers) && next == c.next
    {
      if !Named(data) {
        return None;
      }
      var name := data.imieNazwisko.value;
      var results := ByName(db.nauczyciele, name);
      if results.Some? {
        return Some(db.nauczyciele[results.value].id);
      }
      var nauczycielId := uuidOf(next);
      var row := NauczycielRow(nauczycielId, name, data.instytut, data.email, data.linkPlanu);
      NewNameFirst(db.nauczyciele, row);
      db := db.(nauczyciele := db.nauczyciele + [row]);
      next := next + 1;
      id := Some(nauczycielId);
      if old(Valid()) {
        GetOrCreateFresh(old(db), old(next), data, uuidOf);
      }
    }

    /** The deletion step of `save_events_for_group`: only a non-empty id with existing rows deletes, and then exactly its rows. */
    method ClearGroup(g: string)
      modifies this
      ensures old(Valid()) ==> Valid()
      ensures db == old(db).(planyGrup := if g != "" then OtherGroups(old(db).planyGrup, g) else old(db).planyGrup)
      ensures next == old(next)
    {
      var existing := GetExistingEvents(Some(g), None);
      if existing.OfGroup? && existing.groupRows != [] {
        if Valid() {
          ClearGroupFresh(db, next, g, uuidOf);
        }
        db := db.(planyGrup := OtherGroups(db.planyGrup, g));
      } else if g != "" {
        RowsOfGroupMembers(db.planyGrup, g);
        assert forall i :: 0 <= i < |db.planyGrup| ==> db.planyGrup[i].grupaId != g by {
          forall i | 0 <= i < |db.planyGrup| ensures db.planyGrup[i].grupaId != g {
            assert db.planyGrup[i] !in existing.groupRows;
          }
        }
        OtherGroupsNoop(db.planyGrup, g);
      }
    }

    /** One pass of the insertion loop: resolve the event's teacher, then insert its row with a fresh id. */
    method SaveGroupEvent(g: string, e: GroupEvent)
      modifies this
      ensures var c := GetOrCreate(old(db).nauczyciele, old(next), e.nauczyciel, uuidOf);
        db == old(db).(planyGrup := old(db).planyGrup + [GroupRow(uuidOf(c.next), g, e, c.id)], nauczyciele := c.teachers)
        && next == c.next + 1
    {
      var nauczycielId := GetOrCreateNauczyciel(e.nauczyciel);
      var row := PlanGrupyRow(uuidOf(next), g, e.linkIcs, nauczycielId, e.od, e.do_, e.przedmiot, e.rz, e.miejsce, e.terminy);
      db := db.(planyGrup := db.planyGrup + [row]);
      next := next + 1;
    }

    /**
     * `save_events_for_group`: nothing for an empty list; otherwise the
     * group's rows are deleted (when it has any) and one row per event is
     * inserted, after resolving the event's teacher.
     */
    method SaveEventsForGroup(g: string, events: seq<GroupEvent>) returns (ok: bool)
      requires Valid()
      modifies this
      ensures Valid()
      ensures ok
      ensures events == [] ==> db == old(db) && next == old(next)
      ensures events != [] ==>
        var b := InsertGroupEvents(old(db).nauczyciele, old(next), g, events, uuidOf);
        && db == old(db).(planyGrup := ReplaceGroup(old(db).planyGrup, g, b.rows), nauczyciele := b.teachers)
        && next == b.next
    {
      if events == [] {
        return true;
      }
      ClearGroup(g);
      GroupBatchFresh(db, next, g, events, uuidOf);
      InsertGroupBatch(g, events);
      return true;
    }

    /** The insertion loop of `save_events_for_group`. */
    method InsertGroupBatch(g: string, events: seq<GroupEvent>)
      modifies this
      ensures var b := InsertGroupEvents(old(db).nauczyciele, old(next), g, events, uuidOf);
        db == old(db).(planyGrup := old(db).planyGrup + b.rows, nauczyciele := b.teachers) && next == b.next
    {
      for i := 0 to |events|
        invariant var b := InsertGroupEvents(old(db).nauczyciele, old(next), g, events[..i], uuidOf);
          db == old(db).(planyGrup := old(db).planyGrup + b.rows, nauczyciele := b.teachers) && next == b.next
      {
        GroupBatchSnoc(old(db).nauczyciele, old(next), g, events, i, uuidOf);
        SaveGroupEvent(g, events[i]);
      }
      assert events[..|events|] == events;
    }

    /** The deletion step of `save_events_for_nauczyciel`. */
    method ClearTeacher(n: string)
      modifies this
      ensures old(Valid()) ==> Valid()
      ensures db == old(db).(planyNauczycieli := if n != "" then OtherTeachers(old(db).planyNauczycieli, n) else old(db).planyNauczycieli)
      ensures next == old(next)
    {
      var existing := GetExistingEvents(None, Some(n));
      if existing.OfTeacher? && existing.teacherRows != [] {
        if Valid() {
          ClearTeacherFresh(db, next, n, uuidOf);
        }
        db := db.(planyNauczycieli := OtherTeachers(db.planyNauczycieli, n));
      } else if n != "" {
        RowsOfTeacherMembers(db.planyNauczycieli, n);
        assert forall i :: 0 <= i < |db.planyNauczycieli| ==> db.planyNauczycieli[i].nauczycielId != n by {
          forall i | 0 <= i < |db.planyNauczycieli| ensures db.planyNauczycieli[i].nauczycielId != n {
            assert db.planyNauczycieli[i] !in existing.teacherRows;
          }
        }
        OtherTeachersNoop(db.planyNauczycieli, n);
      }
    }

    /** One `INSERT INTO plany_nauczycieli` with a fresh id. */
    method InsertTeacherRow(n: string, e: TeacherEvent)
      modifies this
      ensures db == old(db).(planyNauczycieli := old(db).planyNauczycieli + [TeacherRow(uuidOf(old(next)), n, e)])
      ensures next == old(next) + 1
    {
      var row := PlanNauczycielaRow(uuidOf(next), n, e.linkIcs, e.od, e.do_, e.przedmiot, e.rz, e.grupy, e.miejsce, e.terminy);
      db := db.(planyNauczycieli := db.planyNauczycieli + [row]);
      next := next + 1;
    }

    /** `save_events_for_nauczyciel`: the same replace-all over the teacher's plan rows. */
    method SaveEventsForNauczyciel(n: string, events: seq<TeacherEvent>) returns (ok: bool)
      requires Valid()
      modifies this
      ensures Valid()
      ensures ok
      ensures events == [] ==> db == old(db) && next == old(next)
      ensures events != [] ==>
        && db == old(db).(planyNauczycieli := ReplaceTeacher(old(db).planyNauczycieli, n, InsertTeacherEvents(old(next), n, events, uuidOf)))
        && next == old(next) + |events|
    {
      if events == [] {
        return true;
      }
      ClearTeacher(n);
      TeacherBatchFresh(db, next, n, events, uuidOf);
      InsertTeacherBatch(n, events);
      return true;
    }

    /** The insertion loop of `save_events_for_nauczyciel`. */
    method InsertTeacherBatch(n: string, events: seq<TeacherEvent>)
      modifies this
      ensures db == old(db).(planyNauczycieli := old(db).planyNauczycieli + InsertTeacherEvents(old(next), n, events, uuidOf))
      ensures next == old(next) + |events|
    {
      for i := 0 to |events|
        invariant db == old(db).(planyNauczycieli := old(db).planyNauczycieli + InsertTeacherEvents(old(next), n, events[..i], uuidOf))
        invariant next == old(next) + i
      {
        TeacherBatchSnoc(old(next), n, events, i, uuidOf);
        ghost var done := InsertTeacherEvents(old(next), n, events[..i], uuidOf);
        ghost var row := TeacherRow(uuidOf(old(next) + i), n, events[i]);
        InsertTeacherRow(n, events[i]);
        assert db.planyNauczycieli == old(db).planyNauczycieli + done + [row];
        assert old(db).planyNauczycieli + done + [row] == old(db).planyNauczycieli + (done + [row]);
      }
      assert events[..|events|] == events;
    }

    /** `save_kierunek`: one new row with a fresh id, which is returned. */
    method SaveKierunek(nazwaKierunku: string, wydzial: string, linkGrupy: string) returns (id: Option<string>)
      requires Valid()
      modifies this
      ensures Valid()
      ensures id == Some(uuidOf(old(next))) && IdFree(old(db), id.value)
      ensures db == old(db).(kierunki := old(db).kierunki + [KierunekRow(id.value, nazwaKierunku, wydzial, linkGrupy)])
      ensures next == old(next) + 1
    {
      var kierunekId := uuidOf(next);
      assert IdFree(db, uuidOf(next));
      db := db.(kierunki := db.kierunki + [KierunekRow(kierunekId, nazwaKierunku, wydzial, linkGrupy)]);
      next := next + 1;
      id := Some(kierunekId);
      forall j: nat | next <= j ensures IdFree(db, uuidOf(j)) {
        assert IdFree(old(db), uuidOf(j)) && uuidOf(j) != kierunekId;
      }
    }

    /** `save_grupa`: one new row with a fresh id, which is returned. */
    method SaveGrupa(kodGrupy: string, nazwaGrupy: string, semestr: string, trybStudiow: string, kierunekId: string, linkPlanu: string)
      returns (id: Option<string>)
      requires Valid()
      modifies this
      ensures Valid()
      ensures id == Some(uuidOf(old(next))) && IdFree(old(db), id.value)
      ensures db == old(db).(grupy := old(db).grupy + [GrupaRow(id.value, kodGrupy, nazwaGrupy, semestr, trybStudiow, kierunekId, linkPlanu)])
      ensures next == old(next) + 1
    {
      var grupaId := uuidOf(next);
      assert IdFree(db, uuidOf(next));
      db := db.(grupy := db.grupy + [GrupaRow(grupaId, kodGrupy, nazwaGrupy, semestr, trybStudiow, kierunekId, linkPlanu)]);
      next := next + 1;
      id := Some(grupaId);
      forall j: nat | next <= j ensures IdFree(db, uuidOf(j)) {
        assert IdFree(old(db), uuidOf(j)) && uuidOf(j) != grupaId;
      }
    }
  }

  function GroupsOfKierunek(rows: seq<GrupaRow>, kierunekId: string): (r: seq<GrupaRow>)
    ensures forall x :: x in r <==> x in rows && x.kierunekId == kierunekId
  {
    if rows == [] then []
    else
      var init, last := rows[..|rows| - 1], rows[|rows| - 1];
      assert rows == init + [last];
      GroupsOfKierunek(init, kierunekId) + (if last.kierunekId == kierunekId then [last] else [])
  }

  /** `Database(database_url)`: the constructor's check, then the object. */
  method Open(argument: Option<string>, environment: Option<string>, oracle: nat -> string, initial: Tables)
    returns (r: Result<Database, UrlError>)
    requires Injective(oracle) && FreshFrom(initial, 0, oracle)
    ensures ResolveUrl(argument, environment).Failure? ==> r == Failure(MissingDatabaseUrl)
    ensures ResolveUrl(argument, environment).Success? ==> r.Success? && r.value.Valid() && r.value.databaseUrl == ResolveUrl(argument, environment).value
  {
    match ResolveUrl(argument, environment)
    case Failure(e) => r := Failure(e);
    case Success(url) =>
      var d := new Database(url, oracle, initial);
      r := Success(d);
  }
}

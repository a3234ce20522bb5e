/**
 * `scraper/main.py`: the two conversions `main()` applies to what each update
 * step returns, and the id lists it hands to the plan download.
 *
 * What an update step returns is a Python value of one of the kinds the
 * conversions tell apart: None, a list, a dict, an instance of a class (a
 * dataclass record, which has a `__dict__`), or any other built-in value
 * (text stands for those; built-in values have no `__dict__`).
 */
module ScraperMain {
  import opened Wrappers
  import Seqs

  datatype Dane =
    | Brak
    | Lista(items: seq<Dane>)
    | Slownik(pola: map<string, Dane>)
    | Obiekt(atrybuty: map<string, Dane>)
    | Tekst(s: string)

  /** `hasattr(x, '__dict__')`: only instances of classes carry one. */
  predicate HasDict(x: Dane) {
    x.Obiekt?
  }

  /** `konwertuj_na_liste`: None becomes [], a list stays as it is, anything else becomes a one-element list. */
  function KonwertujNaListe(dane: Dane): (r: seq<Dane>)
    ensures dane.Brak? ==> r == []
    ensures dane.Lista? ==> r == dane.items
    ensures !dane.Brak? && !dane.Lista? ==> r == [dane]
  {
    match dane
    case Brak => []
    case Lista(items) => items
    case _ => [dane]
  }

  /** The result is a list, and converting it again changes nothing. */
  lemma KonwertujNaListeIdempotent(dane: Dane)
    ensures KonwertujNaListe(Lista(KonwertujNaListe(dane))) == KonwertujNaListe(dane)
    ensures dane.Lista? ==> Lista(KonwertujNaListe(dane)) == dane
  {
  }

  /** `[obj.__dict__ for obj in xs]`: None when some element has no `__dict__` (the `AttributeError`). */
  function DictsOf(xs: seq<Dane>): (r: Option<seq<Dane>>)
    ensures r.Some? <==> forall i :: 0 <= i < |xs| ==> HasDict(xs[i])
    ensures r.Some? ==> |r.value| == |xs| && forall i :: 0 <= i < |xs| ==> r.value[i] == Slownik(xs[i].atrybuty)
  {
    if xs == [] then Some([])
    else
      var last := xs[|xs| - 1];
      match DictsOf(xs[..|xs| - 1])
      case None => None
      case Some(init) =>
        if last.Obiekt? then Some(init + [Slownik(last.atrybuty)]) else None
  }

  /**
   * `konwertuj_na_slowniki`: [] stays [], a list whose first element has a
   * `__dict__` becomes the list of the elements' `__dict__`s, and any other
   * list is returned unchanged. None stands for the `AttributeError` of a
   * later element without a `__dict__`.
   */
  function KonwertujNaSlowniki(listaObiektow: seq<Dane>): (r: Option<seq<Dane>>)
    ensures listaObiektow == [] ==> r == Some([])
    ensures listaObiektow != [] && !HasDict(listaObiektow[0]) ==> r == Some(listaObiektow)
    ensures listaObiektow != [] && HasDict(listaObiektow[0]) ==>
      && (r.Some? <==> forall i :: 0 <= i < |listaObiektow| ==> HasDict(listaObiektow[i]))
      && (r.Some? ==> (|r.value| == |listaObiektow| &&
           forall i :: 0 <= i < |listaObiektow| ==> r.value[i] == Slownik(listaObiektow[i].atrybuty)))
  {
    if listaObiektow == [] then Some([])
    else if HasDict(listaObiektow[0]) then DictsOf(listaObiektow)
    else Some(listaObiektow)
  }

  /** The converted list holds no objects, so converting it again changes nothing. */
  lemma KonwertujNaSlownikiIdempotent(listaObiektow: seq<Dane>)
    requires KonwertujNaSlowniki(listaObiektow).Some?
    ensures KonwertujNaSlowniki(KonwertujNaSlowniki(listaObiektow).value) == KonwertujNaSlowniki(listaObiektow)
  {
    var r := KonwertujNaSlowniki(listaObiektow).value;
    if r != [] && HasDict(listaObiektow[0]) {
      assert r[0] == Slownik(listaObiektow[0].atrybuty);
    }
  }

  // ---------------------------------------------------------------- id lists

  function IdOf(rekord: map<string, Dane>): Option<Dane> {
    if "id" in rekord then Some(rekord["id"]) else None
  }

  /** `[r['id'] for r in rekordy if 'id' in r]`, for records that are dicts. */
  function Ids(rekordy: seq<map<string, Dane>>): seq<Dane> {
    Seqs.FilterMap(rekordy, IdOf)
  }

  /** The record at `i` has an `id` key holding `v`. */
  predicate IdAt(rekordy: seq<map<string, Dane>>, i: int, v: Dane) {
    0 <= i < |rekordy| && "id" in rekordy[i] && rekordy[i]["id"] == v
  }

  /** Every id comes from a record with an `id` key. */
  lemma IdsFrom(rekordy: seq<map<string, Dane>>, k: nat) returns (i: nat)
    requires k < |Ids(rekordy)|
    ensures IdAt(rekordy, i, Ids(rekordy)[k])
  {
    i := Seqs.FilterMapFrom(rekordy, IdOf, k);
  }

  /** Every record with an `id` key gives its id. */
  lemma IdsComplete(rekordy: seq<map<string, Dane>>, i: nat)
    requires i < |rekordy| && "id" in rekordy[i]
    ensures rekordy[i]["id"] in Ids(rekordy)
  {
    Seqs.FilterMapComplete(rekordy, IdOf, i);
  }

  /** The ids keep the order of the records: the list of a concatenation is the concatenation of the lists. */
  lemma IdsAppend(a: seq<map<string, Dane>>, b: seq<map<string, Dane>>)
    ensures Ids(a + b) == Ids(a) + Ids(b)
  {
    Seqs.FilterMapAppend(a, b, IdOf);
  }

  /** The number of ids is the number of records that have an `id` key. */
  lemma {:induction false} IdsCount(rekordy: seq<map<string, Dane>>)
    ensures |Ids(rekordy)| == |Seqs.Filter(rekordy, (r: map<string, Dane>) => "id" in r)|
  {
    if rekordy != [] {
      var rest := rekordy[1..];
      IdsCount(rest);
      assert rekordy == [rekordy[0]] + rest;
      IdsAppend([rekordy[0]], rest);
      Seqs.FilterMapSingle(rekordy[0], IdOf);
    }
  }
}

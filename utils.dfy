/** `extract_id_from_url`: the digits of the first `ID=<digits>` in a URL. */
module Utils {
  import opened Wrappers
  import opened Text

  /** `pre` occurs at `i` and is immediately followed by a digit: where `pre[0-9]+` can match. */
  predicate IdAt(url: string, pre: string, i: nat) {
    OccursAt(url, pre, i) && i + |pre| < |url| && IsDigit(url[i + |pre|])
  }

  /** The leftmost position at or after `from` where `IdAt` holds. */
  function IdPosition(url: string, pre: string, from: nat): (r: Option<nat>)
    decreases |url| - from
    ensures r.Some? ==> from <= r.value && IdAt(url, pre, r.value)
    ensures r.Some? ==> forall j :: from <= j < r.value ==> !IdAt(url, pre, j)
    ensures r.None? ==> forall j :: from <= j ==> !IdAt(url, pre, j)
  {
    if from + |pre| >= |url| then None
    else if IdAt(url, pre, from) then Some(from)
    else IdPosition(url, pre, from + 1)
  }

  /**
   * `re.search(f"{param_name}=([0-9]+)", url)`: the search finds the leftmost
   * start, and the greedy `[0-9]+` takes the whole digit run there.
   */
  function ExtractIdFromUrl(url: string, paramName: string): (r: Option<string>)
    ensures r.None? <==> forall i :: !IdAt(url, paramName + "=", i)
    ensures r.Some? ==> |r.value| > 0 && AllDigits(r.value)
  {
    var pre := paramName + "=";
    match IdPosition(url, pre, 0)
    case None => None
    case Some(i) => Some(DigitRun(url, i + |pre|))
  }

  /** The default parameter name, and the `ID=(\d+)` searches of the scrapers. */
  function IdOf(url: string): Option<string> {
    ExtractIdFromUrl(url, "ID")
  }

  /**
   * The digits come from the leftmost `ID=` that is followed by a digit, even
   * when an earlier `ID=` is not, and they are the maximal run there
   * (`DigitRun`'s contract).
   */
  lemma ExtractIdLeftmost(url: string, paramName: string, i: nat)
    requires IdAt(url, paramName + "=", i)
    requires forall j :: 0 <= j < i ==> !IdAt(url, paramName + "=", j)
    ensures ExtractIdFromUrl(url, paramName) == Some(DigitRun(url, i + |paramName| + 1))
  {
    var p := IdPosition(url, paramName + "=", 0);
    assert p.Some?;
    assert p.value == i;
  }
}

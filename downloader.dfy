/**
 * `scraper/downloader.py`: fetching a page with retries and a doubling delay,
 * the ICS download with its one authenticated fallback, and the memoised
 * page fetch. The network is a function from a request to its outcome, and
 * `time.sleep` is recorded as a trace of delays instead of waiting.
 */
module Downloader {
  import opened Wrappers
  import opened Text

  // ---------------------------------------------------------------- fetch_page_with_retry

  /** What one `requests.get(url, timeout=10)` plus `raise_for_status()` gives: a body, or any exception. */
  datatype Attempt = Ok(body: string) | Failed

  /**
   * A run of `fetch_page_with_retry`: the return value (`None` is Python's
   * implicit `None`), the number of requests made, and the delays slept.
   */
  datatype RetryRun = RetryRun(result: Option<string>, attempts: nat, sleeps: seq<int>)

  function Pow2(k: nat): (r: nat)
    ensures r >= 1
  {
    if k == 0 then 1 else 2 * Pow2(k - 1)
  }

  /** The attempts from number `k` on, with `delay` the current delay; `outcome(k)` is the `k`-th request's outcome. */
  function RetryFrom(outcome: nat -> Attempt, k: nat, maxRetries: int, delay: int): RetryRun
    decreases maxRetries - k
  {
    if k >= maxRetries then RetryRun(None, 0, [])
    else
      match outcome(k)
      case Ok(body) => RetryRun(Some(body), 1, [])
      case Failed =>
        if k < maxRetries - 1 then
          var rest := RetryFrom(outcome, k + 1, maxRetries, delay * 2);
          RetryRun(rest.result, rest.attempts + 1, [delay] + rest.sleeps)
        else RetryRun(Some(""), 1, [])
  }

  /** The whole run, from the first attempt and the initial delay. */
  function Retry(outcome: nat -> Attempt, maxRetries: int, delay: int): RetryRun {
    RetryFrom(outcome, 0, maxRetries, delay)
  }

  /** The loop of `fetch_page_with_retry`. */
  method FetchPageWithRetry(outcome: nat -> Attempt, maxRetries: int, delay0: int) returns (run: RetryRun)
    ensures run == Retry(outcome, maxRetries, delay0)
  {
    var delay := delay0;
    var sleeps: seq<int> := [];
    var attempt: nat := 0;
    while attempt < maxRetries
      invariant attempt == 0 || attempt < maxRetries
      invariant |sleeps| == attempt
      invariant var rest := RetryFrom(outcome, attempt, maxRetries, delay);
        Retry(outcome, maxRetries, delay0) == RetryRun(rest.result, rest.attempts + attempt, sleeps + rest.sleeps)
    {
      match outcome(attempt)
      case Ok(body) =>
        return RetryRun(Some(body), attempt + 1, sleeps);
      case Failed =>
        if attempt < maxRetries - 1 {
          RetryStep(outcome, attempt, maxRetries, delay, sleeps);
          sleeps := sleeps + [delay];
          delay := delay * 2;
        } else {
          return RetryRun(Some(""), attempt + 1, sleeps);
        }
      attempt := attempt + 1;
    }
    assert sleeps == [];
    run := RetryRun(None, 0, []);
  }

  /** A failed attempt that is not the last sleeps the current delay and tries again with twice the delay. */
  lemma RetryStep(outcome: nat -> Attempt, k: nat, maxRetries: int, delay: int, sleeps: seq<int>)
    requires k < maxRetries - 1 && outcome(k).Failed?
    ensures var now, rest := RetryFrom(outcome, k, maxRetries, delay), RetryFrom(outcome, k + 1, maxRetries, delay * 2);
      now == RetryRun(rest.result, rest.attempts + 1, [delay] + rest.sleeps)
      && sleeps + now.sleeps == (sleeps + [delay]) + rest.sleeps
  {
    var rest := RetryFrom(outcome, k + 1, maxRetries, delay * 2);
    assert sleeps + ([delay] + rest.sleeps) == (sleeps + [delay]) + rest.sleeps;
  }

  /**
   * With at least one attempt allowed: between one and `maxRetries` requests
   * are made, a sleep happens between two attempts and never after the last,
   * and the `j`-th sleep is `delay * 2^j`. With none allowed, nothing is
   * requested and the result is `None`.
   */
  lemma {:induction false} RetryFromShape(outcome: nat -> Attempt, k: nat, maxRetries: int, delay: int)
    requires k < maxRetries
    decreases maxRetries - k
    ensures 1 <= RetryFrom(outcome, k, maxRetries, delay).attempts <= maxRetries - k
    ensures |RetryFrom(outcome, k, maxRetries, delay).sleeps| == RetryFrom(outcome, k, maxRetries, delay).attempts - 1
    ensures forall j :: 0 <= j < |RetryFrom(outcome, k, maxRetries, delay).sleeps| ==>
      RetryFrom(outcome, k, maxRetries, delay).sleeps[j] == delay * Pow2(j)
    ensures RetryFrom(outcome, k, maxRetries, delay).result.Some?
  {
    if outcome(k).Failed? && k < maxRetries - 1 {
      RetryFromShape(outcome, k + 1, maxRetries, delay * 2);
      var rest := RetryFrom(outcome, k + 1, maxRetries, delay * 2);
      var s := [delay] + rest.sleeps;
      assert RetryFrom(outcome, k, maxRetries, delay).sleeps == s;
      forall j | 0 <= j < |s| ensures s[j] == delay * Pow2(j) {
        if j > 0 {
          assert s[j] == rest.sleeps[j - 1] == delay * 2 * Pow2(j - 1);
        }
      }
    }
  }

  lemma RetryShape(outcome: nat -> Attempt, maxRetries: int, delay: int)
    ensures maxRetries <= 0 ==> Retry(outcome, maxRetries, delay) == RetryRun(None, 0, [])
    ensures maxRetries > 0 ==>
      && 1 <= Retry(outcome, maxRetries, delay).attempts <= maxRetries
      && |Retry(outcome, maxRetries, delay).sleeps| == Retry(outcome, maxRetries, delay).attempts - 1
      && Retry(outcome, maxRetries, delay).result.Some?
    ensures forall j :: 0 <= j < |Retry(outcome, maxRetries, delay).sleeps| ==>
      Retry(outcome, maxRetries, delay).sleeps[j] == delay * Pow2(j)
  {
    if maxRetries > 0 {
      RetryFromShape(outcome, 0, maxRetries, delay);
    }
  }

  /** The body of the first successful attempt is returned, after exactly that many requests. */
  lemma {:induction false} RetryFromFirstSuccess(outcome: nat -> Attempt, k: nat, maxRetries: int, delay: int, i: nat)
    requires k <= i < maxRetries && outcome(i).Ok?
    requires forall j :: k <= j < i ==> outcome(j).Failed?
    decreases i - k
    ensures RetryFrom(outcome, k, maxRetries, delay).result == Some(outcome(i).body)
    ensures RetryFrom(outcome, k, maxRetries, delay).attempts == i - k + 1
  {
    if k < i {
      assert outcome(k).Failed?;
      RetryFromFirstSuccess(outcome, k + 1, maxRetries, delay * 2, i);
    }
  }

  lemma RetryFirstSuccess(outcome: nat -> Attempt, maxRetries: int, delay: int, i: nat)
    requires i < maxRetries && outcome(i).Ok?
    requires forall j :: 0 <= j < i ==> outcome(j).Failed?
    ensures Retry(outcome, maxRetries, delay).result == Some(outcome(i).body)
    ensures Retry(outcome, maxRetries, delay).attempts == i + 1
  {
    RetryFromFirstSuccess(outcome, 0, maxRetries, delay, i);
  }

  /** When every allowed attempt fails, all of them are made and the result is the empty text. */
  lemma {:induction false} RetryFromAllFail(outcome: nat -> Attempt, k: nat, maxRetries: int, delay: int)
    requires k < maxRetries
    requires forall j :: k <= j < maxRetries ==> outcome(j).Failed?
    decreases maxRetries - k
    ensures RetryFrom(outcome, k, maxRetries, delay).result == Some("")
    ensures RetryFrom(outcome, k, maxRetries, delay).attempts == maxRetries - k
  {
    if k < maxRetries - 1 {
      assert outcome(k).Failed?;
      RetryFromAllFail(outcome, k + 1, maxRetries, delay * 2);
    }
  }

  lemma RetryAllFail(outcome: nat -> Attempt, maxRetries: int, delay: int)
    requires maxRetries > 0
    requires forall j :: 0 <= j < maxRetries ==> outcome(j).Failed?
    ensures Retry(outcome, maxRetries, delay).result == Some("")
    ensures Retry(outcome, maxRetries, delay).attempts == maxRetries
  {
    RetryFromAllFail(outcome, 0, maxRetries, delay);
  }

  // ---------------------------------------------------------------- download_ics

  /** What `download_ics` raises: the missing URL, a page that is not a calendar, or a failed request. */
  datatype IcsError = MissingUrl | NotIcs | RequestFailed

  /** The page requested first, for the session cookies. */
  const HomeUrl: string := "https://plan.uz.zgora.pl/"

  /**
   * The fallback URL: `url` itself, one separator and `authenticate=true`;
   * the separator is `&` exactly when `url` already has a query (`?`), so
   * the result always carries a query string.
   */
  function AuthenticatedUrl(url: string): (r: string)
    ensures |r| == |url| + 18 && r[..|url|] == url && r[|url| + 1..] == "authenticate=true"
    ensures r[|url|] == '&' <==> Contains(url, "?")
    ensures r[|url|] == '?' <==> !Contains(url, "?")
    ensures Contains(r, "?")
  {
    var r := url + (if Contains(url, "?") then "&" else "?") + "authenticate=true";
    assert r[..|url|] == url;
    assert r[|url| + 1..] == "authenticate=true";
    QueryKept(url, r);
    r
  }

  lemma QueryKept(url: string, r: string)
    requires |r| > |url| && r[..|url|] == url
    requires r[|url|] == (if Contains(url, "?") then '&' else '?')
    ensures Contains(r, "?")
  {
    if Contains(url, "?") {
      ContainsInfix(r, 0, |url|, "?");
    } else {
      assert r[|url|..|url| + 1] == "?";
      ContainsAt(r, "?", |url|);
    }
  }

  predicate IsCalendar(body: string) {
    Contains(body, "BEGIN:VCALENDAR")
  }

  /** A download: its outcome and the URLs requested, in order. */
  datatype IcsDownload = IcsDownload(result: Result<string, IcsError>, requested: seq<string>)

  /**
   * `download_ics`, with `get(u)` the body of the session's response for `u`
   * (`None`: the request raised). An empty URL is refused before any request.
   */
  function DownloadIcs(url: string, get: string -> Option<string>): (d: IcsDownload)
    ensures url == "" <==> d.result == Failure(MissingUrl)
    ensures url == "" ==> d.requested == []
    ensures url != "" ==> 1 <= |d.requested| <= 3 && d.requested[0] == HomeUrl
    ensures d.result.Success? ==> IsCalendar(d.result.value)
  {
    if url == "" then IcsDownload(Failure(MissingUrl), [])
    else if get(HomeUrl).None? then IcsDownload(Failure(RequestFailed), [HomeUrl])
    else
      match get(url)
      case None => IcsDownload(Failure(RequestFailed), [HomeUrl, url])
      case Some(body) =>
        if IsCalendar(body) then IcsDownload(Success(body), [HomeUrl, url])
        else
          var retry := AuthenticatedUrl(url);
          match get(retry)
          case None => IcsDownload(Failure(RequestFailed), [HomeUrl, url, retry])
          case Some(body2) =>
            IcsDownload(if IsCalendar(body2) then Success(body2) else Failure(NotIcs), [HomeUrl, url, retry])
  }

  /**
   * A first response holding `BEGIN:VCALENDAR` anywhere is returned as it is,
   * without a second request; otherwise the authenticated URL is requested
   * once, and its response is returned iff it is a calendar.
   */
  lemma DownloadIcsFallback(url: string, get: string -> Option<string>)
    requires url != "" && get(HomeUrl).Some? && get(url).Some?
    ensures IsCalendar(get(url).value) ==> DownloadIcs(url, get) == IcsDownload(Success(get(url).value), [HomeUrl, url])
    ensures !IsCalendar(get(url).value) ==>
      && DownloadIcs(url, get).requested == [HomeUrl, url, AuthenticatedUrl(url)]
      && (get(AuthenticatedUrl(url)).Some? && IsCalendar(get(AuthenticatedUrl(url)).value)
          <==> DownloadIcs(url, get).result == Success(get(AuthenticatedUrl(url)).GetOr("")))
  {
  }

  /** Acceptance is a substring test: a calendar after a preamble is still accepted. */
  lemma CalendarAnywhere(prefix: string, rest: string)
    ensures IsCalendar(prefix + "BEGIN:VCALENDAR" + rest)
  {
    var s := prefix + "BEGIN:VCALENDAR" + rest;
    assert s[|prefix|..|prefix| + 15] == "BEGIN:VCALENDAR";
    ContainsAt(s, "BEGIN:VCALENDAR", |prefix|);
  }

  // ---------------------------------------------------------------- fetch_page_cached

  /** `fetch_page`: the body, or "" when the request raised. */
  function FetchPage(url: string, get: string -> Option<string>): string {
    get(url).GetOr("")
  }

  /** The `lru_cache` of `fetch_page_cached`, as the table of URLs already fetched. */
  class PageCache {
    var memo: map<string, string>

    /** Every remembered body is what `fetch_page` gives for its URL. */
    ghost predicate Valid(get: string -> Option<string>)
      reads this
    {
      forall u :: u in memo ==> memo[u] == FetchPage(u, get)
    }

    constructor ()
      ensures memo == map[]
    {
      memo := map[];
    }

    /** A remembered URL is answered from the table; any other is fetched and remembered. */
    method FetchPageCached(url: string, get: string -> Option<string>) returns (body: string)
      modifies this
      ensures url in old(memo) ==> body == old(memo)[url] && memo == old(memo)
      ensures url !in old(memo) ==> body == FetchPage(url, get) && memo == old(memo)[url := body]
      ensures old(Valid(get)) ==> Valid(get) && body == FetchPage(url, get)
    {
      if url in memo {
        body := memo[url];
      } else {
        body := FetchPage(url, get);
        memo := memo[url := body];
      }
    }
  }
}

/**
 * Labels that several scrapers derive from link texts and hrefs in the same
 * way: the course type, the group code, the study mode, URL prefixing, and
 * the `ID=` parameter of a link.
 */
module Labels {
  import opened Wrappers
  import opened Text

  /** `BASE_URL` of the scraper classes (no trailing slash). */
  const PlanBaseUrl: string := "https://plan.uz.zgora.pl"

  /** The URL the class-based scrapers fetch for a site-relative link: `f"{BASE_URL}/{link}"`. */
  function PlanUrl(link: string): (r: string)
    ensures StartsWith(r, PlanBaseUrl + "/") && r[|PlanBaseUrl| + 1..] == link
  {
    PlanBaseUrl + "/" + link
  }

  /** `BASE_URL` of the downloader module, used by the function-style scrapers (with a trailing slash). */
  const BaseUrl: string := "https://plan.uz.zgora.pl/"

  /** What a scraper reads from an `<a>` tag: its `href` ("" when absent) and its text. */
  datatype Anchor = Anchor(href: string, text: string)

  /**
   * The course type of a course name, decided on the lower-cased name:
   * "studia podyplomowe" before "erasmus".
   */
  function TypKierunku(nazwa: string): (r: string)
    ensures r == "podyplomowe" <==> Contains(Lower(nazwa), "studia podyplomowe")
    ensures r == "erasmus" <==> !Contains(Lower(nazwa), "studia podyplomowe") && Contains(Lower(nazwa), "erasmus")
    ensures r == "standardowy" <==> !Contains(Lower(nazwa), "studia podyplomowe") && !Contains(Lower(nazwa), "erasmus")
  {
    if Contains(Lower(nazwa), "studia podyplomowe") then "podyplomowe"
    else if Contains(Lower(nazwa), "erasmus") then "erasmus"
    else "standardowy"
  }

  /**
   * `re.match(r'^(\S+)', nazwa)` or the whole name: the leading maximal run of
   * non-whitespace, or the name itself when it starts with whitespace or is empty.
   */
  function KodGrupy(nazwa: string): (r: string)
    ensures |nazwa| > 0 && !IsSpace(nazwa[0]) ==>
      0 < |r| <= |nazwa| && r == nazwa[..|r|] && NoSpace(r) && (|r| == |nazwa| || IsSpace(nazwa[|r|]))
    ensures (|nazwa| == 0 || IsSpace(nazwa[0])) ==> r == nazwa
  {
    if |nazwa| > 0 && !IsSpace(nazwa[0]) then WordPrefix(nazwa) else nazwa
  }

  /** A stripped name's code is its first word. */
  lemma KodGrupyIsFirstWord(nazwa: string)
    requires Strip(nazwa) != ""
    ensures KodGrupy(Strip(nazwa)) == Words(nazwa)[0]
  {
    var s := Strip(nazwa);
    assert TrimStart(nazwa) != [];
    WordPrefixOfTrimmed(TrimStart(nazwa));
  }

  /** The first word of a text without leading whitespace is the same after trailing whitespace goes. */
  lemma WordPrefixOfTrimmed(t: string)
    requires t != [] && !IsSpace(t[0])
    ensures WordPrefix(TrimEnd(t)) == WordPrefix(t)
    decreases |t|
  {
    if |t| > 1 && !IsSpace(t[1]) {
      assert TrimEnd(t)[1..] == TrimEnd(t[1..]) by { TrimEndTail(t); }
      WordPrefixOfTrimmed(t[1..]);
    } else if |t| > 1 {
      var e := TrimEnd(t);
      TrimEndTail(t);
    }
  }

  lemma TrimEndTail(t: string)
    requires t != [] && !IsSpace(t[0])
    ensures |TrimEnd(t)| > 0 && TrimEnd(t)[0] == t[0] && TrimEnd(t)[1..] == TrimEnd(t[1..])
    decreases |t|
  {
    if IsSpace(t[|t| - 1]) {
      assert |t| > 1;
      assert t[..|t| - 1][1..] == t[1..][..|t[1..]| - 1];
      TrimEndTail(t[..|t| - 1]);
    }
  }

  /** `tryb_studiow` from a group name: "niestacjonarne" anywhere in the lower-cased name. */
  function TrybZNazwy(nazwa: string): (r: string)
    ensures r == "niestacjonarne" <==> Contains(Lower(nazwa), "niestacjonarne")
    ensures r == "stacjonarne" <==> !Contains(Lower(nazwa), "niestacjonarne")
  {
    if Contains(Lower(nazwa), "niestacjonarne") then "niestacjonarne" else "stacjonarne"
  }

  /** `f"{base}/{url}" if not url.startswith('http') else url`. */
  function PrefixedUrl(base: string, url: string): (r: string)
    ensures StartsWith(url, "http") ==> r == url
    ensures !StartsWith(url, "http") ==> r == base + "/" + url && StartsWith(r, base)
  {
    if StartsWith(url, "http") then url else base + "/" + url
  }

  /**
   * `href.split("ID=")[1].split("&")[0]` when `"ID=" in href`: the text after
   * the first `ID=` up to the next `ID=` or `&`; None without `ID=`.
   */
  function IdParam(href: string): (r: Option<string>)
    ensures r.None? <==> !Contains(href, "ID=")
    ensures r.Some? ==> '&' !in r.value && !Contains(r.value, "ID=")
  {
    match Segment1(href, "ID=")
    case None => None
    case Some(seg) =>
      BeforeLacks(seg, '&');
      BeforeLacksSep(After(href, "ID=").value, "ID=");
      NoIdInPrefix(seg, |Before(seg, "&")|);
      Some(Before(seg, "&"))
  }

  lemma NoIdInPrefix(seg: string, k: nat)
    requires k <= |seg| && !Contains(seg, "ID=")
    ensures !Contains(seg[..k], "ID=")
  {
    if Contains(seg[..k], "ID=") {
      assert seg[0..k] == seg[..k];
      ContainsInfix(seg, 0, k, "ID=");
    }
  }

  /**
   * A link `pre + id + rest` whose only `ID=` before the digits ends `pre` and
   * whose digits are followed by nothing or an `&` carries exactly those digits.
   */
  lemma IdParamOfDigits(pre: string, id: string, rest: string)
    requires |pre| >= 3 && pre[|pre| - 3..] == "ID=" && forall i :: 0 <= i < |pre| - 3 ==> pre[i] != 'I'
    requires AllDigits(id)
    requires rest == [] || rest[0] == '&'
    ensures IdParam(pre + id + rest) == Some(id)
  {
    var s := pre + id + rest;
    var k := |pre| - 3;
    assert s[k..k + 3] == pre[k..];
    FindAfterLacking(s, "ID=", k);
    var after := s[k + 3..];
    assert after == id + rest;
    var seg := Before(after, "ID=");
    forall j | 0 <= j < |id| ensures !OccursAt(after, "ID=", j) {
      assert after[j] == id[j] && IsDigit(id[j]);
      if j + 3 <= |after| {
        assert after[j..j + 3][0] == after[j];
      }
    }
    if rest == [] {
      FindLacking(after, "ID=");
      FindLacking(seg, "&");
    } else {
      assert |seg| > |id| && seg[..|id|] == id && seg[|id|] == '&' by {
        match Find(after, "ID=")
        case None =>
        case Some(m) =>
          assert m > |id|;
      }
      assert seg[|id|..|id| + 1] == "&";
      FindAfterLacking(seg, "&", |id|);
    }
  }
}

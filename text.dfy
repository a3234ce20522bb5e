/**
 * The string operations of Python that the scrapers use, on `seq<char>`.
 *
 * Whitespace is exactly the set for which `str.isspace()` holds, which is also
 * what `\s` matches in a `re` pattern over `str` and what `str.strip()` and
 * `str.split()` treat as whitespace. Case folding (`str.lower()`) and `\d` are
 * approximated: see `LowerChar` and `IsDigit`.
 */
module Text {
  import opened Wrappers

  /** Python's `str.isspace()` for one character. */
  predicate IsSpace(c: char) {
    || ('\t' <= c <= '\r')
    || ('\U{1C}' <= c <= ' ')
    || c == '\U{85}' || c == '\U{A0}' || c == '\U{1680}'
    || ('\U{2000}' <= c <= '\U{200A}')
    || c == '\U{2028}' || c == '\U{2029}' || c == '\U{202F}' || c == '\U{205F}' || c == '\U{3000}'
  }

  /** An ASCII decimal digit (`[0-9]`; also the model of `\d`). */
  predicate IsDigit(c: char) {
    '0' <= c <= '9'
  }

  predicate AllDigits(s: string) {
    forall i :: 0 <= i < |s| ==> IsDigit(s[i])
  }

  predicate NoSpace(s: string) {
    forall i :: 0 <= i < |s| ==> !IsSpace(s[i])
  }

  // ---------------------------------------------------------------- strip

  /** `str.lstrip()`: drops the leading whitespace and nothing else. */
  function TrimStart(s: string): (r: string)
    ensures |r| <= |s| && r == s[|s| - |r|..]
    ensures forall i :: 0 <= i < |s| - |r| ==> IsSpace(s[i])
    ensures r == [] || !IsSpace(r[0])
  {
    if |s| > 0 && IsSpace(s[0]) then TrimStart(s[1..]) else s
  }

  /** `str.rstrip()`: drops the trailing whitespace and nothing else. */
  function TrimEnd(s: string): (r: string)
    ensures |r| <= |s| && r == s[..|r|]
    ensures forall i :: |r| <= i < |s| ==> IsSpace(s[i])
    ensures r == [] || !IsSpace(r[|r| - 1])
  {
    if |s| > 0 && IsSpace(s[|s| - 1]) then TrimEnd(s[..|s| - 1]) else s
  }

  /** `str.strip()`. */
  function Strip(s: string): (r: string)
    ensures |r| <= |s|
    ensures r == [] || (!IsSpace(r[0]) && !IsSpace(r[|r| - 1]))
  {
    TrimEnd(TrimStart(s))
  }

  lemma StripOfUnspaced(s: string)
    requires NoSpace(s)
    ensures Strip(s) == s
  {
    if |s| > 0 {
      assert !IsSpace(s[0]) && !IsSpace(s[|s| - 1]);
    }
  }

  /** A string that neither starts nor ends with whitespace is its own strip. */
  lemma StripUnpadded(s: string)
    requires s == [] || (!IsSpace(s[0]) && !IsSpace(s[|s| - 1]))
    ensures Strip(s) == s
  {
    TrimStartUnpadded(s);
    TrimEndUnpadded(s);
  }

  lemma TrimStartUnpadded(s: string)
    requires s == [] || !IsSpace(s[0])
    ensures TrimStart(s) == s
  {
  }

  lemma TrimEndUnpadded(s: string)
    requires s == [] || !IsSpace(s[|s| - 1])
    ensures TrimEnd(s) == s
  {
  }

  /** One trailing space is dropped from an otherwise unpadded string. */
  lemma StripSpaceAfter(w: string)
    requires w != [] && !IsSpace(w[0]) && !IsSpace(w[|w| - 1])
    ensures Strip(w + " ") == w
  {
    var s := w + " ";
    assert TrimStart(s) == s;
    assert s[..|s| - 1] == w;
    assert TrimEnd(w) == w;
  }

  /** Leading whitespace does not change the strip. */
  lemma StripAfterSpaces(s: string, k: nat)
    requires k <= |s| && forall j :: 0 <= j < k ==> IsSpace(s[j])
    ensures Strip(s) == Strip(s[k..])
    decreases k
  {
    if k > 0 {
      assert s[1..][k - 1..] == s[k..];
      StripAfterSpaces(s[1..], k - 1);
    }
  }

  /** Stripping keeps a piece of the string, so it adds no character. */
  lemma StripLacks(s: string, c: char)
    requires c !in s
    ensures c !in Strip(s)
  {
    var a := TrimStart(s);
    assert a == s[|s| - |a|..];
    assert TrimEnd(a) == a[..|TrimEnd(a)|];
  }

  /** Stripping twice is stripping once. */
  lemma StripIdempotent(s: string)
    ensures Strip(Strip(s)) == Strip(s)
  {
    var r := Strip(s);
    if |r| > 0 {
      assert TrimStart(r) == r;
      assert TrimEnd(r) == r;
    }
  }

  /** `str.strip(chars)` with an explicit character set. */
  function StripChars(s: string, chars: set<char>): (r: string)
    decreases |s|
    ensures |r| <= |s|
    ensures r == [] || (r[0] !in chars && r[|r| - 1] !in chars)
  {
    if |s| > 0 && s[0] in chars then StripChars(s[1..], chars)
    else if |s| > 0 && s[|s| - 1] in chars then StripChars(s[..|s| - 1], chars)
    else s
  }

  // ---------------------------------------------------------------- case

  /**
   * `str.lower()` for one character, restricted to ASCII, Latin-1 and the
   * Polish letters with diacritics.
   */
  function LowerChar(c: char): char {
    if 'A' <= c <= 'Z' || ('\U{C0}' <= c <= '\U{DE}' && c != '\U{D7}') then
      (c as int + 32) as char
    else if c in {'\U{104}', '\U{106}', '\U{118}', '\U{141}', '\U{143}', '\U{15A}', '\U{179}', '\U{17B}'} then
      (c as int + 1) as char
    else
      c
  }

  function Lower(s: string): (r: string)
    ensures |r| == |s|
  {
    seq(|s|, i requires 0 <= i < |s| => LowerChar(s[i]))
  }

  // ---------------------------------------------------------------- search

  predicate OccursAt(s: string, t: string, i: nat) {
    i + |t| <= |s| && s[i..i + |t|] == t
  }

  /** The end of the maximal run of characters outside `stop` that starts at `i`. */
  function RunEnd(s: string, i: nat, stop: set<char>): (k: nat)
    requires i <= |s|
    decreases |s| - i
    ensures i <= k <= |s|
    ensures forall j :: i <= j < k ==> s[j] !in stop
    ensures k < |s| ==> s[k] in stop
  {
    if i == |s| || s[i] in stop then i else RunEnd(s, i + 1, stop)
  }

  /** The end of the maximal run of whitespace that starts at `i` (what a greedy `\s*` takes). */
  function SpaceEnd(s: string, i: nat): (k: nat)
    requires i <= |s|
    decreases |s| - i
    ensures i <= k <= |s|
    ensures forall j :: i <= j < k ==> IsSpace(s[j])
    ensures k < |s| ==> !IsSpace(s[k])
  {
    if i == |s| || !IsSpace(s[i]) then i else SpaceEnd(s, i + 1)
  }

  /** The leftmost occurrence of `t` in `s` at or after `from` (`str.find(t, from)`). */
  function FindFrom(s: string, t: string, from: nat): (r: Option<nat>)
    decreases |s| - from
    ensures r.Some? ==> from <= r.value && OccursAt(s, t, r.value)
    ensures r.Some? ==> forall j :: from <= j < r.value ==> !OccursAt(s, t, j)
    ensures r.None? ==> forall j :: from <= j ==> !OccursAt(s, t, j)
  {
    if from + |t| > |s| then None
    else if OccursAt(s, t, from) then Some(from)
    else FindFrom(s, t, from + 1)
  }

  /** The leftmost index at or after `from` holding `c` (`str.find(c, from)` for one character). */
  function FindCharFrom(s: string, c: char, from: nat): (r: Option<nat>)
    decreases |s| - from
    ensures r.Some? ==> from <= r.value < |s| && s[r.value] == c
    ensures r.Some? ==> forall j :: from <= j < r.value ==> s[j] != c
    ensures r.None? ==> forall j :: from <= j < |s| ==> s[j] != c
  {
    if from >= |s| then None
    else if s[from] == c then Some(from)
    else FindCharFrom(s, c, from + 1)
  }

  function FindChar(s: string, c: char): Option<nat> {
    FindCharFrom(s, c, 0)
  }

  function Find(s: string, t: string): Option<nat> {
    FindFrom(s, t, 0)
  }

  /** Python's `t in s`. */
  predicate Contains(s: string, t: string) {
    Find(s, t).Some?
  }

  lemma ContainsIff(s: string, t: string)
    ensures Contains(s, t) <==> exists i :: OccursAt(s, t, i)
  {
    if !Contains(s, t) {
      forall i ensures !OccursAt(s, t, i) {
        assert 0 <= i;
      }
    }
  }

  lemma ContainsAt(s: string, t: string, i: nat)
    requires OccursAt(s, t, i)
    ensures Contains(s, t)
  {
    ContainsIff(s, t);
  }

  /** A string holding `u` holds every tail of `u` ("niestacjonarne" holds "stacjonarne"). */
  lemma ContainsTail(s: string, u: string, k: nat)
    requires k <= |u| && Contains(s, u)
    ensures Contains(s, u[k..])
  {
    var i := Find(s, u).value;
    assert s[i + k..i + |u|] == s[i..i + |u|][k..];
    ContainsAt(s, u[k..], i + k);
  }

  /** An occurrence inside a part of a string is an occurrence in the string. */
  lemma ContainsInfix(s: string, i: nat, j: nat, t: string)
    requires i <= j <= |s|
    requires Contains(s[i..j], t)
    ensures Contains(s, t)
  {
    var u := s[i..j];
    var k := Find(u, t).value;
    assert OccursAt(u, t, k);
    assert k + |t| <= j - i;
    forall m | 0 <= m < |t| ensures s[i + k + m] == t[m] {
      assert u[k..k + |t|][m] == u[k + m];
    }
    assert s[i + k..i + k + |t|] == t;
    ContainsAt(s, t, i + k);
  }

  /** An occurrence with none before it is the one `Find` reports. */
  lemma FindFirstAt(s: string, t: string, k: nat)
    requires OccursAt(s, t, k) && forall i :: 0 <= i < k ==> !OccursAt(s, t, i)
    ensures Find(s, t) == Some(k)
  {
  }

  /** A string without the first character of `t` holds no `t`. */
  lemma FindLacking(s: string, t: string)
    requires t != [] && forall i :: 0 <= i < |s| ==> s[i] != t[0]
    ensures Find(s, t).None?
  {
    ContainsIff(s, t);
  }

  /** A one-character string occurs exactly when the character does. */
  lemma FindSingle(s: string, c: char)
    ensures Find(s, [c]).Some? <==> c in s
  {
    if c in s {
      var i :| 0 <= i < |s| && s[i] == c;
      assert s[i..i + 1] == [c];
      ContainsAt(s, [c], i);
    } else {
      FindLacking(s, [c]);
    }
  }

  /** An occurrence at `k` with the first character of `t` nowhere before it is the one `Find` reports. */
  lemma FindAfterLacking(s: string, t: string, k: nat)
    requires OccursAt(s, t, k) && t != [] && forall i :: 0 <= i < k ==> s[i] != t[0]
    ensures Find(s, t) == Some(k)
  {
    forall i | 0 <= i < k ensures !OccursAt(s, t, i) {
      if i + |t| <= |s| {
        assert s[i..i + |t|][0] == s[i];
      }
    }
    FindFirstAt(s, t, k);
  }

  /** The text before the first `sep`, or all of `s` (`s.split(sep, 1)[0]`). */
  function Before(s: string, sep: string): (r: string)
    ensures |r| <= |s| && r == s[..|r|]
    ensures Find(s, sep).None? ==> r == s
  {
    match Find(s, sep)
    case None => s
    case Some(k) => s[..k]
  }

  /** The text before the first `sep` holds no `sep`. */
  lemma BeforeLacksSep(s: string, sep: string)
    requires sep != []
    ensures !Contains(Before(s, sep), sep)
  {
    var r := Before(s, sep);
    ContainsIff(r, sep);
    if Find(s, sep).Some? {
      forall j: nat ensures !OccursAt(r, sep, j) {
        if OccursAt(r, sep, j) {
          assert r[j..j + |sep|] == s[j..j + |sep|];
          assert OccursAt(s, sep, j);
        }
      }
    }
  }

  /** The first colon of `key + ":" + value` is the one after `key`. */
  lemma FirstColon(key: string, value: string)
    requires ':' !in key
    ensures FindChar(key + ":" + value, ':') == Some(|key|)
    ensures (key + ":" + value)[..|key|] == key && (key + ":" + value)[|key| + 1..] == value
  {
    var line := key + ":" + value;
    forall j | 0 <= j < |key| ensures line[j] != ':' { assert line[j] == key[j]; }
    assert line[|key|] == ':';
  }

  /** The text before the first `c` holds no `c`. */
  lemma BeforeLacks(s: string, c: char)
    ensures c !in Before(s, [c])
  {
    FindSingle(s, c);
    if Find(s, [c]).Some? {
      var k := Find(s, [c]).value;
      forall i | 0 <= i < k ensures s[i] != c {
        assert !OccursAt(s, [c], i);
        assert s[i..i + 1] == [s[i]];
      }
    }
  }

  /** The text after the first `sep`, if `sep` occurs (`s.split(sep, 1)[1]`). */
  function After(s: string, sep: string): Option<string> {
    match Find(s, sep)
    case None => None
    case Some(k) => Some(s[k + |sep|..])
  }

  /** `s.split(sep)[1]` when `sep in s`: the text between the first and the second `sep`. */
  function Segment1(s: string, sep: string): Option<string> {
    match After(s, sep)
    case None => None
    case Some(rest) => Some(Before(rest, sep))
  }

  // ---------------------------------------------------------------- replace

  /** `s.replace(pat, rep)`: every non-overlapping occurrence, left to right. */
  function Replace(s: string, pat: string, rep: string): string
    requires |pat| > 0
    decreases |s|
  {
    if |s| < |pat| then s
    else if s[..|pat|] == pat then rep + Replace(s[|pat|..], pat, rep)
    else [s[0]] + Replace(s[1..], pat, rep)
  }

  lemma {:induction false} ReplaceAbsent(s: string, pat: string, rep: string)
    requires |pat| > 0 && !Contains(s, pat)
    ensures Replace(s, pat, rep) == s
    decreases |s|
  {
    if |s| >= |pat| {
      if s[..|pat|] == pat {
        assert false;
      } else {
        if Contains(s[1..], pat) {
          assert s[1..] == s[1..|s|];
          ContainsInfix(s, 1, |s|, pat);
        }
        ReplaceAbsent(s[1..], pat, rep);
        assert s == [s[0]] + s[1..];
      }
    }
  }

  /**
   * When the first occurrence of `pat` is right after `a`, the replacement
   * keeps `a`, puts `rep` in its place and carries on after it.
   */
  lemma {:induction false} ReplaceFirst(a: string, pat: string, b: string, rep: string)
    requires |pat| > 0
    requires forall i :: 0 <= i < |a| ==> !OccursAt(a + pat + b, pat, i)
    ensures Replace(a + pat + b, pat, rep) == a + rep + Replace(b, pat, rep)
    decreases |a|
  {
    var s := a + pat + b;
    if a == [] {
      assert s == pat + b;
      assert s[..|pat|] == pat && s[|pat|..] == b;
    } else {
      assert !OccursAt(s, pat, 0);
      assert s[1..] == a[1..] + pat + b;
      forall i | 0 <= i < |a[1..]|
        ensures !OccursAt(a[1..] + pat + b, pat, i)
      {
        assert !OccursAt(s, pat, i + 1);
        assert s[i + 1..i + 1 + |pat|] == s[1..][i..i + |pat|];
      }
      ReplaceFirst(a[1..], pat, b, rep);
      assert [s[0]] + (a[1..] + rep + Replace(b, pat, rep)) == a + rep + Replace(b, pat, rep);
    }
  }

  /** `s.replace(a, b)` for one-character `a` and `b`. */
  function ReplaceChar(s: string, a: char, b: char): (r: string)
    ensures |r| == |s|
    ensures forall i :: 0 <= i < |s| ==> r[i] == (if s[i] == a then b else s[i])
  {
    seq(|s|, i requires 0 <= i < |s| => if s[i] == a then b else s[i])
  }

  // ---------------------------------------------------------------- words

  /** The longest prefix of `s` without whitespace. */
  function WordPrefix(s: string): (w: string)
    ensures |w| <= |s| && w == s[..|w|] && NoSpace(w)
    ensures |w| < |s| ==> IsSpace(s[|w|])
    ensures |s| > 0 && !IsSpace(s[0]) ==> |w| > 0
  {
    if |s| == 0 || IsSpace(s[0]) then [] else [s[0]] + WordPrefix(s[1..])
  }

  /** `str.split()` with no argument: the maximal runs of non-whitespace. */
  function Words(s: string): seq<string>
    decreases |s|
  {
    var t := TrimStart(s);
    if t == [] then []
    else
      var w := WordPrefix(t);
      assert 0 < |w| <= |t| <= |s|;
      var rest := Words(t[|w|..]);
      [w] + rest
  }

  /** Every word is non-empty and holds no whitespace. */
  lemma {:induction false} WordsUnspaced(s: string)
    decreases |s|
    ensures forall k :: 0 <= k < |Words(s)| ==> |Words(s)[k]| > 0 && NoSpace(Words(s)[k])
  {
    var t := TrimStart(s);
    if t != [] {
      var w := WordPrefix(t);
      var rest := Words(t[|w|..]);
      WordsUnspaced(t[|w|..]);
      assert Words(s) == [w] + rest;
      forall k | 0 <= k < |Words(s)| ensures |Words(s)[k]| > 0 && NoSpace(Words(s)[k]) {
        if k > 0 {
          assert Words(s)[k] == rest[k - 1];
        }
      }
    }
  }

  /** `str.startswith(p)`. */
  predicate StartsWith(s: string, p: string) {
    |p| <= |s| && s[..|p|] == p
  }

  // ---------------------------------------------------------------- lines

  /** The characters at which `str.splitlines()` breaks a line. */
  predicate IsLineBreak(c: char) {
    c == '\n' || c == '\r' || c == '\U{0B}' || c == '\U{0C}' || ('\U{1C}' <= c <= '\U{1E}')
    || c == '\U{85}' || c == '\U{2028}' || c == '\U{2029}'
  }

  predicate NoLineBreak(s: string) {
    forall j :: 0 <= j < |s| ==> !IsLineBreak(s[j])
  }

  /** The index of the first line break at or after `i`, or `|s|`. */
  function LineEnd(s: string, i: nat): (k: nat)
    requires i <= |s|
    decreases |s| - i
    ensures i <= k <= |s|
    ensures forall j :: i <= j < k ==> !IsLineBreak(s[j])
    ensures k < |s| ==> IsLineBreak(s[k])
  {
    if i == |s| || IsLineBreak(s[i]) then i else LineEnd(s, i + 1)
  }

  /**
   * `str.splitlines()`: `\r\n` counts as one break, a final break does not
   * start an empty line, and the empty string has no lines.
   */
  function SplitLines(s: string): (lines: seq<string>)
    decreases |s|
    ensures |lines| <= |s|
    ensures forall k :: 0 <= k < |lines| ==> NoLineBreak(lines[k])
  {
    if s == [] then []
    else
      var k := LineEnd(s, 0);
      if k == |s| then [s]
      else
        var w := if s[k] == '\r' && k + 1 < |s| && s[k + 1] == '\n' then 2 else 1;
        [s[..k]] + SplitLines(s[k + w..])
  }

  /** `s.split(c)` for a one-character separator. */
  function SplitOn(s: string, c: char): (parts: seq<string>)
    ensures |parts| > 0
  {
    if s == [] then [""]
    else
      var r := SplitOn(s[1..], c);
      if s[0] == c then [""] + r else [[s[0]] + r[0]] + r[1..]
  }

  /** `split` and `join` with the same separator are inverse. */
  lemma {:induction false} JoinSplitOn(s: string, c: char)
    ensures Join(SplitOn(s, c), [c]) == s
  {
    if s != [] {
      var r := SplitOn(s[1..], c);
      JoinSplitOn(s[1..], c);
      if s[0] == c {
        assert ([""] + r)[1..] == r;
      } else {
        var parts := [[s[0]] + r[0]] + r[1..];
        if |r| > 1 {
          assert parts[1..] == r[1..];
        }
      }
    }
  }

  /** `sep.join(parts)`. */
  function Join(parts: seq<string>, sep: string): string {
    if |parts| == 0 then ""
    else if |parts| == 1 then parts[0]
    else parts[0] + sep + Join(parts[1..], sep)
  }

  /** Joining one more part adds the separator and that part. */
  lemma {:induction false} JoinSnoc(parts: seq<string>, x: string, sep: string)
    requires |parts| > 0
    ensures Join(parts + [x], sep) == Join(parts, sep) + sep + x
  {
    if |parts| == 1 {
      assert (parts + [x])[1..] == [x];
    } else {
      assert (parts + [x])[1..] == parts[1..] + [x];
      JoinSnoc(parts[1..], x, sep);
    }
  }

  // ---------------------------------------------------------------- digits

  /** The maximal run of digits that starts at `i`. */
  function DigitRun(s: string, i: nat): (r: string)
    requires i <= |s|
    decreases |s| - i
    ensures i + |r| <= |s| && r == s[i..i + |r|] && AllDigits(r)
    ensures i + |r| < |s| ==> !IsDigit(s[i + |r|])
  {
    if i < |s| && IsDigit(s[i]) then [s[i]] + DigitRun(s, i + 1) else []
  }

  /** Decimal text of a natural number, as `str(n)`. */
  function NatToString(n: nat): (r: string)
    ensures |r| > 0 && AllDigits(r)
  {
    if n < 10 then [('0' as int + n) as char]
    else NatToString(n / 10) + [('0' as int + n % 10) as char]
  }
}

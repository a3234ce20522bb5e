/**
 * Sequence operations that several scrapers share: keeping the first
 * occurrence of each key (the `seen = set()` loops), filtering, and Python's
 * `sorted` / `list.sort` with a key.
 */
module Seqs {
  import opened Wrappers

  // ---------------------------------------------------------------- filter

  /** `[x for x in s if p(x)]`. */
  function Filter<T>(s: seq<T>, p: T -> bool): (r: seq<T>)
    ensures |r| <= |s|
  {
    if s == [] then []
    else if p(s[0]) then [s[0]] + Filter(s[1..], p)
    else Filter(s[1..], p)
  }

  /** What is kept satisfies `p`, and every element of `s` satisfying `p` is kept. */
  lemma {:induction false} FilterMembers<T>(s: seq<T>, p: T -> bool)
    ensures forall x :: x in Filter(s, p) <==> x in s && p(x)
  {
    if s != [] {
      FilterMembers(s[1..], p);
      assert s == [s[0]] + s[1..];
    }
  }

  lemma {:induction false} FilterAppend<T>(s: seq<T>, x: T, p: T -> bool)
    ensures Filter(s + [x], p) == Filter(s, p) + (if p(x) then [x] else [])
  {
    if s == [] {
      assert s + [x] == [x];
    } else {
      assert (s + [x])[1..] == s[1..] + [x];
      FilterAppend(s[1..], x, p);
    }
  }

  lemma AppendAssoc<T>(a: seq<T>, b: seq<T>, c: seq<T>)
    ensures (a + b) + c == a + (b + c)
  {
  }

  /** A sequence of at least two elements is its front followed by its last two elements. */
  lemma SplitLastTwo<T>(s: seq<T>)
    requires |s| >= 2
    ensures s[..|s| - 2] + [s[|s| - 2]] + [s[|s| - 1]] == s
  {
    assert s[..|s| - 2] + [s[|s| - 2]] == s[..|s| - 1];
  }

  /** `[f(x).value for x in s if f(x).Some?]`, read from the back so that appending a row appends its result. */
  function FilterMap<T, U>(s: seq<T>, f: T -> Option<U>): (r: seq<U>)
    ensures |r| <= |s|
  {
    if s == [] then []
    else
      var last := f(s[|s| - 1]);
      FilterMap(s[..|s| - 1], f) + (if last.Some? then [last.value] else [])
  }

  /** Two stretches are mapped one after the other, and one element gives `f`'s value exactly when there is one. */
  lemma {:induction false} FilterMapAppend<T, U>(a: seq<T>, b: seq<T>, f: T -> Option<U>)
    ensures FilterMap(a + b, f) == FilterMap(a, f) + FilterMap(b, f)
  {
    if b == [] {
      assert a + b == a;
    } else {
      var init := b[..|b| - 1];
      FilterMapAppend(a, init, f);
      var ab := a + b;
      assert ab[..|ab| - 1] == a + init && ab[|ab| - 1] == b[|b| - 1];
    }
  }

  lemma FilterMapSingle<T, U>(x: T, f: T -> Option<U>)
    ensures FilterMap([x], f) == if f(x).Some? then [f(x).value] else []
  {
    assert [x][..0] == [];
  }

  /** Each result is `f`'s value at an element of `s`, in order: if every value of `f` has `p`, so does every result. */
  lemma {:induction false} FilterMapAll<T, U>(s: seq<T>, f: T -> Option<U>, p: U -> bool)
    requires forall x :: x in s && f(x).Some? ==> p(f(x).value)
    ensures forall k :: 0 <= k < |FilterMap(s, f)| ==> p(FilterMap(s, f)[k])
  {
    if s != [] {
      FilterMapAll(s[..|s| - 1], f, p);
      assert s[|s| - 1] in s;
    }
  }

  /** Each result is `f`'s value at some element of `s`. */
  lemma {:induction false} FilterMapFrom<T, U>(s: seq<T>, f: T -> Option<U>, k: nat) returns (i: nat)
    requires k < |FilterMap(s, f)|
    ensures i < |s| && f(s[i]) == Some(FilterMap(s, f)[k])
  {
    var n := |s| - 1;
    if k < |FilterMap(s[..n], f)| {
      i := FilterMapFrom(s[..n], f, k);
      assert s[..n][i] == s[i];
    } else {
      i := n;
    }
  }

  /** Every value `f` gives at an element of `s` is among the results. */
  lemma {:induction false} FilterMapComplete<T, U>(s: seq<T>, f: T -> Option<U>, i: nat)
    requires i < |s| && f(s[i]).Some?
    ensures f(s[i]).value in FilterMap(s, f)
  {
    var n := |s| - 1;
    if i < n {
      assert s[..n][i] == s[i];
      FilterMapComplete(s[..n], f, i);
    }
  }

  /** The least index at `from` or later holding a value (what a leftmost search returns). */
  function FirstSome<U>(s: seq<Option<U>>, from: nat): (r: Option<nat>)
    decreases |s| - from
    ensures r.Some? ==> from <= r.value < |s| && s[r.value].Some?
    ensures r.Some? ==> forall j :: from <= j < r.value ==> s[j].None?
    ensures r.None? ==> forall j :: from <= j < |s| ==> s[j].None?
  {
    if from >= |s| then None
    else if s[from].Some? then Some(from)
    else FirstSome(s, from + 1)
  }

  /** A value with none before it is the one found. */
  lemma FirstSomeLeast<U>(s: seq<Option<U>>, from: nat, i: nat)
    requires from <= i < |s| && s[i].Some?
    requires forall j :: from <= j < i ==> s[j].None?
    ensures FirstSome(s, from) == Some(i)
  {
  }

  /** The least index at `from` or later whose element satisfies `p` (BeautifulSoup's `find` with a filter). */
  function FirstIndex<T>(s: seq<T>, p: T -> bool, from: nat): (r: Option<nat>)
    decreases |s| - from
    ensures r.Some? ==> from <= r.value < |s| && p(s[r.value])
    ensures r.Some? ==> forall j :: from <= j < r.value ==> !p(s[j])
    ensures r.None? ==> forall j :: from <= j < |s| ==> !p(s[j])
  {
    if from >= |s| then None
    else if p(s[from]) then Some(from)
    else FirstIndex(s, p, from + 1)
  }

  /** An index satisfying `p` with none before it is the one found. */
  lemma FirstIndexLeast<T>(s: seq<T>, p: T -> bool, from: nat, i: nat)
    requires from <= i < |s| && p(s[i])
    requires forall j :: from <= j < i ==> !p(s[j])
    ensures FirstIndex(s, p, from) == Some(i)
    decreases i - from
  {
    if from < i {
      FirstIndexLeast(s, p, from + 1, i);
    }
  }

  /** Filtering twice with the same test keeps what filtering once kept. */
  lemma {:induction false} FilterIdempotent<T>(s: seq<T>, p: T -> bool)
    ensures Filter(Filter(s, p), p) == Filter(s, p)
  {
    if s != [] {
      FilterIdempotent(s[1..], p);
      if p(s[0]) {
        var r := [s[0]] + Filter(s[1..], p);
        assert r[0] == s[0] && r[1..] == Filter(s[1..], p);
      }
    }
  }

  // ---------------------------------------------------------------- subsequence

  /** `a` is `b` with some elements left out, order kept. */
  predicate Subseq<T(==)>(a: seq<T>, b: seq<T>)
    decreases |b|
  {
    if a == [] then true
    else if b == [] then false
    else if a[0] == b[0] then Subseq(a[1..], b[1..])
    else Subseq(a, b[1..])
  }

  lemma {:induction false} FilterIsSubseq<T>(s: seq<T>, p: T -> bool)
    ensures Subseq(Filter(s, p), s)
  {
    if s != [] {
      FilterIsSubseq(s[1..], p);
      if !p(s[0]) {
        SubseqDrop(Filter(s[1..], p), s[1..], s[0]);
      }
    }
  }

  lemma {:induction false} SubseqDrop<T>(a: seq<T>, b: seq<T>, x: T)
    requires Subseq(a, b)
    ensures Subseq(a, [x] + b)
    decreases |b|, 1
  {
    assert ([x] + b)[1..] == b;
    if a != [] && a[0] == x {
      SubseqTail(a, b);
    }
  }

  /** Dropping the first element of a subsequence leaves a subsequence. */
  lemma {:induction false} SubseqTail<T>(a: seq<T>, b: seq<T>)
    requires a != [] && Subseq(a, b)
    ensures Subseq(a[1..], b)
    decreases |b|, 0
  {
    assert [b[0]] + b[1..] == b;
    if a[0] == b[0] {
      SubseqDrop(a[1..], b[1..], b[0]);
    } else {
      SubseqTail(a, b[1..]);
      SubseqDrop(a[1..], b[1..], b[0]);
    }
  }

  // ---------------------------------------------------------------- first occurrences

  /** The elements of `s` whose key is neither in `seen` nor the key of an earlier element. */
  function DedupFrom<T, K(==)>(s: seq<T>, key: T -> K, seen: set<K>): seq<T> {
    if s == [] then []
    else if key(s[0]) in seen then DedupFrom(s[1..], key, seen)
    else [s[0]] + DedupFrom(s[1..], key, seen + {key(s[0])})
  }

  /** The first element of `s` for each key, in the order of `s`. */
  function Dedup<T, K(==)>(s: seq<T>, key: T -> K): seq<T> {
    DedupFrom(s, key, {})
  }

  /** The loop `for x in s: if key(x) not in seen: seen.add(key(x)); out.append(x)`. */
  method FirstOccurrences<T, K(==)>(s: seq<T>, key: T -> K) returns (out: seq<T>)
    ensures out == Dedup(s, key)
  {
    var seen: set<K> := {};
    out := [];
    var i := 0;
    while i < |s|
      invariant 0 <= i <= |s|
      invariant out + DedupFrom(s[i..], key, seen) == Dedup(s, key)
    {
      assert s[i..][1..] == s[i + 1..];
      if key(s[i]) !in seen {
        seen := seen + {key(s[i])};
        out := out + [s[i]];
      }
      i := i + 1;
    }
  }

  /** One step of the `seen` loop at index `i`. */
  lemma DedupStep<T, K>(s: seq<T>, i: nat, key: T -> K, seen: set<K>)
    requires i < |s|
    ensures DedupFrom(s[i..], key, seen) ==
      if key(s[i]) in seen then DedupFrom(s[i + 1..], key, seen)
      else [s[i]] + DedupFrom(s[i + 1..], key, seen + {key(s[i])})
  {
    assert s[i..][1..] == s[i + 1..];
  }

  /** The invariant `done + DedupFrom(s[i..], key, seen) == target` of a `seen` loop survives one step. */
  lemma DedupLoopStep<T, K>(s: seq<T>, i: nat, key: T -> K, seen: set<K>, done: seq<T>, target: seq<T>)
    requires i < |s| && done + DedupFrom(s[i..], key, seen) == target
    ensures key(s[i]) in seen ==> done + DedupFrom(s[i + 1..], key, seen) == target
    ensures key(s[i]) !in seen ==> (done + [s[i]]) + DedupFrom(s[i + 1..], key, seen + {key(s[i])}) == target
  {
    DedupStep(s, i, key, seen);
    if key(s[i]) !in seen {
      AppendAssoc(done, [s[i]], DedupFrom(s[i + 1..], key, seen + {key(s[i])}));
    }
  }

  /** Every kept element is an element of `s`. */
  lemma {:induction false} DedupMembers<T, K>(s: seq<T>, key: T -> K, seen: set<K>)
    ensures forall x :: x in DedupFrom(s, key, seen) ==> x in s
  {
    if s != [] {
      if key(s[0]) in seen {
        DedupMembers(s[1..], key, seen);
      } else {
        DedupMembers(s[1..], key, seen + {key(s[0])});
      }
    }
  }

  /** No two kept elements share a key, and no kept key was already in `seen`. */
  lemma {:induction false} DedupKeysDistinct<T, K>(s: seq<T>, key: T -> K, seen: set<K>)
    ensures forall i :: 0 <= i < |DedupFrom(s, key, seen)| ==> key(DedupFrom(s, key, seen)[i]) !in seen
    ensures forall i, j :: 0 <= i < j < |DedupFrom(s, key, seen)| ==> key(DedupFrom(s, key, seen)[i]) != key(DedupFrom(s, key, seen)[j])
  {
    if s != [] {
      var r := DedupFrom(s, key, seen);
      if key(s[0]) in seen {
        DedupKeysDistinct(s[1..], key, seen);
        assert r == DedupFrom(s[1..], key, seen);
      } else {
        var seen' := seen + {key(s[0])};
        var rest := DedupFrom(s[1..], key, seen');
        DedupKeysDistinct(s[1..], key, seen');
        assert r == [s[0]] + rest;
        forall i | 0 <= i < |r| ensures key(r[i]) !in seen {
          if i > 0 {
            assert r[i] == rest[i - 1];
          }
        }
        forall i, j | 0 <= i < j < |r| ensures key(r[i]) != key(r[j]) {
          assert r[j] == rest[j - 1];
          if i > 0 {
            assert r[i] == rest[i - 1];
          }
        }
      }
    }
  }

  /** What is kept is a subsequence of the input: page order is preserved. */
  lemma {:induction false} DedupIsSubseq<T, K>(s: seq<T>, key: T -> K, seen: set<K>)
    ensures Subseq(DedupFrom(s, key, seen), s)
  {
    if s != [] {
      if key(s[0]) in seen {
        DedupIsSubseq(s[1..], key, seen);
        SubseqDrop(DedupFrom(s[1..], key, seen), s[1..], s[0]);
        assert [s[0]] + s[1..] == s;
      } else {
        DedupIsSubseq(s[1..], key, seen + {key(s[0])});
      }
    }
  }

  /**
   * Every element of `s` that is the first with its key (and whose key is not
   * in `seen`) is kept.
   */
  lemma {:induction false} DedupKeepsFirst<T, K>(s: seq<T>, key: T -> K, seen: set<K>, i: nat)
    requires i < |s| && key(s[i]) !in seen
    requires forall j :: 0 <= j < i ==> key(s[j]) != key(s[i])
    ensures s[i] in DedupFrom(s, key, seen)
  {
    if i == 0 {
    } else if key(s[0]) in seen {
      DedupKeepsFirst(s[1..], key, seen, i - 1);
    } else {
      DedupKeepsFirst(s[1..], key, seen + {key(s[0])}, i - 1);
    }
  }

  /** Whatever is kept is the first element of `s` with that key. */
  lemma {:induction false} DedupOnlyFirst<T, K>(s: seq<T>, key: T -> K, seen: set<K>, x: T)
    requires x in DedupFrom(s, key, seen)
    ensures exists i :: 0 <= i < |s| && s[i] == x && forall j :: 0 <= j < i ==> key(s[j]) != key(x)
  {
    if key(s[0]) in seen {
      DedupOnlyFirst(s[1..], key, seen, x);
      var i :| 0 <= i < |s[1..]| && s[1..][i] == x && forall j :: 0 <= j < i ==> key(s[1..][j]) != key(x);
      DedupKeysDistinct(s[1..], key, seen);
      DedupNotSeen(s[1..], key, seen, x);
      assert s[i + 1] == x;
    } else if x != s[0] {
      var seen' := seen + {key(s[0])};
      DedupOnlyFirst(s[1..], key, seen', x);
      var i :| 0 <= i < |s[1..]| && s[1..][i] == x && forall j :: 0 <= j < i ==> key(s[1..][j]) != key(x);
      DedupNotSeen(s[1..], key, seen', x);
      assert s[i + 1] == x;
    } else {
      assert s[0] == x;
    }
  }

  lemma DedupNotSeen<T, K>(s: seq<T>, key: T -> K, seen: set<K>, x: T)
    requires x in DedupFrom(s, key, seen)
    ensures key(x) !in seen
  {
    DedupKeysDistinct(s, key, seen);
  }

  // ---------------------------------------------------------------- sorting

  ghost predicate TotalPreorder<T(!new)>(le: (T, T) -> bool) {
    && (forall a, b :: le(a, b) || le(b, a))
    && (forall a, b, c :: le(a, b) && le(b, c) ==> le(a, c))
  }

  ghost predicate SortedBy<T>(s: seq<T>, le: (T, T) -> bool) {
    forall i, j :: 0 <= i < j < |s| ==> le(s[i], s[j])
  }

  /** Puts `x` before the first element it is `le` to: equal elements keep their order. */
  function Insert<T>(x: T, s: seq<T>, le: (T, T) -> bool): (r: seq<T>)
    ensures multiset(r) == multiset(s) + multiset{x}
  {
    if s == [] then [x]
    else if le(x, s[0]) then [x] + s
    else
      assert s == [s[0]] + s[1..];
      [s[0]] + Insert(x, s[1..], le)
  }

  /** Python's `sorted(s, key=...)`, as an insertion sort. */
  function SortBy<T>(s: seq<T>, le: (T, T) -> bool): (r: seq<T>)
    ensures multiset(r) == multiset(s)
    ensures |r| == |s|
  {
    if s == [] then []
    else
      assert s == [s[0]] + s[1..];
      Insert(s[0], SortBy(s[1..], le), le)
  }

  lemma {:induction false} InsertSorted<T(!new)>(x: T, s: seq<T>, le: (T, T) -> bool)
    requires TotalPreorder(le) && SortedBy(s, le)
    ensures SortedBy(Insert(x, s, le), le)
  {
    if s != [] && !le(x, s[0]) {
      InsertSorted(x, s[1..], le);
      InsertBehind(x, s, le);
    } else if s != [] {
      InsertFront(x, s, le);
    }
  }

  /** `x` goes after the head: the head is `le` to everything `x` is inserted among. */
  lemma InsertBehind<T(!new)>(x: T, s: seq<T>, le: (T, T) -> bool)
    requires TotalPreorder(le) && SortedBy(s, le) && s != [] && !le(x, s[0])
    requires SortedBy(Insert(x, s[1..], le), le)
    ensures SortedBy(Insert(x, s, le), le)
  {
    assert le(s[0], x);
    forall e | e in s[1..] ensures le(s[0], e) {
      var k :| 0 <= k < |s[1..]| && s[1..][k] == e;
      assert s[k + 1] == e;
    }
    var t := Insert(x, s[1..], le);
    InsertBound(s[0], x, s[1..], le);
    var r := [s[0]] + t;
    assert Insert(x, s, le) == r;
    forall i, j | 0 <= i < j < |r| ensures le(r[i], r[j]) {
      if i > 0 {
        assert r[i] == t[i - 1] && r[j] == t[j - 1];
      } else {
        assert r[j] == t[j - 1] && t[j - 1] in t;
      }
    }
  }

  /** A lower bound of `x` and of every element of `u` is one of every element after inserting. */
  lemma InsertBound<T(!new)>(h: T, x: T, u: seq<T>, le: (T, T) -> bool)
    requires le(h, x) && forall e :: e in u ==> le(h, e)
    ensures forall e :: e in Insert(x, u, le) ==> le(h, e)
  {
    var t := Insert(x, u, le);
    forall e | e in t ensures le(h, e) {
      assert e in multiset(t);
      if e != x {
        assert e in multiset(u);
      }
    }
  }

  /** `x` goes in front: it is `le` to the head, and so to every element. */
  lemma InsertFront<T(!new)>(x: T, s: seq<T>, le: (T, T) -> bool)
    requires TotalPreorder(le) && SortedBy(s, le) && s != [] && le(x, s[0])
    ensures SortedBy(Insert(x, s, le), le)
  {
    var r := [x] + s;
    assert Insert(x, s, le) == r;
    forall i, j | 0 <= i < j < |r| ensures le(r[i], r[j]) {
      if i > 0 {
        assert r[i] == s[i - 1] && r[j] == s[j - 1];
      } else if j > 1 {
        assert r[j] == s[j - 1] && le(s[0], s[j - 1]);
      }
    }
  }

  /** Under a total preorder the result is sorted and, by `SortBy`'s contract, a permutation. */
  lemma {:induction false} SortBySorted<T(!new)>(s: seq<T>, le: (T, T) -> bool)
    requires TotalPreorder(le)
    ensures SortedBy(SortBy(s, le), le)
  {
    if s != [] {
      SortBySorted(s[1..], le);
      InsertSorted(s[0], SortBy(s[1..], le), le);
    }
  }

  // ---------------------------------------------------------------- string order

  /** Python's `a <= b` on `str`: lexicographic by code point. */
  predicate StrLe(a: string, b: string)
    decreases |a|
  {
    |a| == 0 || (|b| > 0 && (a[0] < b[0] || (a[0] == b[0] && StrLe(a[1..], b[1..]))))
  }

  lemma {:induction false} StrLeTotal(a: string, b: string)
    ensures StrLe(a, b) || StrLe(b, a)
    decreases |a|
  {
    if |a| > 0 && |b| > 0 && a[0] == b[0] {
      StrLeTotal(a[1..], b[1..]);
    }
  }

  lemma {:induction false} StrLeTrans(a: string, b: string, c: string)
    requires StrLe(a, b) && StrLe(b, c)
    ensures StrLe(a, c)
    decreases |a|
  {
    if |a| > 0 && a[0] == b[0] && b[0] == c[0] {
      StrLeTrans(a[1..], b[1..], c[1..]);
    }
  }

  lemma {:induction false} StrLeAntisym(a: string, b: string)
    requires StrLe(a, b) && StrLe(b, a)
    ensures a == b
    decreases |a|
  {
    if |a| > 0 {
      StrLeAntisym(a[1..], b[1..]);
      assert a == [a[0]] + a[1..] && b == [b[0]] + b[1..];
    }
  }
}

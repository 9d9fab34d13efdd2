/** The few JavaScript array and string primitives the services are built from:
    `find`/`findIndex`, `filter`, `slice` and `includes`. */
module Seqs {
  import opened Wrappers

  /** `k` is the index `findIndex(p)` stops at: `p` holds there and nowhere before. */
  ghost predicate IsFirstMatch<T>(s: seq<T>, p: T -> bool, k: int) {
    0 <= k < |s| && p(s[k]) && forall j :: 0 <= j < k ==> !p(s[j])
  }

  /** `s.findIndex(p)`, with `None` for JavaScript's -1. */
  function FindFirst<T>(s: seq<T>, p: T -> bool): (r: Option<nat>)
    ensures r.Some? ==> IsFirstMatch(s, p, r.value)
    ensures r.None? ==> forall j :: 0 <= j < |s| ==> !p(s[j])
  {
    if s == [] then None
    else if p(s[0]) then Some(0)
    else match FindFirst(s[1..], p)
      case None => None
      case Some(k) => Some(k + 1)
  }

  /** The first match is unique, so a search result is determined by the first-match property. */
  lemma FirstMatchUnique<T>(s: seq<T>, p: T -> bool, k: int, k': int)
    requires IsFirstMatch(s, p, k) && IsFirstMatch(s, p, k')
    ensures k == k'
  {
  }

  /** `s.filter(p)`. */
  function Filter<T>(s: seq<T>, p: T -> bool): (r: seq<T>)
    ensures |r| <= |s|
    ensures forall i :: 0 <= i < |r| ==> r[i] in s && p(r[i])
    ensures forall i :: 0 <= i < |s| && p(s[i]) ==> s[i] in r
  {
    if s == [] then []
    else
      assert s == [s[0]] + s[1..];
      (if p(s[0]) then [s[0]] else []) + Filter(s[1..], p)
  }

  /** Filtering distributes over concatenation: the kept elements stay in their relative order. */
  lemma {:induction false} FilterAppend<T>(a: seq<T>, b: seq<T>, p: T -> bool)
    ensures Filter(a + b, p) == Filter(a, p) + Filter(b, p)
  {
    if a == [] {
      assert a + b == b;
    } else {
      assert (a + b)[1..] == a[1..] + b;
      FilterAppend(a[1..], b, p);
    }
  }

  /** A filter that rejects nothing changes nothing. */
  lemma {:induction false} FilterKeepsAll<T>(s: seq<T>, p: T -> bool)
    requires forall j :: 0 <= j < |s| ==> p(s[j])
    ensures Filter(s, p) == s
  {
    if s != [] {
      FilterKeepsAll(s[1..], p);
    }
  }

  /** Filtering by a weaker test and then by a stronger one is filtering by the stronger one. */
  lemma {:induction false} FilterNarrow<T>(s: seq<T>, q: T -> bool, p: T -> bool)
    requires forall i :: 0 <= i < |s| && p(s[i]) ==> q(s[i])
    ensures Filter(Filter(s, q), p) == Filter(s, p)
  {
    if s != [] {
      FilterNarrow(s[1..], q, p);
      assert s == [s[0]] + s[1..];
      FilterAppend(if q(s[0]) then [s[0]] else [], Filter(s[1..], q), p);
    }
  }

  /** `s.slice(-n)`: the last `n` elements, or all of `s` when it is shorter. JavaScript reads
      `slice(-0)` as `slice(0)`, the whole array, so a count of zero is excluded. */
  function Newest<T>(s: seq<T>, n: nat): (r: seq<T>)
    requires n > 0
    ensures |r| == if |s| <= n then |s| else n
    ensures s == s[..|s| - |r|] + r
  {
    if |s| <= n then s else s[|s| - n..]
  }

  /** Trimming and then appending is the same as appending and then trimming,
      so a log trimmed after every push is the newest `n` of everything pushed. */
  lemma NewestAppend<T>(a: seq<T>, b: seq<T>, n: nat)
    requires n > 0
    ensures Newest(Newest(a, n) + b, n) == Newest(a + b, n)
  {
    if |a| > n && |a + b| > n {
      var a' := a[|a| - n..];
      if |b| >= n {
        assert (a' + b)[|a' + b| - n..] == b[|b| - n..];
        assert (a + b)[|a + b| - n..] == b[|b| - n..];
      } else {
        assert (a' + b)[|a' + b| - n..] == a'[|b|..] + b;
        assert (a + b)[|a + b| - n..] == a[|a| + |b| - n..] + b;
        assert a'[|b|..] == a[|a| + |b| - n..];
      }
    }
  }

  /** Pushing the next element of `g` onto a trimmed log keeps it the newest `n` of the base and
      the prefix of `g` pushed so far. */
  lemma NewestPushNext<T>(base: seq<T>, g: seq<T>, i: int, n: nat)
    requires n > 0 && 0 <= i < |g|
    ensures Newest(Newest(base + g[..i], n) + [g[i]], n) == Newest(base + g[..i + 1], n)
  {
    var pushed := base + g[..i];
    assert pushed + [g[i]] == base + g[..i + 1] by {
      assert g[..i + 1] == g[..i] + [g[i]];
    }
    NewestAppend(pushed, [g[i]], n);
  }

  /** Replacing the element just pushed is the same as having pushed its replacement. */
  lemma NewestReplaceLast<T>(s: seq<T>, x: T, y: T, n: nat)
    requires n > 0
    ensures var t := Newest(s + [x], n);
      |t| > 0 && t[..|t| - 1] + [y] == Newest(s + [y], n)
  {
    if |s| + 1 > n {
      var k := |s| + 1 - n;
      assert (s + [x])[k..] == s[k..] + [x];
      assert (s + [y])[k..] == s[k..] + [y];
    } else {
      assert (s + [x])[..|s|] == s;
    }
  }

  /** `s.slice(0, end)`: JavaScript reads a negative `end` as counted from the back. */
  function SliceTo<T>(s: seq<T>, end: int): (r: seq<T>)
    ensures r <= s
    ensures end >= 0 ==> |r| == if end <= |s| then end else |s|
    ensures end < 0 ==> |r| == if |s| + end >= 0 then |s| + end else 0
  {
    if end < 0 then (if |s| + end >= 0 then s[..|s| + end] else [])
    else if end <= |s| then s[..end]
    else s
  }

  /** `hay` holds `needle` starting at position `i`. */
  ghost predicate OccursAt<T>(hay: seq<T>, needle: seq<T>, i: int) {
    0 <= i && i + |needle| <= |hay| && hay[i..i + |needle|] == needle
  }

  /** `hay.includes(needle)`, searched position by position. */
  function Includes<T(==)>(hay: seq<T>, needle: seq<T>): (r: bool)
    ensures needle <= hay ==> r
    ensures r ==> |needle| <= |hay|
    decreases |hay|
  {
    needle <= hay || (hay != [] && Includes(hay[1..], needle))
  }

  /** A sequence ending in `needle` includes it. */
  lemma {:induction false} IncludesSuffix<T>(prefix: seq<T>, needle: seq<T>)
    ensures Includes(prefix + needle, needle)
  {
    if prefix != [] && !(needle <= prefix + needle) {
      assert (prefix + needle)[1..] == prefix[1..] + needle;
      IncludesSuffix(prefix[1..], needle);
    }
  }

  /** The search finds `needle` exactly when it occurs somewhere in `hay`. */
  lemma {:induction false} IncludesIffOccurs<T>(hay: seq<T>, needle: seq<T>)
    ensures Includes(hay, needle) <==> exists i :: OccursAt(hay, needle, i)
  {
    if needle <= hay {
      assert OccursAt(hay, needle, 0);
    } else if hay != [] {
      IncludesIffOccurs(hay[1..], needle);
      if exists i :: OccursAt(hay[1..], needle, i) {
        var i :| OccursAt(hay[1..], needle, i);
        assert hay[i + 1..i + 1 + |needle|] == hay[1..][i..i + |needle|];
        assert OccursAt(hay, needle, i + 1);
      }
      if exists i :: OccursAt(hay, needle, i) {
        var i :| OccursAt(hay, needle, i);
        assert hay[1..][i - 1..i - 1 + |needle|] == hay[i..i + |needle|];
        assert OccursAt(hay[1..], needle, i - 1);
      }
    }
  }
}

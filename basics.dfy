/** Sequence helpers shared by the dashboard model: an optional value and the
    `filter`, `findIndex`, `find` and `indexOf` of JavaScript arrays, with the
    subsequence relation that states "same elements, same order, some dropped". */
module Basics {

  datatype Option<T> = None | Some(value: T)

  /** `a` is obtained from `b` by deleting elements, the rest kept in order. */
  predicate Subsequence<T(==)>(a: seq<T>, b: seq<T>)
    decreases |b|
  {
    if a == [] then true
    else if b == [] then false
    else (a[|a| - 1] == b[|b| - 1] && Subsequence(a[..|a| - 1], b[..|b| - 1]))
         || Subsequence(a, b[..|b| - 1])
  }

  /** `Array.prototype.filter`: the elements of `s` satisfying `p`, in order. */
  function Filter<T(==)>(s: seq<T>, p: T -> bool): (r: seq<T>)
    ensures |r| <= |s|
    ensures forall i :: 0 <= i < |r| ==> r[i] in s && p(r[i])
    ensures forall i :: 0 <= i < |s| && p(s[i]) ==> s[i] in r
    ensures Subsequence(r, s)
    decreases |s|
  {
    if s == [] then []
    else
      var init, last := s[..|s| - 1], s[|s| - 1];
      var r' := Filter(init, p);
      assert s == init + [last];
      if p(last) then
        assert (r' + [last])[..|r'|] == r';
        r' + [last]
      else r'
  }

  /** Filtering keeps every copy of a passing element and no copy of any
      other: `x` occurs in the result exactly as often as in `s` when it
      passes, and not at all otherwise. */
  lemma {:induction false} FilterMultiplicity<T>(s: seq<T>, p: T -> bool, x: T)
    ensures multiset(Filter(s, p))[x] == if p(x) then multiset(s)[x] else 0
    decreases |s|
  {
    if s != [] {
      var init, last := s[..|s| - 1], s[|s| - 1];
      FilterMultiplicity(init, p, x);
      assert s == init + [last];
      assert multiset(s) == multiset(init) + multiset{last};
    }
  }

  /** Filtering keeps everything when every element passes. */
  lemma {:induction false} FilterKeepsAll<T>(s: seq<T>, p: T -> bool)
    requires forall i :: 0 <= i < |s| ==> p(s[i])
    ensures Filter(s, p) == s
    decreases |s|
  {
    if s != [] {
      FilterKeepsAll(s[..|s| - 1], p);
      assert s == s[..|s| - 1] + [s[|s| - 1]];
    }
  }

  /** Filtering twice with the same predicate is filtering once. */
  lemma FilterIdempotent<T>(s: seq<T>, p: T -> bool)
    ensures Filter(Filter(s, p), p) == Filter(s, p)
  {
    var r := Filter(s, p);
    forall i | 0 <= i < |r| ensures p(r[i]) {
      assert r[i] in r;
    }
    FilterKeepsAll(r, p);
  }

  /** `Array.prototype.findIndex`: the first index whose element satisfies
      `p`, or -1 when there is none. */
  function FindIndex<T>(s: seq<T>, p: T -> bool): (r: int)
    ensures -1 <= r < |s|
    ensures r == -1 <==> forall i :: 0 <= i < |s| ==> !p(s[i])
    ensures 0 <= r ==> p(s[r]) && forall i :: 0 <= i < r ==> !p(s[i])
    decreases |s|
  {
    if s == [] then -1
    else if p(s[0]) then 0
    else
      var k := FindIndex(s[1..], p);
      assert forall i :: 1 <= i < |s| ==> s[i] == s[1..][i - 1];
      if k == -1 then -1 else k + 1
  }

  /** `Array.prototype.find`: the first element satisfying `p`, if any. */
  function Find<T>(s: seq<T>, p: T -> bool): (r: Option<T>)
    ensures r.None? <==> forall i :: 0 <= i < |s| ==> !p(s[i])
    ensures r.Some? ==> exists i :: 0 <= i < |s| && s[i] == r.value && p(s[i]) &&
                                    forall j :: 0 <= j < i ==> !p(s[j])
  {
    var k := FindIndex(s, p);
    if k == -1 then None else Some(s[k])
  }

  /** `Array.prototype.indexOf`: the first position of `x`, or -1. */
  function IndexOf<T(==)>(s: seq<T>, x: T): (r: int)
    ensures -1 <= r < |s|
    ensures r == -1 <==> x !in s
    ensures 0 <= r ==> s[r] == x && x !in s[..r]
  {
    var r := FindIndex(s, y => y == x);
    assert 0 <= r ==> forall i :: 0 <= i < r ==> s[..r][i] == s[i];
    r
  }

  /** When `x` first occurs before `y` does, `y` is absent up to and
      including that occurrence of `x`, and present after it. */
  lemma IndexOfOrdered<T>(s: seq<T>, x: T, y: T)
    requires 0 <= IndexOf(s, x) < IndexOf(s, y)
    ensures y !in s[..IndexOf(s, x) + 1] && y in s[IndexOf(s, x) + 1..]
  {
    var i, j := IndexOf(s, x), IndexOf(s, y);
    assert s[..i + 1] == s[..j][..i + 1];
    assert s[i + 1..][j - i - 1] == s[j];
  }

  /** Conversely, an `x` with `y` absent up to it and present after it puts
      the first `x` before the first `y`. */
  lemma OrderedFromOccurrence<T>(s: seq<T>, x: T, y: T, i: int)
    requires 0 <= i < |s| && s[i] == x
    requires y !in s[..i + 1] && y in s[i + 1..]
    ensures 0 <= IndexOf(s, x) < IndexOf(s, y)
  {
    var k :| 0 <= k < |s[i + 1..]| && s[i + 1..][k] == y;
    assert s[i + 1 + k] == y;
  }

  /** `Array.prototype.map` with a step that may throw: all results, or
      `None` as soon as one step fails. */
  function MapAll<A, B>(s: seq<A>, f: A -> Option<B>): Option<seq<B>>
    decreases |s|
  {
    if s == [] then Some([])
    else
      match f(s[0])
      case None => None
      case Some(b) =>
        match MapAll(s[1..], f)
        case None => None
        case Some(rest) => Some([b] + rest)
  }

  /** The map succeeds iff every step does, and then holds every step's
      result at that step's position. */
  lemma {:induction false} MapAllPointwise<A, B>(s: seq<A>, f: A -> Option<B>)
    ensures MapAll(s, f).Some? <==> forall i :: 0 <= i < |s| ==> f(s[i]).Some?
    ensures MapAll(s, f).Some? ==>
              |MapAll(s, f).value| == |s| &&
              forall i :: 0 <= i < |s| ==> Some(MapAll(s, f).value[i]) == f(s[i])
    decreases |s|
  {
    if s != [] {
      MapAllPointwise(s[1..], f);
      assert forall i :: 1 <= i < |s| ==> s[i] == s[1..][i - 1];
    }
  }

  /** In `a + [sep] + x` with no `sep` in `a`, the first `sep` is the one
      right after `a`. */
  lemma SeparatorAfterPrefix<T>(a: seq<T>, sep: T, x: seq<T>)
    requires sep !in a
    ensures IndexOf(a + [sep] + x, sep) == |a|
  {
    var s := a + [sep] + x;
    var r := IndexOf(s, sep);
    assert s[|a|] == sep;
    assert s[..r] == a[..r];
  }

  /** Joining two parts with a separator that does not occur in the first
      part can be undone: the joined string determines both parts. */
  lemma SplitAtSeparator<T>(a: seq<T>, x: seq<T>, b: seq<T>, y: seq<T>, sep: T)
    requires sep !in a && sep !in b
    requires a + [sep] + x == b + [sep] + y
    ensures a == b && x == y
  {
    var s := a + [sep] + x;
    SeparatorAfterPrefix(a, sep, x);
    SeparatorAfterPrefix(b, sep, y);
    assert a == s[..|a|] == b;
    assert x == s[|a| + 1..] == y;
  }
}

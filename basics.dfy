/** Option/Result wrappers and the list operations the program performs with
    `Array.prototype.filter`, `findIndex`, `slice` and `new Set(...)`. */
module Basics {

  datatype Option<+T> = None | Some(value: T)

  datatype Result<+T, +E> = Ok(value: T) | Err(error: E)

  /** `r` is an order-preserving sub-list of `s`. */
  predicate IsSubsequence<T(==)>(r: seq<T>, s: seq<T>)
    decreases |s|
  {
    r == [] || (s != [] && ((r[0] == s[0] && IsSubsequence(r[1..], s[1..])) || IsSubsequence(r, s[1..])))
  }

  lemma {:induction false} SubsequenceOfSelf<T>(s: seq<T>)
    ensures IsSubsequence(s, s)
    decreases |s|
  {
    if s != [] {
      SubsequenceOfSelf(s[1..]);
    }
  }

  /** `xs.filter(p)`: the elements satisfying `p`, in their original order. */
  function Filter<T>(s: seq<T>, p: T -> bool): seq<T>
    decreases |s|
  {
    if s == [] then []
    else if p(s[0]) then [s[0]] + Filter(s[1..], p)
    else Filter(s[1..], p)
  }

  /** A filter keeps exactly the elements that pass, in their original order. */
  lemma {:induction false} FilterMeaning<T>(s: seq<T>, p: T -> bool)
    ensures forall i :: 0 <= i < |Filter(s, p)| ==> Filter(s, p)[i] in s && p(Filter(s, p)[i])
    ensures forall i :: 0 <= i < |s| && p(s[i]) ==> s[i] in Filter(s, p)
    ensures IsSubsequence(Filter(s, p), s)
    decreases |s|
  {
    if s != [] {
      FilterMeaning(s[1..], p);
      var rest := Filter(s[1..], p);
      if p(s[0]) {
        assert ([s[0]] + rest)[1..] == rest;
      }
      forall i | 0 <= i < |s| && p(s[i])
        ensures s[i] in Filter(s, p)
      {
        if i > 0 {
          assert s[i] == s[1..][i - 1];
        }
      }
    }
  }

  /** A filter drops nothing when every element passes. */
  lemma {:induction false} FilterAll<T>(s: seq<T>, p: T -> bool)
    requires forall i :: 0 <= i < |s| ==> p(s[i])
    ensures Filter(s, p) == s
    decreases |s|
  {
    if s != [] {
      FilterAll(s[1..], p);
    }
  }

  /** Filtering distributes over concatenation, so a filter keeps the relative order of any two parts. */
  lemma {:induction false} FilterConcat<T>(a: seq<T>, b: seq<T>, p: T -> bool)
    ensures Filter(a + b, p) == Filter(a, p) + Filter(b, p)
    decreases |a|
  {
    if a != [] {
      var ab := a + b;
      assert ab[0] == a[0] && ab[1..] == a[1..] + b;
      FilterConcat(a[1..], b, p);
      assert Filter(ab, p) == (if p(a[0]) then [a[0]] else []) + Filter(a[1..] + b, p);
    } else {
      assert a + b == b;
    }
  }

  function Both<T>(p: T -> bool, q: T -> bool): T -> bool
  {
    x => p(x) && q(x)
  }

  /** Two filters in a row are one filter by both tests. */
  lemma {:induction false} FilterFilter<T>(s: seq<T>, p: T -> bool, q: T -> bool)
    ensures Filter(Filter(s, p), q) == Filter(s, Both(p, q))
    decreases |s|
  {
    if s != [] {
      FilterFilter(s[1..], p, q);
      if p(s[0]) {
        var f := [s[0]] + Filter(s[1..], p);
        assert f[0] == s[0] && f[1..] == Filter(s[1..], p);
      }
    }
  }

  lemma FilterSplit<T>(s: seq<T>, m: nat, p: T -> bool)
    requires m <= |s|
    ensures Filter(s, p) == Filter(s[..m], p) + Filter(s[m..], p)
  {
    assert s == s[..m] + s[m..];
    FilterConcat(s[..m], s[m..], p);
  }

  lemma FilterSingle<T>(x: T, p: T -> bool)
    ensures Filter([x], p) == if p(x) then [x] else []
  {
    assert [x][1..] == [];
  }

  /** The filter of a non-empty sequence is the filter of all but its last element, then
      that element if it passes. */
  lemma FilterLast<T>(s: seq<T>, p: T -> bool)
    requires s != []
    ensures Filter(s, p) == Filter(s[..|s| - 1], p) + (if p(s[|s| - 1]) then [s[|s| - 1]] else [])
  {
    FilterSplit(s, |s| - 1, p);
    assert s[|s| - 1..] == [s[|s| - 1]];
    FilterSingle(s[|s| - 1], p);
  }

  /** The test returned true, without throwing. */
  function Passes<T>(test: T -> Option<bool>): T -> bool
  {
    x => test(x) == Some(true)
  }

  /** `xs.filter(test)` for a test that may throw (`None`): a throw on any element aborts
      the whole filter. */
  function FilterOrThrow<T>(s: seq<T>, test: T -> Option<bool>): Option<seq<T>>
    decreases |s|
  {
    if s == [] then Some([])
    else
      match test(s[0])
      case None => None
      case Some(keep) =>
        match FilterOrThrow(s[1..], test)
        case None => None
        case Some(rest) => Some(if keep then [s[0]] + rest else rest)
  }

  /** A filter whose test may throw fails exactly when the test throws on some element;
      otherwise it keeps what a filter by the test's passing keeps. */
  lemma {:induction false} FilterOrThrowMeaning<T>(s: seq<T>, test: T -> Option<bool>)
    ensures FilterOrThrow(s, test).None? <==> exists i :: 0 <= i < |s| && test(s[i]).None?
    ensures FilterOrThrow(s, test).Some? ==> FilterOrThrow(s, test).value == Filter(s, Passes(test))
    decreases |s|
  {
    if s != [] {
      FilterOrThrowMeaning(s[1..], test);
      if exists i :: 0 <= i < |s[1..]| && test(s[1..][i]).None? {
        var i :| 0 <= i < |s[1..]| && test(s[1..][i]).None?;
        assert test(s[i + 1]).None?;
      }
      if exists i :: 0 <= i < |s| && test(s[i]).None? {
        var i :| 0 <= i < |s| && test(s[i]).None?;
        if i > 0 {
          assert s[1..][i - 1] == s[i];
        }
      }
    }
  }

  /** `xs.findIndex(p)`: the first index whose element satisfies `p`. */
  function FirstIndexWhere<T>(s: seq<T>, p: T -> bool): (r: Option<nat>)
    ensures r.Some? ==> r.value < |s| && p(s[r.value]) && forall j :: 0 <= j < r.value ==> !p(s[j])
    ensures r.None? <==> forall j :: 0 <= j < |s| ==> !p(s[j])
    decreases |s|
  {
    if s == [] then None
    else if p(s[0]) then Some(0)
    else
      match FirstIndexWhere(s[1..], p)
      case None => None
      case Some(k) => Some(k + 1)
  }

  /** The iteration order of `new Set(xs)`: first occurrences only, in order of insertion. */
  function Dedup<T(==)>(s: seq<T>): (r: seq<T>)
    ensures forall i :: 0 <= i < |r| ==> r[i] in s
    ensures forall i :: 0 <= i < |s| ==> s[i] in r
    ensures forall i, j :: 0 <= i < j < |r| ==> r[i] != r[j]
    ensures IsSubsequence(r, s)
    // first-occurrence order: wherever a later result occurs in `s`, an earlier one occurs before it
    ensures forall i, j, k :: 0 <= i < j < |r| && 0 <= k < |s| && s[k] == r[j] ==> r[i] in s[..k]
    decreases |s|
  {
    if s == [] then []
    else
      var init := Dedup(s[..|s| - 1]);
      var last := s[|s| - 1];
      assert s == s[..|s| - 1] + [last];
      if last in init then
        SubsequenceAppend(init, s[..|s| - 1], last);
        FirstOrderAppend(init, s[..|s| - 1], last);
        init
      else
        SubsequenceAppendBoth(init, s[..|s| - 1], last);
        FirstOrderAppend(init, s[..|s| - 1], last);
        init + [last]
  }

  /** Appending one element to the input keeps a first-occurrence ordering: the result
      stays as it is when the element was already there, and gains it at the end when not. */
  lemma FirstOrderAppend<T>(r: seq<T>, s: seq<T>, x: T)
    requires forall i :: 0 <= i < |r| ==> r[i] in s
    requires forall i :: 0 <= i < |s| ==> s[i] in r
    requires forall i, j, k :: 0 <= i < j < |r| && 0 <= k < |s| && s[k] == r[j] ==> r[i] in s[..k]
    ensures x in r ==>
      forall i, j, k :: 0 <= i < j < |r| && 0 <= k < |s + [x]| && (s + [x])[k] == r[j] ==> r[i] in (s + [x])[..k]
    ensures x !in r ==>
      forall i, j, k :: 0 <= i < j < |r + [x]| && 0 <= k < |s + [x]| && (s + [x])[k] == (r + [x])[j] ==>
        (r + [x])[i] in (s + [x])[..k]
  {
    var t := s + [x];
    forall k | 0 <= k <= |s|
      ensures t[..k] == if k == |s| then s else s[..k]
    {
    }
  }

  lemma {:induction false} SubsequenceAppend<T>(r: seq<T>, s: seq<T>, x: T)
    requires IsSubsequence(r, s)
    ensures IsSubsequence(r, s + [x])
    decreases |s|
  {
    if r != [] {
      assert (s + [x])[1..] == s[1..] + [x];
      if r[0] == s[0] && IsSubsequence(r[1..], s[1..]) {
        SubsequenceAppend(r[1..], s[1..], x);
      } else {
        SubsequenceAppend(r, s[1..], x);
      }
    }
  }

  lemma {:induction false} SubsequenceAppendBoth<T>(r: seq<T>, s: seq<T>, x: T)
    requires IsSubsequence(r, s)
    ensures IsSubsequence(r + [x], s + [x])
    decreases |s|
  {
    if r == [] {
      assert IsSubsequence([x], [x]) by { assert [x][1..] == []; }
      SubsequenceSuffix([x], s);
      assert r + [x] == [x];
    } else {
      assert (r + [x])[1..] == r[1..] + [x];
      assert (s + [x])[1..] == s[1..] + [x];
      if r[0] == s[0] && IsSubsequence(r[1..], s[1..]) {
        SubsequenceAppendBoth(r[1..], s[1..], x);
      } else {
        SubsequenceAppendBoth(r, s[1..], x);
      }
    }
  }

  lemma {:induction false} SubsequenceSuffix<T>(r: seq<T>, s: seq<T>)
    requires IsSubsequence(r, r)
    ensures IsSubsequence(r, s + r)
    decreases |s|
  {
    if s != [] {
      assert (s + r)[1..] == s[1..] + r;
      SubsequenceSuffix(r, s[1..]);
    } else {
      assert s + r == r;
    }
  }

  /** `n` copies of `e`. */
  function Repeat<T>(e: T, n: nat): (r: seq<T>)
    ensures |r| == n && forall i :: 0 <= i < n ==> r[i] == e
  {
    seq(n, i requires 0 <= i < n => e)
  }

  /** `xs.map(f)`. */
  function Map<A, B>(f: A -> B, s: seq<A>): (r: seq<B>)
    ensures |r| == |s| && forall i :: 0 <= i < |s| ==> r[i] == f(s[i])
  {
    seq(|s|, i requires 0 <= i < |s| => f(s[i]))
  }

  lemma ConcatAssoc<T>(a: seq<T>, b: seq<T>, c: seq<T>)
    ensures (a + b) + c == a + (b + c)
  {
  }

  lemma MapConcat<A, B>(f: A -> B, a: seq<A>, b: seq<A>)
    ensures Map(f, a + b) == Map(f, a) + Map(f, b)
  {
  }

  /** Mapping the filter of a non-empty sequence: the mapped filter of all but the last
      element, then the image of the last one if it passes. */
  lemma MapFilterLast<A, B>(f: A -> B, s: seq<A>, p: A -> bool)
    requires s != []
    ensures Map(f, Filter(s, p)) == Map(f, Filter(s[..|s| - 1], p)) + (if p(s[|s| - 1]) then [f(s[|s| - 1])] else [])
  {
    FilterLast(s, p);
    MapConcat(f, Filter(s[..|s| - 1], p), if p(s[|s| - 1]) then [s[|s| - 1]] else []);
  }

  /** `xs.slice(0, n)`: the first `n` elements, or all of them when there are fewer. */
  function Take<T>(s: seq<T>, n: nat): (r: seq<T>)
    ensures |r| == if |s| < n then |s| else n
    ensures r <= s
  {
    if |s| <= n then s else s[..n]
  }
}

/** Generic sequence operations used by the store and the dashboards: the
    JavaScript array methods `filter`, `find`/`findIndex` and `some`, and a
    positional removal, each with a contract that characterises it. */
module Seqs {

  /** `a` is obtained from `b` by deleting elements: order is kept. */
  ghost predicate IsSubsequence<T>(a: seq<T>, b: seq<T>)
    decreases |b|
  {
    |a| == 0 || (|b| > 0 && ((a[0] == b[0] && IsSubsequence(a[1..], b[1..])) || IsSubsequence(a, b[1..])))
  }

  /** `Array.prototype.filter`: the elements of `s` satisfying `p`. */
  function Filter<T>(s: seq<T>, p: T -> bool): (r: seq<T>)
    ensures |r| <= |s|
    ensures forall i :: 0 <= i < |r| ==> r[i] in s && p(r[i])
    ensures forall i :: 0 <= i < |s| && p(s[i]) ==> s[i] in r
    decreases |s|
  {
    if |s| == 0 then []
    else if p(s[0]) then [s[0]] + Filter(s[1..], p)
    else Filter(s[1..], p)
  }

  /** Filtering keeps the original order of the kept elements. */
  lemma {:induction false} FilterIsSubsequence<T>(s: seq<T>, p: T -> bool)
    ensures IsSubsequence(Filter(s, p), s)
    decreases |s|
  {
    if |s| > 0 {
      FilterIsSubsequence(s[1..], p);
      var r := Filter(s, p);
      if p(s[0]) {
        assert r[0] == s[0] && r[1..] == Filter(s[1..], p);
      } else {
        assert r == Filter(s[1..], p);
      }
    }
  }

  /** Filtering keeps every occurrence of a kept element and no occurrence
      of a dropped one. Together with `FilterIsSubsequence` this pins the
      result down completely. */
  lemma {:induction false} FilterCounts<T>(s: seq<T>, p: T -> bool, x: T)
    ensures multiset(Filter(s, p))[x] == if p(x) then multiset(s)[x] else 0
    decreases |s|
  {
    if |s| > 0 {
      FilterCounts(s[1..], p, x);
      assert s == [s[0]] + s[1..];
      assert multiset(s) == multiset([s[0]]) + multiset(s[1..]);
      if p(s[0]) {
        assert multiset(Filter(s, p)) == multiset([s[0]]) + multiset(Filter(s[1..], p));
      }
    }
  }

  /** `r` is exactly the elements of `s` that satisfy `p`, in their
      original order and with their multiplicities: the reference
      description of a filter, independent of how it is computed. */
  ghost predicate Selects<T>(r: seq<T>, s: seq<T>, p: T -> bool) {
    && IsSubsequence(r, s)
    && (forall i :: 0 <= i < |r| ==> r[i] in s && p(r[i]))
    && (forall i :: 0 <= i < |s| ==> multiset(r)[s[i]] == if p(s[i]) then multiset(s)[s[i]] else 0)
  }

  /** `Filter` meets the reference description. */
  lemma FilterSelects<T>(s: seq<T>, p: T -> bool)
    ensures Selects(Filter(s, p), s, p)
  {
    FilterIsSubsequence(s, p);
    forall i | 0 <= i < |s|
      ensures multiset(Filter(s, p))[s[i]] == if p(s[i]) then multiset(s)[s[i]] else 0
    {
      FilterCounts(s, p, s[i]);
    }
  }

  /** Filtering with a predicate every element already satisfies is the identity. */
  lemma {:induction false} FilterAll<T>(s: seq<T>, p: T -> bool)
    requires forall i :: 0 <= i < |s| ==> p(s[i])
    ensures Filter(s, p) == s
    decreases |s|
  {
    if |s| > 0 {
      FilterAll(s[1..], p);
      assert [s[0]] + s[1..] == s;
    }
  }

  /** Filtering distributes over concatenation. */
  lemma {:induction false} FilterAppend<T>(a: seq<T>, b: seq<T>, p: T -> bool)
    ensures Filter(a + b, p) == Filter(a, p) + Filter(b, p)
    decreases |a|
  {
    if |a| > 0 {
      FilterAppend(a[1..], b, p);
      assert (a + b)[1..] == a[1..] + b;
    } else {
      assert a + b == b;
    }
  }

  /** `Array.prototype.findIndex`: the position of the first element
      satisfying `p`, if any. */
  function FindIndex<T>(s: seq<T>, p: T -> bool): (r: Option<nat>)
    ensures r.Some? ==> r.value < |s| && p(s[r.value])
    ensures r.Some? ==> forall j :: 0 <= j < r.value ==> !p(s[j])
    ensures r.None? <==> forall j :: 0 <= j < |s| ==> !p(s[j])
    decreases |s|
  {
    if |s| == 0 then None
    else if p(s[0]) then Some(0)
    else match FindIndex(s[1..], p)
      case None => None
      case Some(k) => Some(k + 1)
  }

  /** `Array.prototype.some`. */
  function Any<T>(s: seq<T>, p: T -> bool): (r: bool)
    ensures r <==> exists i :: 0 <= i < |s| && p(s[i])
    decreases |s|
  {
    |s| > 0 && (p(s[0]) || Any(s[1..], p))
  }

  /** `s.filter((_, i) => i !== index)`: drops the element at `index`, and
      nothing when `index` is not a position of `s`. */
  function RemoveAt<T>(s: seq<T>, index: int): (r: seq<T>)
    ensures 0 <= index < |s| ==> r == s[..index] + s[index + 1..]
    ensures !(0 <= index < |s|) ==> r == s
    decreases |s|
  {
    if |s| == 0 then []
    else if index == 0 then RemoveAt(s[1..], index - 1)
    else [s[0]] + RemoveAt(s[1..], index - 1)
  }

  /** The optional result of a lookup. */
  datatype Option<T> = None | Some(value: T)
}

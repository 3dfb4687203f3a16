/** Generic sequence operations that the CRM uses in the shape of JavaScript's
    Array.prototype.filter, find and findIndex, with the facts proved once here
    and reused by every page that filters or looks something up. */
module Seqs {

  datatype Option<+T> = None | Some(value: T)

  /** `a` is a subsequence of `b`: `a` is obtained from `b` by dropping elements,
      keeping the relative order of the rest. */
  predicate IsSubseq<T(==)>(a: seq<T>, b: seq<T>)
    decreases |b|
  {
    if |a| == 0 then true
    else if |b| == 0 then false
    else if a[0] == b[0] then IsSubseq(a[1..], b[1..])
    else IsSubseq(a, b[1..])
  }

  /** Number of elements of `s` that satisfy `p`. */
  function Count<T>(p: T -> bool, s: seq<T>): (n: nat)
    ensures n <= |s|
  {
    if |s| == 0 then 0 else (if p(s[0]) then 1 else 0) + Count(p, s[1..])
  }

  /** Array.prototype.filter: the elements satisfying `p`, in their original order. */
  function Filter<T(==)>(p: T -> bool, s: seq<T>): (r: seq<T>)
    ensures |r| == Count(p, s)
    ensures forall x :: x in r ==> x in s && p(x)
    ensures forall x :: x in s && p(x) ==> x in r
    ensures IsSubseq(r, s)
  {
    if |s| == 0 then []
    else if p(s[0]) then [s[0]] + Filter(p, s[1..])
    else Filter(p, s[1..])
  }

  /** Array.prototype.findIndex: the first index whose element satisfies `p`, or -1. */
  function FindIndex<T>(p: T -> bool, s: seq<T>): (k: int)
    ensures -1 <= k < |s|
    ensures k >= 0 ==> p(s[k]) && forall j :: 0 <= j < k ==> !p(s[j])
    ensures k == -1 ==> forall j :: 0 <= j < |s| ==> !p(s[j])
  {
    if |s| == 0 then -1
    else if p(s[0]) then 0
    else
      var k := FindIndex(p, s[1..]);
      if k < 0 then -1 else k + 1
  }

  /** Array.prototype.find: the first element satisfying `p`, or nothing. */
  function Find<T>(p: T -> bool, s: seq<T>): (r: Option<T>)
    ensures r.None? <==> forall j :: 0 <= j < |s| ==> !p(s[j])
    ensures r.Some? ==> exists i :: 0 <= i < |s| && s[i] == r.value && p(s[i]) &&
                                    forall j :: 0 <= j < i ==> !p(s[j])
  {
    if |s| == 0 then None
    else if p(s[0]) then Some(s[0])
    else
      var r := Find(p, s[1..]);
      if r.Some? then
        ghost var i :| 0 <= i < |s[1..]| && s[1..][i] == r.value && p(s[1..][i]) &&
                       forall j :: 0 <= j < i ==> !p(s[1..][j]);
        assert s[i + 1] == r.value && forall j :: 0 <= j < i + 1 ==> !p(s[j]);
        r
      else r
  }

  /** A subsequence whose every element satisfies `p` has at most Count(p, s) elements. */
  lemma {:induction false} SubseqCountBound<T>(p: T -> bool, r: seq<T>, s: seq<T>)
    requires IsSubseq(r, s)
    requires forall x :: x in r ==> p(x)
    ensures |r| <= Count(p, s)
    decreases |s|
  {
    if |r| == 0 {
    } else if r[0] == s[0] {
      SubseqCountBound(p, r[1..], s[1..]);
    } else {
      SubseqCountBound(p, r, s[1..]);
    }
  }

  /** Filter is characterised uniquely: the only subsequence of `s` whose elements all
      satisfy `p` and which has Count(p, s) elements is Filter(p, s). */
  lemma {:induction false} FilterUnique<T>(p: T -> bool, r: seq<T>, s: seq<T>)
    requires IsSubseq(r, s)
    requires forall x :: x in r ==> p(x)
    requires |r| == Count(p, s)
    ensures r == Filter(p, s)
    decreases |s|
  {
    if |s| == 0 {
    } else if |r| > 0 && r[0] == s[0] {
      assert p(s[0]);
      FilterUnique(p, r[1..], s[1..]);
      assert r == [r[0]] + r[1..];
    } else {
      // r skips s[0]; if s[0] satisfied p, r would be too long for s[1..]
      if |r| > 0 {
        SubseqCountBound(p, r, s[1..]);
      }
      assert !p(s[0]);
      FilterUnique(p, r, s[1..]);
    }
  }

  /** Filtering with a predicate every element satisfies gives the sequence back. */
  lemma {:induction false} FilterAll<T>(p: T -> bool, s: seq<T>)
    requires forall j :: 0 <= j < |s| ==> p(s[j])
    ensures Filter(p, s) == s
  {
    if |s| > 0 {
      FilterAll(p, s[1..]);
      assert s == [s[0]] + s[1..];
    }
  }

  /** Filtering twice with the same predicate is the same as filtering once. */
  lemma FilterIdempotent<T>(p: T -> bool, s: seq<T>)
    ensures Filter(p, Filter(p, s)) == Filter(p, s)
  {
    var r := Filter(p, s);
    forall j | 0 <= j < |r| ensures p(r[j]) {
      assert r[j] in r;
    }
    FilterAll(p, r);
  }

  /** Two predicates that agree on every element of `s` filter it alike. */
  lemma {:induction false} FilterExt<T>(p: T -> bool, q: T -> bool, s: seq<T>)
    requires forall j :: 0 <= j < |s| ==> p(s[j]) == q(s[j])
    ensures Filter(p, s) == Filter(q, s)
  {
    if |s| > 0 {
      FilterExt(p, q, s[1..]);
    }
  }

  /** Every element satisfies `p` or its negation, never both. */
  lemma {:induction false} CountComplement<T>(p: T -> bool, s: seq<T>)
    ensures Count(p, s) + Count((x: T) => !p(x), s) == |s|
  {
    if |s| > 0 {
      CountComplement(p, s[1..]);
    }
  }
}

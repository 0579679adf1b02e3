/** Order-preserving list operations: the stream `filter`, `map` and `findFirst` pipelines. */
module Sequences {
  import opened Wrappers

  /** `stream().filter(keep).collect(...)`: the elements of `s` that satisfy `keep`, in order. */
  function Filter<T(!new)>(s: seq<T>, keep: T -> bool): (r: seq<T>)
    ensures |r| <= |s|
    ensures forall x :: x in r <==> x in s && keep(x)
    ensures forall i :: 0 <= i < |r| ==> keep(r[i])
    ensures forall x :: multiset(r)[x] == if keep(x) then multiset(s)[x] else 0
  {
    if s == [] then []
    else
      assert s == [s[0]] + s[1..];
      (if keep(s[0]) then [s[0]] else []) + Filter(s[1..], keep)
  }

  /** Filtering distributes over concatenation; with Filter([x]) this fixes the order of the result. */
  lemma {:induction false} FilterConcat<T(!new)>(a: seq<T>, b: seq<T>, keep: T -> bool)
    ensures Filter(a + b, keep) == Filter(a, keep) + Filter(b, keep)
  {
    if a == [] {
      assert a + b == b;
    } else {
      assert (a + b)[0] == a[0];
      assert (a + b)[1..] == a[1..] + b;
      FilterConcat(a[1..], b, keep);
    }
  }

  /** `stream().map(f).collect(...)`: one image per element, in the same order. */
  function Map<A, B>(s: seq<A>, f: A -> B): (r: seq<B>)
    ensures |r| == |s|
    ensures forall i :: 0 <= i < |s| ==> r[i] == f(s[i])
  {
    if s == [] then [] else [f(s[0])] + Map(s[1..], f)
  }

  /** `stream().filter(p).findFirst()`: the index of the first element satisfying `p`, if any. */
  function FindFirst<T>(s: seq<T>, p: T -> bool): (r: Option<nat>)
    ensures r.Some? ==> r.value < |s| && p(s[r.value])
    ensures r.Some? ==> forall j :: 0 <= j < r.value ==> !p(s[j])
    ensures r.None? <==> forall j :: 0 <= j < |s| ==> !p(s[j])
  {
    if s == [] then None
    else if p(s[0]) then Some(0)
    else match FindFirst(s[1..], p)
      case None => None
      case Some(k) => Some(k + 1)
  }

  /** Finding the first q-element among the p-elements finds the first element satisfying both. */
  lemma {:induction false} FindFirstAfterFilter<T(!new)>(s: seq<T>, p: T -> bool, q: T -> bool, both: T -> bool)
    requires forall x :: both(x) == (p(x) && q(x))
    ensures FindFirst(Filter(s, p), q).Some? == FindFirst(s, both).Some?
    ensures FindFirst(Filter(s, p), q).Some? ==>
              Filter(s, p)[FindFirst(Filter(s, p), q).value] == s[FindFirst(s, both).value]
  {
    if s != [] {
      var fs, rest := Filter(s, p), Filter(s[1..], p);
      FindFirstAfterFilter(s[1..], p, q, both);
      var shifted := match FindFirst(s[1..], both) case None => None case Some(k) => Some(k + 1);
      if p(s[0]) {
        assert fs == [s[0]] + rest;
        if q(s[0]) {
          assert both(s[0]);
          assert FindFirst(fs, q) == Some(0);
          assert FindFirst(s, both) == Some(0);
        } else {
          assert !both(s[0]);
          assert fs[1..] == rest;
          assert FindFirst(s, both) == shifted;
          assert FindFirst(fs, q) == match FindFirst(rest, q) case None => None case Some(k) => Some(k + 1);
        }
      } else {
        assert fs == rest;
        assert !both(s[0]);
        assert FindFirst(s, both) == shifted;
      }
    }
  }

  /** A filter that no value passes keeps nothing. */
  lemma {:induction false} FilterRejectsAll<T(!new)>(s: seq<T>, keep: T -> bool)
    requires forall x :: !keep(x)
    ensures Filter(s, keep) == []
  {
    if s != [] {
      assert !keep(s[0]);
      FilterRejectsAll(s[1..], keep);
    }
  }

  /** The first element satisfying `p` is the one at `k` when `k` satisfies it and none before does. */
  lemma {:induction false} FindFirstIs<T>(s: seq<T>, p: T -> bool, k: nat)
    requires k < |s| && p(s[k])
    requires forall j :: 0 <= j < k ==> !p(s[j])
    ensures FindFirst(s, p) == Some(k)
  {
    if k > 0 {
      assert !p(s[0]);
      FindFirstIs(s[1..], p, k - 1);
    }
  }
}

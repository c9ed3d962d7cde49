/** Sequence filtering, the shape of every queryset `.filter(...)` and list
    comprehension with an `if` in the backend. */
module Seqs {

  import opened Wrappers

  /** The elements of `s` satisfying `p`, in order. */
  function Filter<T>(s: seq<T>, p: T -> bool): (r: seq<T>)
    ensures |r| <= |s|
    ensures forall i :: 0 <= i < |r| ==> p(r[i]) && r[i] in s
    ensures forall x :: x in s && p(x) ==> x in r
    decreases |s|
  {
    if s == [] then []
    else
      var rest := Filter(s[1..], p);
      assert forall x :: x in s[1..] ==> x in s;
      if p(s[0]) then [s[0]] + rest else rest
  }

  lemma {:induction false} FilterConcat<T>(a: seq<T>, b: seq<T>, p: T -> bool)
    ensures Filter(a + b, p) == Filter(a, p) + Filter(b, p)
  {
    if a != [] {
      assert (a + b)[1..] == a[1..] + b;
      FilterConcat(a[1..], b, p);
    } else {
      assert a + b == b;
    }
  }

  /** Filtering keeps every occurrence of a matching element and none of the others. */
  lemma {:induction false} FilterCount<T>(s: seq<T>, p: T -> bool, x: T)
    ensures multiset(Filter(s, p))[x] == if p(x) then multiset(s)[x] else 0
  {
    if s != [] {
      var rest := s[1..];
      FilterCount(rest, p, x);
      assert s == [s[0]] + rest;
      assert multiset(s)[x] == multiset([s[0]])[x] + multiset(rest)[x];
      if p(s[0]) {
        assert Filter(s, p) == [s[0]] + Filter(rest, p);
        assert multiset(Filter(s, p))[x] == multiset([s[0]])[x] + multiset(Filter(rest, p))[x];
      } else {
        assert Filter(s, p) == Filter(rest, p);
      }
    }
  }

  /** Filtering with a predicate every element satisfies changes nothing. */
  lemma {:induction false} FilterAll<T>(s: seq<T>, p: T -> bool)
    requires forall i :: 0 <= i < |s| ==> p(s[i])
    ensures Filter(s, p) == s
  {
    if s != [] {
      FilterAll(s[1..], p);
      assert s == [s[0]] + s[1..];
    }
  }

  /** Filtering with a predicate no element satisfies gives nothing. */
  lemma {:induction false} FilterNone<T>(s: seq<T>, p: T -> bool)
    requires forall i :: 0 <= i < |s| ==> !p(s[i])
    ensures Filter(s, p) == []
  {
    if s != [] {
      FilterNone(s[1..], p);
    }
  }

  /** A filter and its complement together keep every element once. */
  lemma {:induction false} FilterSplitCount<T>(s: seq<T>, p: T -> bool, q: T -> bool)
    requires forall x :: q(x) == !p(x)
    ensures |Filter(s, p)| + |Filter(s, q)| == |s|
  {
    if s != [] {
      FilterSplitCount(s[1..], p, q);
    }
  }

  /** Filtering twice with the same predicate is filtering once. */
  lemma FilterIdempotent<T>(s: seq<T>, p: T -> bool)
    ensures Filter(Filter(s, p), p) == Filter(s, p)
  {
    FilterAll(Filter(s, p), p);
  }

  /** Python's `[f(x) for x in s]`. */
  function Map<T, U>(s: seq<T>, f: T -> U): (r: seq<U>)
    ensures |r| == |s|
    ensures forall i :: 0 <= i < |s| ==> r[i] == f(s[i])
  {
    seq(|s|, i requires 0 <= i < |s| => f(s[i]))
  }

  /** Converting every element and then filtering keeps as many elements as filtering the
      originals by the test the conversion induces. */
  lemma {:induction false} FilterMapCount<T, U>(s: seq<T>, f: T -> U, q: U -> bool, p: T -> bool)
    requires forall x :: q(f(x)) == p(x)
    ensures |Filter(Map(s, f), q)| == |Filter(s, p)|
    decreases |s|
  {
    if s != [] {
      assert Map(s, f)[1..] == Map(s[1..], f);
      FilterMapCount(s[1..], f, q, p);
    }
  }

  /** Every element through a validator `f`: all results when every element passes, otherwise
      the position and error of the first that fails. */
  function ValidateAll<A, B, E>(xs: seq<A>, f: A -> Result<B, E>): (r: Result<seq<B>, (nat, E)>)
    ensures r.Ok? <==> forall i :: 0 <= i < |xs| ==> f(xs[i]).Ok?
    ensures r.Ok? ==> |r.value| == |xs| && forall i :: 0 <= i < |xs| ==> r.value[i] == f(xs[i]).value
    ensures r.Err? ==> r.error.0 < |xs| && f(xs[r.error.0]) == Err(r.error.1)
                       && forall i :: 0 <= i < r.error.0 ==> f(xs[i]).Ok?
  {
    if xs == [] then Ok([])
    else
      match f(xs[0])
      case Err(e) => Err((0, e))
      case Ok(y) =>
        match ValidateAll(xs[1..], f)
        case Err(e) => Err((e.0 + 1, e.1))
        case Ok(ys) => Ok([y] + ys)
  }

  /** An element of `Map(Filter(Map(xs, g), p), f)` is `f(g(x))` for an `x` of `xs` with `p(g(x))`. */
  lemma MapFilterMapOrigin<A, B, C>(xs: seq<A>, g: A -> B, p: B -> bool, f: B -> C, y: C)
    requires y in Map(Filter(Map(xs, g), p), f)
    ensures exists j :: 0 <= j < |xs| && p(g(xs[j])) && y == f(g(xs[j]))
  {
    var filtered := Filter(Map(xs, g), p);
    var i :| 0 <= i < |filtered| && Map(filtered, f)[i] == y;
    assert filtered[i] in Map(xs, g);
    var j :| 0 <= j < |xs| && Map(xs, g)[j] == filtered[i];
    assert p(g(xs[j])) && y == f(g(xs[j]));
  }

  /** The first element of `s` satisfying `p`, if any. */
  function First<T(==)>(s: seq<T>, p: T -> bool): (r: Option<T>)
    ensures r.None? <==> forall i :: 0 <= i < |s| ==> !p(s[i])
    ensures r.Some? ==> exists i :: 0 <= i < |s| && s[i] == r.value && p(s[i]) && forall j :: 0 <= j < i ==> !p(s[j])
    decreases |s|
  {
    if s == [] then None
    else if p(s[0]) then Some(s[0])
    else
      var rest := First(s[1..], p);
      if rest.Some? then
        var i :| 0 <= i < |s[1..]| && s[1..][i] == rest.value && p(s[1..][i]) && forall j :: 0 <= j < i ==> !p(s[1..][j]);
        assert s[i + 1] == rest.value && forall j :: 0 <= j < i + 1 ==> !p(s[j]);
        rest
      else rest
  }

  /** The position of the first element of `s` satisfying `p`, Django's `.filter(...).first()`. */
  function FirstIndex<T>(s: seq<T>, p: T -> bool): (r: Option<nat>)
    ensures r.None? <==> forall i :: 0 <= i < |s| ==> !p(s[i])
    ensures r.Some? ==> r.value < |s| && p(s[r.value]) && forall j :: 0 <= j < r.value ==> !p(s[j])
    decreases |s|
  {
    if s == [] then None
    else if p(s[0]) then Some(0)
    else
      match FirstIndex(s[1..], p)
      case None => None
      case Some(i) => Some(i + 1)
  }

  /** Two sequences on which `p` agrees up to the end of the shorter one, and that has a match:
      the first match is the same in both. */
  lemma FirstIndexAgrees<T>(a: seq<T>, b: seq<T>, p: T -> bool)
    requires |a| <= |b| && forall i :: 0 <= i < |a| ==> p(a[i]) == p(b[i])
    requires FirstIndex(a, p).Some?
    ensures FirstIndex(b, p) == FirstIndex(a, p)
  {
    var i := FirstIndex(a, p).value;
    assert p(b[i]);
  }

  /** SQL `DISTINCT` over an ordered result: the first occurrence of each element, in order. */
  function Distinct<T(==,!new)>(s: seq<T>): (r: seq<T>)
    ensures |r| <= |s|
    ensures forall x :: x in r <==> x in s
    ensures forall i, j :: 0 <= i < j < |r| ==> r[i] != r[j]
    decreases |s|
  {
    if s == [] then []
    else
      var init := Distinct(s[..|s| - 1]);
      assert s == s[..|s| - 1] + [s[|s| - 1]];
      if s[|s| - 1] in init then init else init + [s[|s| - 1]]
  }

  /** Python's `s[:n]`, a query's `[:limit]`. */
  function Take<T>(s: seq<T>, n: nat): (r: seq<T>)
    ensures |r| == (if n < |s| then n else |s|)
    ensures r == s[..|r|]
  {
    if n < |s| then s[..n] else s
  }
}

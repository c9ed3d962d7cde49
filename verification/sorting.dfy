/** Stable sorting, as Python's `sorted(..., key=...)`. Sort keys are encoded as
    integer sequences compared lexicographically: a string contributes its code
    points followed by the terminator -1 (so a prefix sorts first), an integer
    contributes itself. This makes tuple keys such as (space_key, sort_order,
    title) compare exactly as Python compares the corresponding tuples. The
    model also uses this sort for Django `order_by` on the local tables; there
    PostgreSQL compares text under the database collation and returns equal
    keys in no fixed order, so code-point order with ties kept in store order
    is one of the orders the database may give only for keys it compares the
    same way. */
module Sorting {

  import opened Seqs

  /** Lexicographic order on integer sequences; a prefix is smaller. */
  predicate SeqLe(a: seq<int>, b: seq<int>)
    decreases |a|
  {
    a == [] || (b != [] && (a[0] < b[0] || (a[0] == b[0] && SeqLe(a[1..], b[1..]))))
  }

  lemma {:induction false} SeqLeReflexive(a: seq<int>)
    ensures SeqLe(a, a)
  {
    if a != [] {
      SeqLeReflexive(a[1..]);
    }
  }

  lemma {:induction false} SeqLeTotal(a: seq<int>, b: seq<int>)
    ensures SeqLe(a, b) || SeqLe(b, a)
  {
    if a != [] && b != [] && a[0] == b[0] {
      SeqLeTotal(a[1..], b[1..]);
    }
  }

  lemma {:induction false} SeqLeTransitive(a: seq<int>, b: seq<int>, c: seq<int>)
    requires SeqLe(a, b) && SeqLe(b, c)
    ensures SeqLe(a, c)
  {
    if a != [] && a[0] == b[0] && b[0] == c[0] {
      SeqLeTransitive(a[1..], b[1..], c[1..]);
    }
  }

  lemma {:induction false} SeqLeAntisymmetric(a: seq<int>, b: seq<int>)
    requires SeqLe(a, b) && SeqLe(b, a)
    ensures a == b
  {
    if a != [] {
      SeqLeAntisymmetric(a[1..], b[1..]);
      assert a == [a[0]] + a[1..] && b == [b[0]] + b[1..];
    }
  }

  /** The sort key of a string: its code points, then the terminator -1. */
  function StrKey(s: string): (k: seq<int>)
    ensures |k| == |s| + 1
  {
    seq(|s|, i requires 0 <= i < |s| => s[i] as int) + [-1]
  }

  /** Different strings have different keys. */
  lemma StrKeyInjective(a: string, b: string)
    requires StrKey(a) == StrKey(b)
    ensures a == b
  {
    assert |a| == |b|;
    forall i | 0 <= i < |a| ensures a[i] == b[i] {
      assert StrKey(a)[i] == StrKey(b)[i];
    }
  }

  /** A string key followed by more key material compares by the string first and by the rest
      only on equal strings: concatenated keys order as Python orders tuples. */
  lemma {:induction false} StrKeyThen(a: string, b: string, x: seq<int>, y: seq<int>)
    ensures SeqLe(StrKey(a) + x, StrKey(b) + y) <==>
              if a == b then SeqLe(x, y) else SeqLe(StrKey(a), StrKey(b))
    decreases |a|
  {
    var ka := StrKey(a) + x;
    var kb := StrKey(b) + y;
    if a == [] && b == [] {
      assert ka[1..] == x && kb[1..] == y;
    } else if a == [] {
      assert ka[0] == -1 && kb[0] == b[0] as int;
    } else if b == [] {
      assert ka[0] == a[0] as int && kb[0] == -1;
    } else {
      assert StrKey(a)[1..] == StrKey(a[1..]) && StrKey(b)[1..] == StrKey(b[1..]);
      assert ka[1..] == StrKey(a[1..]) + x && kb[1..] == StrKey(b[1..]) + y;
      if a[0] == b[0] {
        StrKeyThen(a[1..], b[1..], x, y);
        assert a == [a[0]] + a[1..] && b == [b[0]] + b[1..];
        assert SeqLe(StrKey(a), StrKey(b)) == SeqLe(StrKey(a[1..]), StrKey(b[1..]));
      }
    }
  }

  predicate Sorted<T>(s: seq<T>, key: T -> seq<int>) {
    forall i, j :: 0 <= i < j < |s| ==> SeqLe(key(s[i]), key(s[j]))
  }

  /** The elements of `s` whose key is `k`, in their order in `s`. */
  function Ties<T>(s: seq<T>, key: T -> seq<int>, k: seq<int>): seq<T>
    decreases |s|
  {
    if s == [] then [] else (if key(s[0]) == k then [s[0]] else []) + Ties(s[1..], key, k)
  }

  /** Inserts `x` before the first element whose key is not smaller. */
  function Insert<T>(x: T, s: seq<T>, key: T -> seq<int>): (r: seq<T>)
    ensures multiset(r) == multiset(s) + multiset{x}
    ensures r[0] == x || (s != [] && r[0] == s[0])
    decreases |s|
  {
    if s == [] then [x]
    else if SeqLe(key(x), key(s[0])) then [x] + s
    else
      assert s == [s[0]] + s[1..];
      [s[0]] + Insert(x, s[1..], key)
  }

  lemma {:induction false} InsertSorted<T>(x: T, s: seq<T>, key: T -> seq<int>)
    requires Sorted(s, key)
    ensures Sorted(Insert(x, s, key), key)
  {
    if s != [] && !SeqLe(key(x), key(s[0])) {
      var rest := Insert(x, s[1..], key);
      InsertSorted(x, s[1..], key);
      SeqLeTotal(key(x), key(s[0]));
      assert SeqLe(key(s[0]), key(rest[0])) by {
        if rest[0] != x {
          assert rest[0] == s[1];
        }
      }
      forall j | 0 < j < |rest| ensures SeqLe(key(s[0]), key(rest[j])) {
        SeqLeTransitive(key(s[0]), key(rest[0]), key(rest[j]));
      }
      var r := [s[0]] + rest;
      forall i, j | 0 <= i < j < |r| ensures SeqLe(key(r[i]), key(r[j])) {
        if i > 0 {
          assert r[i] == rest[i - 1] && r[j] == rest[j - 1];
        } else {
          assert r[j] == rest[j - 1];
        }
      }
    } else if s != [] {
      var r := [x] + s;
      forall i, j | 0 <= i < j < |r| ensures SeqLe(key(r[i]), key(r[j])) {
        if i == 0 {
          SeqLeReflexive(key(s[0]));
          if j > 1 {
            SeqLeTransitive(key(x), key(s[0]), key(s[j - 1]));
          }
        }
      }
    }
  }

  lemma TiesCons<T>(y: T, s: seq<T>, key: T -> seq<int>, k: seq<int>)
    ensures Ties([y] + s, key, k) == (if key(y) == k then [y] else []) + Ties(s, key, k)
  {
    assert ([y] + s)[1..] == s;
  }

  /** When `x` goes after `y`, they cannot both have the key `k`. */
  lemma SwapTies<T>(x: T, y: T, key: T -> seq<int>, k: seq<int>, rest: seq<T>)
    requires !SeqLe(key(x), key(y))
    ensures (if key(y) == k then [y] else []) + ((if key(x) == k then [x] else []) + rest)
         == (if key(x) == k then [x] else []) + ((if key(y) == k then [y] else []) + rest)
  {
    if key(x) == k && key(y) == k {
      SeqLeReflexive(k);
    }
  }

  /** Inserting `x` puts it in front of every element with the same key. */
  lemma {:induction false} InsertTies<T>(x: T, s: seq<T>, key: T -> seq<int>, k: seq<int>)
    ensures Ties(Insert(x, s, key), key, k) == (if key(x) == k then [x] else []) + Ties(s, key, k)
  {
    if s == [] {
      TiesCons(x, [], key, k);
    } else if SeqLe(key(x), key(s[0])) {
      assert Insert(x, s, key) == [x] + s;
      TiesCons(x, s, key, k);
    } else {
      assert Insert(x, s, key) == [s[0]] + Insert(x, s[1..], key);
      InsertTies(x, s[1..], key, k);
      TiesCons(s[0], Insert(x, s[1..], key), key, k);
      assert s == [s[0]] + s[1..];
      TiesCons(s[0], s[1..], key, k);
      SwapTies(x, s[0], key, k, Ties(s[1..], key, k));
    }
  }

  /** Stable sort by key: a sorted permutation of `s` in which elements with equal keys
      keep their relative order (Python's `sorted` guarantee). */
  function SortBy<T>(s: seq<T>, key: T -> seq<int>): (r: seq<T>)
    ensures multiset(r) == multiset(s)
    ensures |r| == |s|
    ensures Sorted(r, key)
    ensures forall k :: Ties(r, key, k) == Ties(s, key, k)
    decreases |s|
  {
    if s == [] then []
    else
      var rest := SortBy(s[1..], key);
      assert s == [s[0]] + s[1..];
      InsertSorted(s[0], rest, key);
      forall k ensures Ties(Insert(s[0], rest, key), key, k) == Ties(s, key, k) {
        InsertTies(s[0], rest, key, k);
        assert Ties(s, key, k) == (if key(s[0]) == k then [s[0]] else []) + Ties(s[1..], key, k);
      }
      Insert(s[0], rest, key)
  }

  /** Sorting adds no element. */
  lemma SortByMember<T>(s: seq<T>, key: T -> seq<int>, x: T)
    requires x in SortBy(s, key)
    ensures x in s
  {
    assert multiset(SortBy(s, key))[x] > 0;
  }

  /** Filtering a sorted sequence keeps it sorted. */
  lemma {:induction false} FilterKeepsSorted<T>(s: seq<T>, key: T -> seq<int>, p: T -> bool)
    requires Sorted(s, key)
    ensures Sorted(Filter(s, p), key)
    decreases |s|
  {
    if s != [] {
      var rest := s[1..];
      assert Sorted(rest, key) by {
        forall i, j | 0 <= i < j < |rest| ensures SeqLe(key(rest[i]), key(rest[j])) {
          assert rest[i] == s[i + 1] && rest[j] == s[j + 1];
        }
      }
      FilterKeepsSorted(rest, key, p);
      var fr := Filter(rest, p);
      if p(s[0]) {
        forall j | 0 <= j < |fr| ensures SeqLe(key(s[0]), key(fr[j])) {
          var k :| 0 <= k < |rest| && rest[k] == fr[j];
          assert s[k + 1] == fr[j];
        }
        var r := [s[0]] + fr;
        assert Filter(s, p) == r;
        forall i, j | 0 <= i < j < |r| ensures SeqLe(key(r[i]), key(r[j])) {
          if i > 0 {
            assert r[i] == fr[i - 1] && r[j] == fr[j - 1];
          } else {
            assert r[j] == fr[j - 1];
          }
        }
      }
    }
  }

  /** Sorting keeps exactly the elements it is given. */
  lemma SortBySameElements<T>(s: seq<T>, key: T -> seq<int>, x: T)
    ensures x in SortBy(s, key) <==> x in s
  {
    assert x in SortBy(s, key) <==> multiset(SortBy(s, key))[x] > 0;
  }
}

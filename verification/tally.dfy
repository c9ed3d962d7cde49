/** Running sums per key in first-insertion order: the `defaultdict(Decimal)` that
    `ServiceIngredientsView.get` fills with `+=`. Generic in the key type. */
module Tally {

  type Tally<K> = seq<(K, real)>

  predicate KeysUnique<K(==,!new)>(t: Tally<K>) {
    forall i, j :: 0 <= i < j < |t| ==> t[i].0 != t[j].0
  }

  /** Some entry of `t` has key `k`. */
  ghost predicate HasKey<K(!new)>(t: Tally<K>, k: K) {
    exists i :: 0 <= i < |t| && t[i].0 == k
  }

  /** The sum recorded for a key, 0 when it has none. */
  function Total<K(==,!new)>(t: Tally<K>, k: K): real {
    if t == [] then 0.0 else if t[0].0 == k then t[0].1 else Total(t[1..], k)
  }

  /** A key with no entry totals 0. */
  lemma {:induction false} TotalAbsent<K(!new)>(t: Tally<K>, k: K)
    requires forall i :: 0 <= i < |t| ==> t[i].0 != k
    ensures Total(t, k) == 0.0
  {
    if t != [] {
      TotalAbsent(t[1..], k);
    }
  }

  /** `t[k] += q`: an existing key is updated in place, a new key is appended. */
  function AddTo<K(==,!new)>(t: Tally<K>, k: K, q: real): (r: Tally<K>)
    requires KeysUnique(t)
    ensures KeysUnique(r)
    ensures forall x :: Total(r, x) == Total(t, x) + (if x == k then q else 0.0)
    ensures |r| == if HasKey(t, k) then |t| else |t| + 1
    ensures forall i :: 0 <= i < |t| ==> r[i].0 == t[i].0
    ensures |r| > |t| ==> r[|t|] == (k, q)
    decreases |t|
  {
    if t == [] then [(k, q)]
    else if t[0].0 == k then
      TotalAbsent(t[1..], k);
      [(k, t[0].1 + q)] + t[1..]
    else
      var rest := AddTo(t[1..], k, q);
      assert HasKey(t, k) <==> HasKey(t[1..], k) by {
        if HasKey(t, k) {
          var i :| 0 <= i < |t| && t[i].0 == k;
          assert t[1..][i - 1] == t[i];
        }
        if HasKey(t[1..], k) {
          var i :| 0 <= i < |t[1..]| && t[1..][i].0 == k;
          assert t[i + 1] == t[1..][i];
        }
      }
      [t[0]] + rest
  }

  /** The values of the pairs with key `k`, summed. */
  function SumFor<K(==,!new)>(pairs: seq<(K, real)>, k: K): real {
    if pairs == [] then 0.0
    else SumFor(pairs[..|pairs| - 1], k) + (if pairs[|pairs| - 1].0 == k then pairs[|pairs| - 1].1 else 0.0)
  }

  /** All pairs added in order to an empty tally. */
  function Aggregate<K(==,!new)>(pairs: seq<(K, real)>): (r: Tally<K>)
    ensures KeysUnique(r)
    ensures forall k :: Total(r, k) == SumFor(pairs, k)
  {
    if pairs == [] then []
    else
      var last := pairs[|pairs| - 1];
      AddTo(Aggregate(pairs[..|pairs| - 1]), last.0, last.1)
  }

  /** Some pair has key `k`. */
  ghost predicate SomePairHasKey<K(!new)>(pairs: seq<(K, real)>, k: K) {
    exists j :: 0 <= j < |pairs| && pairs[j].0 == k
  }

  /** Exactly the keys of the pairs are in the tally. */
  lemma {:induction false} AggregateKeys<K(!new)>(pairs: seq<(K, real)>)
    ensures forall k :: HasKey(Aggregate(pairs), k) <==> SomePairHasKey(pairs, k)
  {
    if pairs != [] {
      AggregateKeys(pairs[..|pairs| - 1]);
      forall k ensures HasKey(Aggregate(pairs), k) <==> SomePairHasKey(pairs, k) {
        AggregateKeyStep(pairs, k);
      }
    }
  }

  /** The keys of `t[k] += q` are those of `t` plus `k`. */
  lemma AddToKeys<K(!new)>(t: Tally<K>, k: K, q: real, x: K)
    requires KeysUnique(t)
    ensures HasKey(AddTo(t, k, q), x) <==> HasKey(t, x) || x == k
  {
    var r := AddTo(t, k, q);
    if HasKey(r, x) {
      var i :| 0 <= i < |r| && r[i].0 == x;
      if i < |t| {
        assert t[i].0 == x;
      }
    }
    if HasKey(t, x) {
      var i :| 0 <= i < |t| && t[i].0 == x;
      assert r[i].0 == x;
    } else if x == k {
      assert r[|t|].0 == x;
    }
  }

  /** The keys of a sequence of pairs are those of all but the last pair, plus the last key. */
  lemma SomePairHasKeySnoc<K(!new)>(pairs: seq<(K, real)>, k: K)
    requires pairs != []
    ensures SomePairHasKey(pairs, k) <==>
              SomePairHasKey(pairs[..|pairs| - 1], k) || pairs[|pairs| - 1].0 == k
  {
    var init := pairs[..|pairs| - 1];
    if SomePairHasKey(pairs, k) {
      var j :| 0 <= j < |pairs| && pairs[j].0 == k;
      if j < |init| {
        assert init[j] == pairs[j];
      }
    }
    if SomePairHasKey(init, k) {
      var j :| 0 <= j < |init| && init[j].0 == k;
      assert pairs[j] == init[j];
    }
  }

  /** The inductive step of `AggregateKeys` for one key. */
  lemma AggregateKeyStep<K(!new)>(pairs: seq<(K, real)>, k: K)
    requires pairs != []
    requires HasKey(Aggregate(pairs[..|pairs| - 1]), k) <==> SomePairHasKey(pairs[..|pairs| - 1], k)
    ensures HasKey(Aggregate(pairs), k) <==> SomePairHasKey(pairs, k)
  {
    var last := pairs[|pairs| - 1];
    var prev := Aggregate(pairs[..|pairs| - 1]);
    assert Aggregate(pairs) == AddTo(prev, last.0, last.1);
    AddToKeys(prev, last.0, last.1, k);
    SomePairHasKeySnoc(pairs, k);
  }

  /** With unique keys, an entry's value is the total of its key. */
  lemma {:induction false} TotalOfEntry<K(!new)>(t: Tally<K>, i: nat)
    requires KeysUnique(t) && i < |t|
    ensures Total(t, t[i].0) == t[i].1
  {
    if i > 0 {
      assert t[1..][i - 1] == t[i];
      TotalOfEntry(t[1..], i - 1);
    }
  }

  /** With unique keys, no entry occurs twice. */
  lemma {:induction false} UniqueKeysOnce<K(!new)>(t: Tally<K>, x: (K, real))
    requires KeysUnique(t)
    ensures multiset(t)[x] <= 1
  {
    if t != [] {
      assert t == [t[0]] + t[1..];
      UniqueKeysOnce(t[1..], x);
      if t[0] == x {
        assert x !in t[1..];
      }
    }
  }

  /** Two positions holding the same value make it occur twice. */
  lemma TwiceCounted<T>(s: seq<T>, i: nat, j: nat)
    requires i < j < |s| && s[i] == s[j]
    ensures multiset(s)[s[i]] >= 2
  {
    assert s == s[..j] + [s[j]] + s[j + 1..];
    assert s[i] in s[..j];
  }

  /** Two positions of a reordering of a tally with unique keys hold different keys. */
  lemma DistinctKeys<K(!new)>(t: Tally<K>, u: Tally<K>, i: nat, j: nat)
    requires KeysUnique(t) && multiset(u) == multiset(t)
    requires i < j < |u|
    ensures u[i].0 != u[j].0
  {
    assert u[i] in multiset(t) && u[j] in multiset(t);
    var a :| 0 <= a < |t| && t[a] == u[i];
    var b :| 0 <= b < |t| && t[b] == u[j];
    if a == b {
      TwiceCounted(u, i, j);
      UniqueKeysOnce(t, u[i]);
    }
  }

  /** A reordering of a tally with unique keys has unique keys, the same totals and the same
      keys. */
  lemma Reordered<K(!new)>(t: Tally<K>, u: Tally<K>)
    requires KeysUnique(t) && multiset(u) == multiset(t)
    ensures KeysUnique(u)
    ensures forall i :: 0 <= i < |u| ==> u[i].1 == Total(t, u[i].0) && HasKey(t, u[i].0)
    ensures forall k :: HasKey(t, k) ==> HasKey(u, k)
  {
    forall i, j | 0 <= i < j < |u| ensures u[i].0 != u[j].0 {
      DistinctKeys(t, u, i, j);
    }
    forall i | 0 <= i < |u| ensures u[i].1 == Total(t, u[i].0) && HasKey(t, u[i].0) {
      assert u[i] in multiset(t);
      var a :| 0 <= a < |t| && t[a] == u[i];
      TotalOfEntry(t, a);
    }
    forall k | HasKey(t, k) ensures HasKey(u, k) {
      var a :| 0 <= a < |t| && t[a].0 == k;
      assert t[a] in multiset(u);
      var i :| 0 <= i < |u| && u[i] == t[a];
    }
  }
}

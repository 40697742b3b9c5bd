/** Grouping rows by one column and counting the distinct values of another
    in each group: the shape of every `groupby(key).col.nunique()` in the
    dashboard. */
module Grouping {
  import opened Seqs

  /** The keys present in xs. */
  function KeysOf<T(==,!new), K(==,!new)>(xs: seq<T>, key: T -> K): set<K> {
    set x | x in xs :: key(x)
  }

  /** The values of val over the rows of xs whose key is k. */
  function ValuesFor<T(==,!new), K(==), V(==,!new)>(xs: seq<T>, key: T -> K, val: T -> V, k: K): set<V> {
    set x | x in xs && key(x) == k :: val(x)
  }

  /** Number of rows of xs whose key is k, duplicates included. */
  function CountKey<T, K(==)>(xs: seq<T>, key: T -> K, k: K): nat {
    if xs == [] then 0
    else CountKey(xs[..|xs| - 1], key, k) + (if key(xs[|xs| - 1]) == k then 1 else 0)
  }

  /** One pass over the rows, collecting under each key the set of values seen. */
  function Group<T(==,!new), K(==,!new), V(==,!new)>(xs: seq<T>, key: T -> K, val: T -> V): (m: map<K, set<V>>)
    ensures m.Keys == KeysOf(xs, key)
    ensures forall k :: k in m ==> m[k] == ValuesFor(xs, key, val, k)
  {
    if xs == [] then map[]
    else
      SnocSplit(xs);
      var m := Group(xs[..|xs| - 1], key, val);
      var x := xs[|xs| - 1];
      m[key(x) := (if key(x) in m then m[key(x)] else {}) + {val(x)}]
  }

  lemma GroupsNonEmpty<T(!new), K(!new), V(!new)>(xs: seq<T>, key: T -> K, val: T -> V)
    ensures forall k :: k in KeysOf(xs, key) ==> |ValuesFor(xs, key, val, k)| >= 1
  {
    forall k | k in KeysOf(xs, key)
      ensures |ValuesFor(xs, key, val, k)| >= 1
    {
      var x :| x in xs && key(x) == k;
      assert val(x) in ValuesFor(xs, key, val, k);
    }
  }

  /** For every key present in xs, the number of distinct values of val among
      the rows with that key; a key absent from xs gets no entry. */
  function CountDistinctBy<T(==,!new), K(==,!new), V(==,!new)>(xs: seq<T>, key: T -> K, val: T -> V): (counts: map<K, nat>)
    ensures forall k :: k in counts <==> exists x :: x in xs && key(x) == k
    ensures forall k :: k in counts ==> counts[k] == |ValuesFor(xs, key, val, k)| && counts[k] >= 1
  {
    GroupsNonEmpty(xs, key, val);
    var groups := Group(xs, key, val);
    map k | k in groups :: |groups[k]|
  }

  lemma ValuesForSnoc<T(!new), K(!new), V(!new)>(xs: seq<T>, key: T -> K, val: T -> V, k: K)
    requires |xs| > 0
    ensures ValuesFor(xs, key, val, k)
         == ValuesFor(xs[..|xs| - 1], key, val, k) + (if key(xs[|xs| - 1]) == k then {val(xs[|xs| - 1])} else {})
  {
    SnocSplit(xs);
  }

  /** When no two rows share a value, counting distinct values of a group is
      counting its rows. */
  lemma {:induction false} DistinctValuesAreRows<T(!new), K(!new), V(!new)>(xs: seq<T>, key: T -> K, val: T -> V, k: K)
    requires forall i, j :: 0 <= i < j < |xs| ==> val(xs[i]) != val(xs[j])
    ensures |ValuesFor(xs, key, val, k)| == CountKey(xs, key, k)
  {
    if xs != [] {
      var init, x := xs[..|xs| - 1], xs[|xs| - 1];
      DistinctValuesAreRows(init, key, val, k);
      ValuesForSnoc(xs, key, val, k);
      var before := ValuesFor(init, key, val, k);
      assert key(x) == k ==> val(x) !in before;
    }
  }
}

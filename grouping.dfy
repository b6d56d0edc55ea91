/** Group-by with sums and group-by with lists, the aggregation the program
    writes out by hand in every per-category and per-month query: a loop that
    fills a dictionary keyed by category (or month), creating an entry the first
    time a key is seen. Python dictionaries keep keys in insertion order, so the
    labels come out in order of first occurrence. */
module Grouping {
  import opened Sequences

  /** The sum of w over xs. */
  function SumOf<T>(xs: seq<T>, w: T -> int): int
  {
    if xs == [] then 0 else SumOf(xs[..|xs| - 1], w) + w(xs[|xs| - 1])
  }

  /** Weight one per element: SumOf(xs, One) counts. */
  function One<T>(x: T): int { 1 }

  /** The elements whose key is k, in their original order. */
  function Select<T, K(==)>(xs: seq<T>, key: T -> K, k: K): (r: seq<T>)
    ensures |r| <= |xs|
  {
    if xs == [] then []
    else
      var rest := Select(xs[..|xs| - 1], key, k);
      if key(xs[|xs| - 1]) == k then rest + [xs[|xs| - 1]] else rest
  }

  /** The selected elements are drawn from xs and all carry the key, and every
      element of xs carrying the key is among them. */
  lemma {:induction false} SelectMembers<T, K>(xs: seq<T>, key: T -> K, k: K)
    ensures forall i :: 0 <= i < |Select(xs, key, k)| ==>
              Select(xs, key, k)[i] in xs && key(Select(xs, key, k)[i]) == k
    ensures forall i :: 0 <= i < |xs| && key(xs[i]) == k ==> xs[i] in Select(xs, key, k)
  {
    if xs != [] {
      var p := xs[..|xs| - 1];
      SelectMembers(p, key, k);
      assert forall i :: 0 <= i < |xs| - 1 ==> xs[i] == p[i];
    }
  }

  predicate Distinct<K(==)>(ks: seq<K>)
  {
    forall i, j :: 0 <= i < j < |ks| ==> ks[i] != ks[j]
  }

  /** The keys of xs, each once, in order of first occurrence. */
  function KeysInOrder<T, K(==)>(xs: seq<T>, key: T -> K): (ks: seq<K>)
    ensures Distinct(ks)
  {
    if xs == [] then []
    else
      var x := xs[|xs| - 1];
      var ks := KeysInOrder(xs[..|xs| - 1], key);
      if key(x) in ks then ks else ks + [key(x)]
  }

  /** Every element's key is among the keys, and every key is some element's. */
  lemma {:induction false} KeysInOrderCovers<T, K>(xs: seq<T>, key: T -> K)
    ensures forall i :: 0 <= i < |xs| ==> key(xs[i]) in KeysInOrder(xs, key)
    ensures forall k :: k in KeysInOrder(xs, key) ==> exists i :: 0 <= i < |xs| && key(xs[i]) == k
  {
    if xs != [] {
      var p := xs[..|xs| - 1];
      KeysInOrderCovers(p, key);
      assert forall i :: 0 <= i < |xs| - 1 ==> xs[i] == p[i];
    }
  }

  /** The group sums of keys ks added up. */
  function GroupSums<T, K(==)>(xs: seq<T>, key: T -> K, w: T -> int, ks: seq<K>): int
  {
    if ks == [] then 0
    else GroupSums(xs, key, w, ks[..|ks| - 1]) + SumOf(Select(xs, key, ks[|ks| - 1]), w)
  }

  /** One more element adds its weight to the group sums exactly when its key
      is among the keys summed. */
  lemma {:induction false} GroupSumsSnoc<T, K>(xs: seq<T>, x: T, key: T -> K, w: T -> int, ks: seq<K>)
    requires Distinct(ks)
    ensures GroupSums(xs + [x], key, w, ks)
         == GroupSums(xs, key, w, ks) + (if key(x) in ks then w(x) else 0)
  {
    if ks != [] {
      var n := |ks|;
      var k := ks[n - 1];
      assert Distinct(ks[..n - 1]);
      GroupSumsSnoc(xs, x, key, w, ks[..n - 1]);
      var ys := xs + [x];
      assert ys[..|ys| - 1] == xs;
      if key(x) == k {
        assert Select(ys, key, k) == Select(xs, key, k) + [x];
        assert Select(ys, key, k)[..|Select(ys, key, k)| - 1] == Select(xs, key, k);
        assert key(x) !in ks[..n - 1];
      }
      assert key(x) in ks <==> key(x) in ks[..n - 1] || key(x) == k by {
        assert ks == ks[..n - 1] + [k];
      }
    }
  }

  /** One more element raises the sums over all groups by its weight: its key
      is either among the old keys or new, with an empty old group. */
  lemma GroupSumsSnocKeys<T, K>(p: seq<T>, x: T, key: T -> K, w: T -> int)
    ensures GroupSums(p + [x], key, w, KeysInOrder(p + [x], key))
         == GroupSums(p, key, w, KeysInOrder(p, key)) + w(x)
  {
    var ks' := KeysInOrder(p, key);
    var ks := KeysInOrder(p + [x], key);
    KeysInOrderSnoc(p, x, key);
    GroupSumsSnoc(p, x, key, w, ks);
    if key(x) !in ks' {
      assert ks[..|ks| - 1] == ks';
      SelectAbsent(p, key, key(x));
    }
  }

  /** The groups partition the sequence: their sums add up to the sum of all
      elements. */
  lemma {:induction false} GroupsPartitionSum<T, K>(xs: seq<T>, key: T -> K, w: T -> int)
    ensures GroupSums(xs, key, w, KeysInOrder(xs, key)) == SumOf(xs, w)
  {
    if xs != [] {
      var p, x := xs[..|xs| - 1], xs[|xs| - 1];
      assert xs == p + [x];
      GroupsPartitionSum(p, key, w);
      GroupSumsSnocKeys(p, x, key, w);
      SumOfSnoc(p, x, w);
    }
  }

  /** Every element lands in exactly one group, and the group sizes add up to
      the number of elements. */
  lemma GroupsPartition<T, K>(xs: seq<T>, key: T -> K)
    ensures forall i :: 0 <= i < |xs| ==> xs[i] in Select(xs, key, key(xs[i]))
    ensures forall i, k :: 0 <= i < |xs| && k != key(xs[i]) ==> xs[i] !in Select(xs, key, k)
    ensures GroupSums(xs, key, One, KeysInOrder(xs, key)) == |xs|
  {
    forall i | 0 <= i < |xs| ensures xs[i] in Select(xs, key, key(xs[i])) {
      SelectMembers(xs, key, key(xs[i]));
    }
    forall i, k | 0 <= i < |xs| && k != key(xs[i]) ensures xs[i] !in Select(xs, key, k) {
      SelectMembers(xs, key, k);
    }
    GroupsPartitionSum(xs, key, One);
    SumOfOne(xs);
  }

  lemma {:induction false} SumOfOne<T>(xs: seq<T>)
    ensures SumOf(xs, One) == |xs|
  {
    if xs != [] {
      SumOfOne(xs[..|xs| - 1]);
    }
  }

  lemma SelectSnoc<T, K>(xs: seq<T>, x: T, key: T -> K, k: K)
    ensures Select(xs + [x], key, k) == if key(x) == k then Select(xs, key, k) + [x] else Select(xs, key, k)
  {
    assert (xs + [x])[..|xs|] == xs;
  }

  /** A key that never occurs has an empty group. */
  lemma SelectAbsent<T, K>(xs: seq<T>, key: T -> K, k: K)
    requires k !in KeysInOrder(xs, key)
    ensures Select(xs, key, k) == []
  {
  }

  lemma KeysInOrderSnoc<T, K>(xs: seq<T>, x: T, key: T -> K)
    ensures KeysInOrder(xs + [x], key)
         == if key(x) in KeysInOrder(xs, key) then KeysInOrder(xs, key) else KeysInOrder(xs, key) + [key(x)]
  {
    assert (xs + [x])[..|xs|] == xs;
  }

  lemma SumOfSnoc<T>(xs: seq<T>, x: T, w: T -> int)
    ensures SumOf(xs + [x], w) == SumOf(xs, w) + w(x)
  {
    assert (xs + [x])[..|xs|] == xs;
  }

  /** One more element adds its weight to the sum of its own group only. */
  lemma SumSelectSnoc<T, K>(ys: seq<T>, x: T, key: T -> K, w: T -> int, k: K)
    ensures SumOf(Select(ys + [x], key, k), w)
         == SumOf(Select(ys, key, k), w) + (if key(x) == k then w(x) else 0)
  {
    SelectSnoc(ys, x, key, k);
    if key(x) == k {
      SumOfSnoc(Select(ys, key, k), x, w);
    }
  }

  /** The dictionary loop with `totals[k] += w(x)`: labels in first-occurrence
      order and, for each, the sum of its group. */
  method GroupTotals<T, K(==)>(xs: seq<T>, key: T -> K, w: T -> int) returns (labels: seq<K>, values: seq<int>)
    ensures labels == KeysInOrder(xs, key)
    ensures |values| == |labels|
    ensures forall j :: 0 <= j < |labels| ==> values[j] == SumOf(Select(xs, key, labels[j]), w)
  {
    labels := [];
    var totals: map<K, int> := map[];
    for i := 0 to |xs|
      invariant labels == KeysInOrder(xs[..i], key)
      invariant forall k :: k in totals <==> k in labels
      invariant forall k :: k in totals ==> totals[k] == SumOf(Select(xs[..i], key, k), w)
    {
      var x := xs[i];
      var k := key(x);
      TakeSnoc(xs, i);
      KeysInOrderSnoc(xs[..i], x, key);
      if k !in totals {
        SelectAbsent(xs[..i], key, k);
        labels := labels + [k];
        totals := totals[k := 0];
      }
      var old_totals := totals;
      totals := totals[k := totals[k] + w(x)];
      forall k' | k' in totals ensures totals[k'] == SumOf(Select(xs[..i + 1], key, k'), w) {
        SumSelectSnoc(xs[..i], x, key, w, k');
        if k' != k {
          assert totals[k'] == old_totals[k'];
        }
      }
    }
    assert xs[..|xs|] == xs;
    values := seq(|labels|, j requires 0 <= j < |labels| => totals[labels[j]]);
  }

  /** The dictionary loop with `groups[k].append(x)`: labels in first-occurrence
      order and, for each, its elements in their original order. */
  method GroupLists<T, K(==)>(xs: seq<T>, key: T -> K) returns (labels: seq<K>, groups: seq<seq<T>>)
    ensures labels == KeysInOrder(xs, key)
    ensures |groups| == |labels|
    ensures forall j :: 0 <= j < |labels| ==> groups[j] == Select(xs, key, labels[j])
  {
    labels := [];
    var lists: map<K, seq<T>> := map[];
    for i := 0 to |xs|
      invariant labels == KeysInOrder(xs[..i], key)
      invariant forall k :: k in lists <==> k in labels
      invariant forall k :: k in lists ==> lists[k] == Select(xs[..i], key, k)
    {
      var x := xs[i];
      var k := key(x);
      TakeSnoc(xs, i);
      KeysInOrderSnoc(xs[..i], x, key);
      if k !in lists {
        SelectAbsent(xs[..i], key, k);
        labels := labels + [k];
        lists := lists[k := []];
      }
      var old_lists := lists;
      lists := lists[k := lists[k] + [x]];
      forall k' | k' in lists ensures lists[k'] == Select(xs[..i + 1], key, k') {
        SelectSnoc(xs[..i], x, key, k');
        if k' != k {
          assert lists[k'] == old_lists[k'];
        }
      }
    }
    assert xs[..|xs|] == xs;
    groups := seq(|labels|, j requires 0 <= j < |labels| => lists[labels[j]]);
  }
}

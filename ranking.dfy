/**
 * Counting by key, as the analytics do with a `Map` or a plain object, and the
 * "sort by count, keep the first N" step that follows.  A counting map is
 * modelled by its keys in insertion order and a `map` from key to count; the
 * count of a key is specified as its multiplicity in the sequence of keys fed
 * to the map.
 */
module Ranking {
  import opened Sorting

  /** One entry of a counting map: a key and its count (`{ name, count }`, `[text, value]`). */
  datatype Counted<K> = Counted(key: K, count: nat)

  ghost predicate Distinct<K>(s: seq<K>) {
    forall i, j :: 0 <= i < j < |s| ==> s[i] != s[j]
  }

  ghost predicate DistinctKeys<K>(s: seq<Counted<K>>) {
    forall i, j :: 0 <= i < j < |s| ==> s[i].key != s[j].key
  }

  /**
   * `order` and `counts` are the state of a counting map that has been fed the
   * keys `keys`: the map holds exactly the keys seen, once each, in order of
   * first sight, and each with its number of occurrences.
   */
  ghost predicate Tallies<K(!new)>(order: seq<K>, counts: map<K, nat>, keys: seq<K>) {
    && order == FirstSeen(keys)
    && (forall k :: k in counts <==> k in keys)
    && (forall k :: k in counts ==> counts[k] == multiset(keys)[k])
  }

  /** A counting map lists each of its keys once. */
  lemma TalliesFacts<K(!new)>(order: seq<K>, counts: map<K, nat>, keys: seq<K>)
    requires Tallies(order, counts, keys)
    ensures Distinct(order)
    ensures forall k :: k in order <==> k in counts
  {
    FirstSeenSpec(keys);
  }

  /** The distinct keys of `keys`, in order of first occurrence: the insertion order of a counting map. */
  function FirstSeen<K(==)>(keys: seq<K>): (r: seq<K>)
    ensures |r| <= |keys|
  {
    if keys == [] then []
    else
      var init, k := keys[..|keys| - 1], keys[|keys| - 1];
      if k in init then FirstSeen(init) else FirstSeen(init) + [k]
  }

  /** `FirstSeen` lists each key of `keys` exactly once. */
  lemma {:induction false} FirstSeenSpec<K>(keys: seq<K>)
    ensures Distinct(FirstSeen(keys))
    ensures forall k :: k in FirstSeen(keys) <==> k in keys
  {
    if keys != [] {
      var init, k := keys[..|keys| - 1], keys[|keys| - 1];
      FirstSeenSpec(init);
      assert keys == init + [k];
    }
  }

  lemma FirstSeenSnoc<K>(keys: seq<K>, k: K)
    ensures FirstSeen(keys + [k]) == if k in keys then FirstSeen(keys) else FirstSeen(keys) + [k]
  {
    assert (keys + [k])[..|keys|] == keys;
  }

  /**
   * The entries a counting map holds after being fed `keys`: each distinct key
   * once, in order of first occurrence, with its number of occurrences.
   */
  ghost function Tally<K>(keys: seq<K>): (r: seq<Counted<K>>)
    ensures |r| == |FirstSeen(keys)|
  {
    var fs := FirstSeen(keys);
    seq(|fs|, i requires 0 <= i < |fs| => Counted(fs[i], multiset(keys)[fs[i]]))
  }

  /** A counting map lists exactly `Tally(keys)`. */
  lemma EntriesAreTally<K(!new)>(order: seq<K>, counts: map<K, nat>, keys: seq<K>)
    requires Tallies(order, counts, keys)
    ensures forall k :: k in order ==> k in counts
    ensures Entries(order, counts) == Tally(keys)
  {
    TalliesFacts(order, counts, keys);
  }

  /** `Tally(keys)` has distinct keys, and holds each key of `keys` with its count and nothing else. */
  lemma TallySpec<K(!new)>(keys: seq<K>)
    ensures DistinctKeys(Tally(keys))
    ensures forall e :: e in Tally(keys) ==> e.key in keys && e.count == multiset(keys)[e.key]
    ensures forall k :: k in keys ==> Counted(k, multiset(keys)[k]) in Tally(keys)
  {
    var fs, t := FirstSeen(keys), Tally(keys);
    FirstSeenSpec(keys);
    forall e | e in t ensures e.key in keys && e.count == multiset(keys)[e.key] {
      var i :| 0 <= i < |t| && t[i] == e;
      assert fs[i] in fs;
    }
    forall k | k in keys ensures Counted(k, multiset(keys)[k]) in t {
      var i :| 0 <= i < |fs| && fs[i] == k;
      assert t[i] == Counted(k, multiset(keys)[k]);
    }
  }

  /** One step of the counting loop keeps `Tallies`: create the entry at zero on first sight, then add one. */
  lemma TallyStep<K(!new)>(order: seq<K>, counts: map<K, nat>, keys: seq<K>, k: K)
    requires Tallies(order, counts, keys)
    ensures var order' := if k in counts then order else order + [k];
            var seeded := if k in counts then counts else counts[k := 0];
            Tallies(order', seeded[k := seeded[k] + 1], keys + [k])
  {
    var order' := if k in counts then order else order + [k];
    var seeded := if k in counts then counts else counts[k := 0];
    var counts' := seeded[k := seeded[k] + 1];
    forall k' | k' in counts' ensures counts'[k'] == multiset(keys + [k])[k'] {
      assert multiset(keys + [k]) == multiset(keys) + multiset{k};
      if k' == k && k !in counts {
        assert k !in multiset(keys);
      }
    }
    FirstSeenSnoc(keys, k);
  }

  /** `counts[k] = (counts[k] || 0) + 1`: the same step written as one update. */
  lemma TallyIncrement<K(!new)>(order: seq<K>, counts: map<K, nat>, keys: seq<K>, k: K)
    requires Tallies(order, counts, keys)
    ensures var order' := if k in counts then order else order + [k];
            Tallies(order', counts[k := (if k in counts then counts[k] else 0) + 1], keys + [k])
  {
    TallyStep(order, counts, keys, k);
    if k !in counts {
      var seeded := counts[k := 0];
      assert seeded[k := seeded[k] + 1] == counts[k := 1];
    }
  }

  /** The entries of a counting map in insertion order (`Array.from(map.values())`, `Object.entries`). */
  function Entries<K>(order: seq<K>, counts: map<K, nat>): (r: seq<Counted<K>>)
    requires forall k :: k in order ==> k in counts
    ensures |r| == |order|
    ensures forall i :: 0 <= i < |r| ==> r[i] == Counted(order[i], counts[order[i]])
  {
    seq(|order|, i requires 0 <= i < |order| => Counted(order[i], counts[order[i]]))
  }

  /** The keys of a list of entries, in order. */
  function KeySeq<K>(s: seq<Counted<K>>): (r: seq<K>)
    ensures |r| == |s| && forall i :: 0 <= i < |s| ==> r[i] == s[i].key
  {
    seq(|s|, i requires 0 <= i < |s| => s[i].key)
  }

  /** `s.slice(0, n)`. */
  function Take<T>(s: seq<T>, n: nat): (r: seq<T>)
    ensures |r| == if |s| < n then |s| else n
    ensures r == s[..|r|]
  {
    if |s| <= n then s else s[..n]
  }

  /** `entries.filter(([_, count]) => count > threshold)`. */
  function MoreThan<K(!new)>(s: seq<Counted<K>>, threshold: nat): (r: seq<Counted<K>>)
    ensures forall e :: e in r <==> e in s && e.count > threshold
    ensures DistinctKeys(s) ==> DistinctKeys(r)
  {
    if s == [] then []
    else
      var rest := MoreThan(s[1..], threshold);
      assert forall e :: e in s <==> e == s[0] || e in s[1..];
      if s[0].count > threshold then
        assert DistinctKeys(s) ==> forall e :: e in rest ==> e.key != s[0].key;
        [s[0]] + rest
      else rest
  }

  /** The sort key of `(a, b) => b.count - a.count`: larger counts first. */
  function ByCountDescending<K>(e: Counted<K>): int {
    -(e.count as int)
  }

  /** Entries sorted by count, largest first, cut to `n`. */
  function TopByCount<K>(s: seq<Counted<K>>, n: nat): seq<Counted<K>> {
    Take(SortBy(s, ByCountDescending), n)
  }

  lemma MultiplicityOfDistinct<T>(s: seq<T>, x: T)
    requires Distinct(s)
    ensures multiset(s)[x] <= 1
  {
    if s != [] {
      assert s == [s[0]] + s[1..];
      MultiplicityOfDistinct(s[1..], x);
      if x == s[0] {
        assert x !in s[1..];
        assert x !in multiset(s[1..]);
      }
    }
  }

  lemma MultiplicityOfRepeated<T>(s: seq<T>, i: nat, j: nat)
    requires i < j < |s| && s[i] == s[j]
    ensures multiset(s)[s[i]] >= 2
  {
    assert s == s[..j] + s[j..];
    assert s[i] in s[..j];
    assert s[j..][0] == s[j];
    assert multiset(s) == multiset(s[..j]) + multiset(s[j..]);
  }

  /**
   * Sorting by count and cutting to `n` yields at most `n` entries, drawn from
   * the input, with distinct keys, largest count first; an input entry left out
   * means the output is full and every kept entry counts at least as much.
   * Among entries of equal count, the kept ones are the first of the input, in
   * input order.
   */
  lemma TopByCountSpec<K>(s: seq<Counted<K>>, n: nat)
    requires DistinctKeys(s)
    ensures var r := TopByCount(s, n);
      && |r| == (if |s| < n then |s| else n)
      && (forall i, j :: 0 <= i < j < |r| ==> r[i].count >= r[j].count)
      && (forall e :: e in r ==> e in s)
      && DistinctKeys(r)
      && (forall c :: c in s && c !in r ==> |r| == n && forall e :: e in r ==> e.count >= c.count)
      && (forall v :: WithKey(r, ByCountDescending, v) <= WithKey(s, ByCountDescending, v))
  {
    var sorted := SortBy(s, ByCountDescending);
    var r := TopByCount(s, n);
    TopByCountStable(s, n);
    assert r == sorted[..|r|];
    forall i, j | 0 <= i < j < |r| ensures r[i].count >= r[j].count {
      assert ByCountDescending(sorted[i]) <= ByCountDescending(sorted[j]);
    }
    forall e | e in r ensures e in s {
      assert e in multiset(sorted);
    }
    PermutationKeepsDistinctKeys(s, sorted, |r|);
    forall c | c in s && c !in r ensures |r| == n && forall e :: e in r ==> e.count >= c.count {
      assert c in multiset(sorted);
      TopComplete(sorted, |r|, c);
    }
  }

  lemma TopByCountStable<K>(s: seq<Counted<K>>, n: nat)
    ensures forall v :: WithKey(TopByCount(s, n), ByCountDescending, v) <= WithKey(s, ByCountDescending, v)
  {
    var sorted := SortBy(s, ByCountDescending);
    forall v ensures WithKey(TopByCount(s, n), ByCountDescending, v) <= WithKey(s, ByCountDescending, v) {
      WithKeyOfPrefix(sorted, |TopByCount(s, n)|, ByCountDescending, v);
      SortByStable(s, ByCountDescending, v);
    }
  }

  /** A reordering of entries with distinct keys has distinct keys, and so has each of its prefixes. */
  lemma PermutationKeepsDistinctKeys<K>(s: seq<Counted<K>>, sorted: seq<Counted<K>>, m: nat)
    requires DistinctKeys(s)
    requires multiset(sorted) == multiset(s) && m <= |sorted|
    ensures DistinctKeys(sorted[..m])
  {
    assert Distinct(s) by {
      forall i, j | 0 <= i < j < |s| ensures s[i] != s[j] {
        assert s[i].key != s[j].key;
      }
    }
    forall i, j | 0 <= i < j < m ensures sorted[i].key != sorted[j].key {
      if sorted[i].key == sorted[j].key {
        assert sorted[i] in multiset(s) && sorted[j] in multiset(s);
        var p :| 0 <= p < |s| && s[p] == sorted[i];
        var q :| 0 <= q < |s| && s[q] == sorted[j];
        assert p == q;
        MultiplicityOfRepeated(sorted, i, j);
        MultiplicityOfDistinct(s, sorted[i]);
        assert false;
      }
    }
  }

  lemma TopComplete<K>(sorted: seq<Counted<K>>, m: nat, c: Counted<K>)
    requires SortedBy(sorted, ByCountDescending) && m <= |sorted|
    requires c in sorted && c !in sorted[..m]
    ensures m < |sorted| && forall e :: e in sorted[..m] ==> e.count >= c.count
  {
    var p :| 0 <= p < |sorted| && sorted[p] == c;
    forall e | e in sorted[..m] ensures e.count >= c.count {
      var i :| 0 <= i < m && sorted[..m][i] == e;
      assert ByCountDescending(sorted[i]) <= ByCountDescending(sorted[p]);
    }
  }

  /** Sum of `multiset(keys)[k]` over the keys `ks`. */
  ghost function SumOccurrences<K>(ks: seq<K>, keys: seq<K>): nat {
    if ks == [] then 0 else multiset(keys)[ks[0]] + SumOccurrences(ks[1..], keys)
  }

  lemma {:induction false} SumOccurrencesOfEmpty<K>(ks: seq<K>)
    ensures SumOccurrences(ks, []) == 0
  {
    if ks != [] { SumOccurrencesOfEmpty(ks[1..]); }
  }

  lemma {:induction false} SumOccurrencesSnoc<K>(ks: seq<K>, keys: seq<K>, x: K)
    ensures SumOccurrences(ks, keys + [x]) == SumOccurrences(ks, keys) + multiset(ks)[x]
  {
    if ks != [] {
      SumOccurrencesSnoc(ks[1..], keys, x);
      assert ks == [ks[0]] + ks[1..];
      assert multiset(keys + [x]) == multiset(keys) + multiset{x};
    }
  }

  /**
   * When `ks` lists every key of `keys` exactly once, the occurrences of the
   * listed keys add up to the number of keys: a count is neither lost nor
   * doubled.
   */
  lemma {:induction false} SumOccurrencesIsLength<K>(ks: seq<K>, keys: seq<K>)
    requires Distinct(ks)
    requires forall k :: k in keys ==> k in ks
    ensures SumOccurrences(ks, keys) == |keys|
  {
    if keys == [] {
      SumOccurrencesOfEmpty(ks);
    } else {
      var init, x := keys[..|keys| - 1], keys[|keys| - 1];
      assert keys == init + [x];
      SumOccurrencesIsLength(ks, init);
      SumOccurrencesSnoc(ks, init, x);
      MultiplicityOfDistinct(ks, x);
      assert x in keys;
      assert x in multiset(ks);
    }
  }

  /** Sum of the counts of a list of entries. */
  ghost function SumCounts<K>(s: seq<Counted<K>>): nat {
    if s == [] then 0 else s[0].count + SumCounts(s[1..])
  }

  /**
   * Entries with distinct keys that cover `keys` and carry each key's number of
   * occurrences add up to `|keys|`.
   */
  lemma {:induction false} SumCountsOfTally<K>(s: seq<Counted<K>>, keys: seq<K>)
    requires DistinctKeys(s)
    requires forall k :: k in keys ==> k in KeySeq(s)
    requires forall e :: e in s ==> e.count == multiset(keys)[e.key]
    ensures SumCounts(s) == |keys|
  {
    SumCountsIsSumOccurrences(s, keys);
    SumOccurrencesIsLength(KeySeq(s), keys);
  }

  lemma {:induction false} SumCountsIsSumOccurrences<K>(s: seq<Counted<K>>, keys: seq<K>)
    requires forall e :: e in s ==> e.count == multiset(keys)[e.key]
    ensures SumCounts(s) == SumOccurrences(KeySeq(s), keys)
  {
    if s != [] {
      SumCountsIsSumOccurrences(s[1..], keys);
      assert KeySeq(s)[1..] == KeySeq(s[1..]);
    }
  }

  /** The entries of a tally that pass `count > threshold` are those of the keys seen more often. */
  lemma FrequentEntries<K(!new)>(keys: seq<K>, threshold: nat)
    ensures var cands := MoreThan(Tally(keys), threshold);
      && DistinctKeys(cands)
      && (forall e :: e in cands ==> e.key in keys && e.count == multiset(keys)[e.key] && e.count > threshold)
      && (forall k :: multiset(keys)[k] > threshold ==> Counted(k, multiset(keys)[k]) in cands)
  {
    TallySpec(keys);
    forall k | multiset(keys)[k] > threshold
      ensures Counted(k, multiset(keys)[k]) in MoreThan(Tally(keys), threshold)
    {
      assert k in keys;
    }
  }

  /**
   * Ranking the qualifying entries of a count by count and cutting to `n`: the
   * result holds only qualifying keys with their true counts, once each, largest
   * first; a qualifying key left out is outnumbered by a full list.
   */
  lemma RankedTallySpec<K(!new)>(cands: seq<Counted<K>>, keys: seq<K>, threshold: nat, n: nat)
    requires DistinctKeys(cands)
    requires forall e :: e in cands ==> e.key in keys && e.count == multiset(keys)[e.key] && e.count > threshold
    requires forall k :: multiset(keys)[k] > threshold ==> Counted(k, multiset(keys)[k]) in cands
    ensures var ranked := TopByCount(cands, n);
      && |ranked| <= n
      && (forall e :: e in ranked ==> e.key in keys && e.count == multiset(keys)[e.key] && e.count > threshold)
      && (forall i, j :: 0 <= i < j < |ranked| ==> ranked[i].count >= ranked[j].count && ranked[i].key != ranked[j].key)
      && (forall k :: multiset(keys)[k] > threshold && k !in KeySeq(ranked) ==>
            |ranked| == n && forall e :: e in ranked ==> e.count >= multiset(keys)[k])
  {
    var ranked := TopByCount(cands, n);
    TopByCountSpec(cands, n);
    forall k | multiset(keys)[k] > threshold && k !in KeySeq(ranked)
      ensures |ranked| == n && forall e :: e in ranked ==> e.count >= multiset(keys)[k]
    {
      assert Counted(k, multiset(keys)[k]) in cands;
    }
  }
}

/** The merge section of `fetchElectricityData`: the position-wise pairing of production
    with consumption, the grouping of three series under their labels, and the tagged
    result that holds both. */
module Merger {
  import opened Kotlin
  import opened Wrappers

  function Min(a: nat, b: nat): nat {
    if a <= b then a else b
  }

  // ---------------------------------------------------------------------------
  // Kotlin's `zip` and `toMap`
  // ---------------------------------------------------------------------------

  /** `xs.zip(ys)`: the i-th elements paired, as long as both lists have one. */
  function Zip<A, B>(xs: seq<A>, ys: seq<B>): (z: seq<(A, B)>)
    ensures |z| == Min(|xs|, |ys|)
    ensures forall i :: 0 <= i < |z| ==> z[i] == (xs[i], ys[i])
  {
    if |xs| == 0 || |ys| == 0 then []
    else [(xs[0], ys[0])] + Zip(xs[1..], ys[1..])
  }

  /** The keys of `pairs`. */
  ghost function KeySet<K, V>(pairs: seq<(K, V)>): set<K> {
    set i | 0 <= i < |pairs| :: pairs[i].0
  }

  /** No later pair of `pairs` has the key of the pair at position `i`. */
  ghost predicate LastWithKey<K, V>(pairs: seq<(K, V)>, i: int)
    requires 0 <= i < |pairs|
  {
    forall j :: i < j < |pairs| ==> pairs[j].0 != pairs[i].0
  }

  /** No key occurs twice among `pairs`. */
  ghost predicate DistinctKeys<K, V>(pairs: seq<(K, V)>) {
    forall i, j :: 0 <= i < j < |pairs| ==> pairs[i].0 != pairs[j].0
  }

  /** `pairs.toMap()`: the pairs are put into the map in list order, so for a repeated
      key the last pair wins. */
  function ToMap<K, V>(pairs: seq<(K, V)>): map<K, V> {
    if |pairs| == 0 then map[]
    else
      var last := pairs[|pairs| - 1];
      ToMap(pairs[..|pairs| - 1])[last.0 := last.1]
  }

  /** The keys of the map are exactly the keys of the pairs. */
  lemma {:induction false} ToMapKeys<K, V>(pairs: seq<(K, V)>)
    ensures ToMap(pairs).Keys == KeySet(pairs)
  {
    if |pairs| > 0 {
      ToMapKeys(pairs[..|pairs| - 1]);
      KeySetLast(pairs);
    }
  }

  /** Last pair wins: a pair with no later pair of the same key gives that key's value. */
  lemma {:induction false} ToMapLastWins<K, V>(pairs: seq<(K, V)>, i: int)
    requires 0 <= i < |pairs| && LastWithKey(pairs, i)
    ensures pairs[i].0 in ToMap(pairs) && ToMap(pairs)[pairs[i].0] == pairs[i].1
  {
    if i < |pairs| - 1 {
      LastWithKeyInit(pairs);
      ToMapLastWins(pairs[..|pairs| - 1], i);
    }
  }

  /** The keys of `pairs` are the keys of all but its last pair, plus the last key. */
  lemma KeySetLast<K, V>(pairs: seq<(K, V)>)
    requires |pairs| > 0
    ensures KeySet(pairs) == KeySet(pairs[..|pairs| - 1]) + {pairs[|pairs| - 1].0}
  {
    var init := pairs[..|pairs| - 1];
    assert forall i :: 0 <= i < |init| ==> init[i] == pairs[i];
  }

  /** A position that is the last with its key in `pairs` is also the last with its key
      once the final pair is dropped. */
  lemma LastWithKeyInit<K, V>(pairs: seq<(K, V)>)
    requires |pairs| > 0
    ensures forall i :: 0 <= i < |pairs| - 1 && LastWithKey(pairs, i) ==> LastWithKey(pairs[..|pairs| - 1], i)
  {
  }

  /** The last pair grows the map by one entry exactly when its key is new. */
  lemma ToMapLastSize<K, V>(pairs: seq<(K, V)>)
    requires |pairs| > 0
    ensures |ToMap(pairs)| == |ToMap(pairs[..|pairs| - 1])|
                              + (if pairs[|pairs| - 1].0 in KeySet(pairs[..|pairs| - 1]) then 0 else 1)
  {
    var m0 := ToMap(pairs[..|pairs| - 1]);
    var k := pairs[|pairs| - 1].0;
    ToMapKeys(pairs[..|pairs| - 1]);
    if k in m0 {
      assert ToMap(pairs).Keys == m0.Keys;
    } else {
      assert ToMap(pairs).Keys == m0.Keys + {k};
    }
  }

  /** The keys stay distinct with the last pair exactly when they were distinct before it
      and its key is new. */
  lemma LastDistinctKeys<K, V>(pairs: seq<(K, V)>)
    requires |pairs| > 0
    ensures DistinctKeys(pairs)
            == (DistinctKeys(pairs[..|pairs| - 1]) && pairs[|pairs| - 1].0 !in KeySet(pairs[..|pairs| - 1]))
  {
    var init := pairs[..|pairs| - 1];
    var n := |init|;
    if pairs[n].0 in KeySet(init) {
      var i :| 0 <= i < n && init[i].0 == pairs[n].0;
      assert pairs[i].0 == pairs[n].0;
    }
    if DistinctKeys(init) && pairs[n].0 !in KeySet(init) {
      forall i, j | 0 <= i < j < |pairs|
        ensures pairs[i].0 != pairs[j].0
      {
        if j == n {
          assert init[i].0 in KeySet(init);
        } else {
          assert pairs[i] == init[i] && pairs[j] == init[j];
        }
      }
    }
    if DistinctKeys(pairs) {
      forall i, j | 0 <= i < j < n
        ensures init[i].0 != init[j].0
      {
        assert pairs[i] == init[i] && pairs[j] == init[j];
      }
    }
  }

  /** The map has one entry per distinct key: never more entries than pairs, and exactly
      as many when no key repeats. */
  lemma {:induction false} ToMapSize<K, V>(pairs: seq<(K, V)>)
    ensures |ToMap(pairs)| <= |pairs|
    ensures |ToMap(pairs)| == |pairs| <==> DistinctKeys(pairs)
  {
    if |pairs| > 0 {
      ToMapSize(pairs[..|pairs| - 1]);
      ToMapLastSize(pairs);
      LastDistinctKeys(pairs);
    }
  }

  // ---------------------------------------------------------------------------
  // The pairing merge (line 113)
  // ---------------------------------------------------------------------------

  /** No value occurs twice in `s`. */
  ghost predicate NoDuplicates(s: Series) {
    forall i, j :: 0 <= i < j < |s| ==> s[i] != s[j]
  }

  /** The last position of `k` in `s`, or -1 when `k` does not occur. */
  function LastIndexOf(s: Series, k: int32): (j: int)
    ensures -1 <= j < |s|
    ensures j == -1 <==> k !in s
    ensures 0 <= j ==> s[j] == k && forall j' :: j < j' < |s| ==> s[j'] != k
  {
    if |s| == 0 then -1
    else if s[|s| - 1] == k then |s| - 1
    else LastIndexOf(s[..|s| - 1], k)
  }

  /** `production.zip(consumption).toMap()`: the keys are the production values within
      the shorter length, and each is bound to the consumption value at the last position
      within that length where production holds it (the last pair wins). */
  function Pairing(production: Series, consumption: Series): (m: map<int32, int32>)
    ensures forall k :: k in m <==> k in production[..Min(|production|, |consumption|)]
    ensures forall k :: k in m ==>
              var j := LastIndexOf(production[..Min(|production|, |consumption|)], k);
              0 <= j < |consumption| && m[k] == consumption[j]
    ensures forall v :: v in m.Values ==> v in consumption[..Min(|production|, |consumption|)]
  {
    var n := Min(|production|, |consumption|);
    var prefix := production[..n];
    var pairs := Zip(production, consumption);
    var m := ToMap(pairs);
    ToMapKeys(pairs);
    assert forall k :: k in KeySet(pairs) <==> k in prefix by {
      assert forall i :: 0 <= i < n ==> pairs[i].0 == prefix[i];
    }
    forall k | k in m
      ensures m[k] == consumption[LastIndexOf(prefix, k)]
    {
      var j := LastIndexOf(prefix, k);
      assert LastWithKey(pairs, j) by {
        assert forall j' :: j < j' < n ==> pairs[j'].0 == prefix[j'];
      }
      ToMapLastWins(pairs, j);
    }
    assert forall k :: k in m ==> consumption[LastIndexOf(prefix, k)] in consumption[..n];
    m
  }

  /** The zipped pairs have distinct keys exactly when the compared prefix of production
      has no repeated value. */
  lemma ZipDistinctKeys(production: Series, consumption: Series)
    ensures DistinctKeys(Zip(production, consumption))
            == NoDuplicates(production[..Min(|production|, |consumption|)])
  {
    var n := Min(|production|, |consumption|);
    var pairs := Zip(production, consumption);
    var prefix := production[..n];
    assert forall i :: 0 <= i < n ==> pairs[i].0 == prefix[i];
  }

  /** The pairing has at most one entry per compared position, exactly one when the
      compared prefix of production has no repeated value, and none when either series
      is empty. */
  lemma PairingSize(production: Series, consumption: Series)
    ensures |Pairing(production, consumption)| <= Min(|production|, |consumption|)
    ensures (|Pairing(production, consumption)| == Min(|production|, |consumption|))
              == NoDuplicates(production[..Min(|production|, |consumption|)])
    ensures |production| == 0 || |consumption| == 0 ==> Pairing(production, consumption) == map[]
  {
    var pairs := Zip(production, consumption);
    assert Pairing(production, consumption) == ToMap(pairs);
    ToMapSize(pairs);
    ZipDistinctKeys(production, consumption);
  }

  /** Elements past the shorter length take no part: the pairing of the full series equals
      the pairing of their common-length prefixes. */
  lemma PairingIgnoresTail(production: Series, consumption: Series)
    ensures Pairing(production, consumption)
            == Pairing(production[..Min(|production|, |consumption|)],
                       consumption[..Min(|production|, |consumption|)])
  {
    var n := Min(|production|, |consumption|);
    assert Zip(production, consumption) == Zip(production[..n], consumption[..n]);
  }

  /** production = [10, 20, 30], consumption = [1, 2]: the unmatched 30 is dropped. */
  lemma PairingTruncatesExample()
    ensures Pairing([10, 20, 30], [1, 2]) == map[10 := 1, 20 := 2]
  {
    var production: Series := [10, 20, 30];
    var consumption: Series := [1, 2];
    assert Zip(production, consumption) == [(10, 1), (20, 2)];
  }

  /** production = [5, 7, 5], consumption = [1, 2, 3]: the repeated key 5 keeps the
      consumption value of its last position. */
  lemma PairingLastWinsExample()
    ensures Pairing([5, 7, 5], [1, 2, 3]) == map[5 := 3, 7 := 2]
  {
    var production: Series := [5, 7, 5];
    var consumption: Series := [1, 2, 3];
    assert Zip(production, consumption) == [(5, 1), (7, 2), (5, 3)];
  }

  // ---------------------------------------------------------------------------
  // The grouping merge (lines 114-119)
  // ---------------------------------------------------------------------------

  const Water := "Vesivoima"
  const Nuclear := "Ydinvoima"
  const Wind := "Tuulivoima"

  /** `groups.getOrPut(key) { mutableListOf() }`: the list bound to `key`, binding a
      fresh empty list first when there is none. */
  function GetOrPut(groups: map<string, Series>, key: string): (r: (map<string, Series>, Series))
    ensures r.0.Keys == groups.Keys + {key}
    ensures key in r.0 && r.0[key] == r.1
    ensures key !in groups ==> r.1 == []
    ensures forall l :: l in groups ==> r.0[l] == groups[l]
  {
    if key in groups then (groups, groups[key]) else (groups[key := []], [])
  }

  /** `groups.getOrPut(key) { mutableListOf() }.addAll(xs)`: the list bound to `key`
      is extended by `xs` in place, so the map sees the extension. */
  function AddAll(groups: map<string, Series>, key: string, xs: Series): (r: map<string, Series>)
    ensures r.Keys == groups.Keys + {key}
    ensures r[key] == (if key in groups then groups[key] else []) + xs
    ensures forall l :: l in groups && l != key ==> r[l] == groups[l]
  {
    var (bound, list) := GetOrPut(groups, key);
    bound[key := list + xs]
  }

  /** The `productions` map: the three labels, each bound to its series unchanged in
      content and order. */
  function Grouping(water: Series, nuclear: Series, wind: Series): (g: map<string, Series>)
    ensures g.Keys == {Water, Nuclear, Wind}
    ensures g[Water] == water && g[Nuclear] == nuclear && g[Wind] == wind
  {
    var g0: map<string, Series> := map[];
    var g1 := AddAll(g0, Water, water);
    var g2 := AddAll(g1, Nuclear, nuclear);
    AddAll(g2, Wind, wind)
  }

  // ---------------------------------------------------------------------------
  // The tagged result (lines 64-67 and 121-123)
  // ---------------------------------------------------------------------------

  /** The sealed class `MergeValue`. */
  datatype MergeValue =
    | IntMap(pairs: map<int32, int32>)
    | NestedMap(groups: map<string, Series>)

  const PairingKey := "tuotanto_v_kulutus"
  const GroupingKey := "tuotanto"

  /** The `merge` map returned by `fetchElectricityData`. */
  function Merge(consumption: Series, production: Series, wind: Series, nuclear: Series,
                 water: Series): (r: map<string, MergeValue>)
    ensures r.Keys == {PairingKey, GroupingKey}
    ensures r[PairingKey].IntMap? && r[PairingKey].pairs == Pairing(production, consumption)
    ensures r[GroupingKey].NestedMap? && r[GroupingKey].groups == Grouping(water, nuclear, wind)
  {
    var pairing := Pairing(production, consumption);
    var productions := Grouping(water, nuclear, wind);
    var merge: map<string, MergeValue> := map[];
    merge[PairingKey := IntMap(pairing)][GroupingKey := NestedMap(productions)]
  }
}

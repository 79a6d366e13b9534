/**
 A model of the insertion-ordered, string-keyed dictionaries the counting script is built on.
 A dictionary is its key sequence (the iteration order) together with the finite
 map from keys to values; `Valid` ties the two together.
 */
module Dicts {

  datatype Dict<V> = Dict(keys: seq<string>, entries: map<string, V>)
  {
    /** Keys are listed once each, and exactly the keys of `entries` are listed. */
    ghost predicate Valid() {
      && Distinct(keys)
      && (forall i :: 0 <= i < |keys| ==> keys[i] in entries)
      && (forall k :: k in entries ==> k in keys)
    }

    /** `d[k] = v`: a new key goes to the end of the order, an existing key keeps its place. */
    function Insert(k: string, v: V): (d: Dict<V>)
      ensures d.entries == entries[k := v]
      ensures d.keys == if k in entries then keys else keys + [k]
    {
      if k in entries then Dict(keys, entries[k := v]) else Dict(keys + [k], entries[k := v])
    }
  }

  /** Assignment keeps a dictionary well formed. */
  lemma InsertValid<V>(d: Dict<V>, k: string, v: V)
    requires d.Valid()
    ensures d.Insert(k, v).Valid()
  {
    var d' := d.Insert(k, v);
    if k !in d.entries {
      forall i | 0 <= i < |d.keys|
        ensures d'.keys[i] != k
      {
        assert d.keys[i] in d.entries;
      }
    }
  }

  /** No value occurs twice: each one is new when it is reached. */
  ghost predicate Distinct(ks: seq<string>) {
    ks == [] || (Distinct(ks[..|ks| - 1]) && ks[|ks| - 1] !in ks[..|ks| - 1])
  }

  /** In a list without repetitions, the value at `i` is not among the ones before it. */
  lemma {:induction false} DistinctAt(ks: seq<string>, i: nat)
    requires Distinct(ks) && i < |ks|
    ensures ks[i] !in ks[..i]
  {
    if i < |ks| - 1 {
      var init := ks[..|ks| - 1];
      assert init[..i] == ks[..i] && init[i] == ks[i];
      DistinctAt(init, i);
    }
  }

  function Empty<V>(): (d: Dict<V>)
    ensures d.Valid() && d.keys == [] && d.entries == map[]
  {
    Dict([], map[])
  }

  /** `{x: v for x in ks}`: the keys of `ks`, duplicates collapsed, each mapped to `v`. */
  function FromKeys<V>(ks: seq<string>, v: V): (d: Dict<V>)
    ensures d.Valid()
  {
    if ks == [] then Empty()
    else
      var prev := FromKeys(ks[..|ks| - 1], v);
      InsertValid(prev, ks[|ks| - 1], v);
      prev.Insert(ks[|ks| - 1], v)
  }

  /** The comprehension over a non-empty list assigns its last value after the rest. */
  lemma FromKeysStep<V>(ks: seq<string>, v: V)
    requires ks != []
    ensures FromKeys(ks, v) == FromKeys(ks[..|ks| - 1], v).Insert(ks[|ks| - 1], v)
  {
  }

  /** A value is in a non-empty list when it is its last element or in the rest. */
  lemma InLastOrInit(ks: seq<string>, k: string)
    requires ks != []
    ensures k in ks <==> k in ks[..|ks| - 1] || k == ks[|ks| - 1]
  {
    assert ks == ks[..|ks| - 1] + [ks[|ks| - 1]];
  }

  /** The comprehension has exactly the listed values as keys, each mapped to `v`, and
      no more keys than the list has entries. */
  lemma {:induction false} FromKeysShape<V>(ks: seq<string>, v: V)
    ensures forall k :: k in FromKeys(ks, v).entries <==> k in ks
    ensures forall k :: k in FromKeys(ks, v).entries ==> FromKeys(ks, v).entries[k] == v
    ensures |FromKeys(ks, v).keys| <= |ks|
  {
    if ks != [] {
      var init, x := ks[..|ks| - 1], ks[|ks| - 1];
      var prev := FromKeys(init, v);
      var d := FromKeys(ks, v);
      assert d.entries == prev.entries[x := v];
      assert |d.keys| <= |prev.keys| + 1;
      FromKeysShape(init, v);
      forall k
        ensures k in d.entries <==> k in ks
        ensures k in d.entries ==> d.entries[k] == v
      {
        InLastOrInit(ks, k);
      }
    }
  }

  /** The position of the first occurrence of `x` in `ks`. */
  function IndexOf(ks: seq<string>, x: string): (i: nat)
    requires x in ks
    ensures i < |ks| && ks[i] == x
    ensures forall j :: 0 <= j < i ==> ks[j] != x
  {
    if ks[0] == x then 0 else 1 + IndexOf(ks[1..], x)
  }

  /** Appending to a list does not move the first occurrence of anything already in it. */
  lemma {:induction false} IndexOfAppend(ks: seq<string>, y: string, x: string)
    requires x in ks
    ensures x in ks + [y] && IndexOf(ks + [y], x) == IndexOf(ks, x)
  {
    if ks[0] != x {
      assert (ks + [y])[1..] == ks[1..] + [y];
      IndexOfAppend(ks[1..], y, x);
    }
  }

  /** A value missing from a list first occurs where it is appended. */
  lemma IndexOfNew(ks: seq<string>, x: string)
    requires x !in ks
    ensures x in ks + [x] && IndexOf(ks + [x], x) == |ks|
  {
  }

  /** Taking one more element of a list appends it. */
  lemma TakeStep(ks: seq<string>, i: nat)
    requires i < |ks|
    ensures ks[..i + 1] == ks[..i] + [ks[i]]
  {
  }

  /** `keys` lists values of `ks` in the order of their first occurrence in `ks`. */
  ghost predicate FirstOccurrenceOrder(keys: seq<string>, ks: seq<string>) {
    && (forall k :: k in keys ==> k in ks)
    && (forall i, j :: 0 <= i < j < |keys| ==> IndexOf(ks, keys[i]) < IndexOf(ks, keys[j]))
  }

  /** Appending to the list preserves the order of the keys seen so far, and a new
      key placed last is in order too. */
  lemma AppendKeepsOrder(keys: seq<string>, init: seq<string>, x: string)
    requires FirstOccurrenceOrder(keys, init)
    ensures FirstOccurrenceOrder(keys, init + [x])
    ensures x !in init ==> FirstOccurrenceOrder(keys + [x], init + [x])
  {
    var ks := init + [x];
    forall k | k in keys
      ensures k in ks && IndexOf(ks, k) == IndexOf(init, k) < |init|
    {
      IndexOfAppend(init, x, k);
    }
    if x !in init {
      IndexOfNew(init, x);
      var keys' := keys + [x];
      forall i, j | 0 <= i < j < |keys'|
        ensures IndexOf(ks, keys'[i]) < IndexOf(ks, keys'[j])
      {
        assert keys'[i] == keys[i];
        if j == |keys| {
          assert keys'[j] == x;
        } else {
          assert keys'[j] == keys[j];
        }
      }
    }
  }

  /** The comprehension orders its keys by their first occurrence in the list. */
  lemma {:induction false} FromKeysOrder<V>(ks: seq<string>, v: V)
    ensures FirstOccurrenceOrder(FromKeys(ks, v).keys, ks)
  {
    if ks != [] {
      var init, x := ks[..|ks| - 1], ks[|ks| - 1];
      assert ks == init + [x];
      var prev := FromKeys(init, v);
      assert FromKeys(ks, v) == prev.Insert(x, v);
      FromKeysOrder(init, v);
      FromKeysShape(init, v);
      AppendKeepsOrder(prev.keys, init, x);
    }
  }

  /** `d.get(k, 0)` on a dictionary of counts. */
  function Get(m: map<string, int>, k: string): (n: int)
    ensures k in m ==> n == m[k]
    ensures k !in m ==> n == 0
  {
    if k in m then m[k] else 0
  }

  /** The running total of the counts `m` gives the keys `ks` (0 for a missing key),
      accumulated left to right. */
  function SumOver(ks: seq<string>, m: map<string, int>): int
  {
    if ks == [] then 0 else SumOver(ks[..|ks| - 1], m) + Get(m, ks[|ks| - 1])
  }

  /** One more step of the running total. */
  lemma SumOverStep(ks: seq<string>, m: map<string, int>, i: nat)
    requires i < |ks|
    ensures SumOver(ks[..i + 1], m) == SumOver(ks[..i], m) + Get(m, ks[i])
  {
    assert ks[..i + 1][..i] == ks[..i];
  }

  /** The sum of the values of a dictionary of counts, in its own order. */
  function Total(d: Dict<int>): int
  {
    SumOver(d.keys, d.entries)
  }

  /** The sum of the values of a finite map, independent of any order. */
  ghost function MapSum(m: map<string, int>): int
    decreases |m|
  {
    if m == map[] then 0
    else
      var k :| k in m;
      m[k] + MapSum(m - {k})
  }

  /** Two maps that give the same counts to the summed keys have the same running total. */
  lemma {:induction false} SumOverAgree(ks: seq<string>, m1: map<string, int>, m2: map<string, int>)
    requires forall k :: k in ks ==> Get(m1, k) == Get(m2, k)
    ensures SumOver(ks, m1) == SumOver(ks, m2)
  {
    if ks != [] {
      SumOverAgree(ks[..|ks| - 1], m1, m2);
    }
  }

  /** Any key may be taken out first: the map sum does not depend on the chosen key. */
  lemma {:induction false} MapSumRemove(m: map<string, int>, k: string)
    requires k in m
    ensures MapSum(m) == m[k] + MapSum(m - {k})
    decreases |m|
  {
    var j :| j in m && MapSum(m) == m[j] + MapSum(m - {j});
    if j != k {
      assert (m - {j}) - {k} == (m - {k}) - {j};
      MapSumRemove(m - {j}, k);
      MapSumRemove(m - {k}, j);
    }
  }

  /** Summing over any duplicate-free listing of a map's keys gives the map sum. */
  lemma {:induction false} SumOverIsMapSum(ks: seq<string>, m: map<string, int>)
    requires Distinct(ks)
    requires forall k :: k in m <==> k in ks
    ensures SumOver(ks, m) == MapSum(m)
  {
    if ks == [] {
      assert m == map[];
    } else {
      var init, x := ks[..|ks| - 1], ks[|ks| - 1];
      var rest := m - {x};
      forall k ensures k in rest <==> k in init {
        if k in init {
          var i :| 0 <= i < |init| && init[i] == k;
          assert ks[i] == k && i < |ks| - 1;
        }
        assert k in ks <==> k in init || k == x by {
          assert ks == init + [x];
        }
      }
      SumOverAgree(init, m, rest);
      SumOverIsMapSum(init, rest);
      MapSumRemove(m, x);
    }
  }

  /** The total of a valid dictionary is the sum of its values. */
  lemma TotalIsMapSum(d: Dict<int>)
    requires d.Valid()
    ensures Total(d) == MapSum(d.entries)
  {
    SumOverIsMapSum(d.keys, d.entries);
  }
}

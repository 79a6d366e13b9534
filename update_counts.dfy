/**
 The reshaping pipeline of the redirect hit-count script: a redirect map (canonical
 path to the list of legacy paths that redirect to it) becomes one zero-filled
 `PathCounts` record per canonical path; the records are then filled in place from
 the flat hit-count index; finally each record is turned into the
 `{"paths_counts": ..., "total_count": ...}` object that is written out.
 */
module UpdateCounts {
  import opened Dicts

  /** The value held by a `PathCounts` object at one moment (what `asdict` returns). */
  datatype Record = Record(pathsCounts: Dict<int>, totalCount: int)
  {
    ghost predicate Valid() {
      pathsCounts.Valid()
    }
  }

  /** All records of a per-canonical-path structure are well formed. */
  ghost predicate ValidRecords(t: Dict<Record>) {
    t.Valid() && forall k :: k in t.entries ==> t.entries[k].Valid()
  }

  /** The dataclass: the count per redirect path and the total, both updated in place. */
  class PathCounts {
    var pathsCounts: Dict<int>
    var totalCount: int

    ghost predicate Valid()
      reads this
    {
      pathsCounts.Valid()
    }

    function Value(): (r: Record)
      reads this
      ensures r.pathsCounts == pathsCounts && r.totalCount == totalCount
    {
      Record(pathsCounts, totalCount)
    }

    /** `PathCounts(paths_counts=...)`: `total_count` takes its default, 0. */
    constructor (pathsCounts: Dict<int>)
      requires pathsCounts.Valid()
      ensures Valid()
      ensures this.pathsCounts == pathsCounts && totalCount == 0
    {
      this.pathsCounts := pathsCounts;
      totalCount := 0;
    }

    /**
     The body of the outer loop of `process_transformed_data`: every redirect path's
     count is overwritten by its hit count (0 when the index lacks it), and the
     running total of the new counts becomes `total_count`.
     */
    method Recount(allCounts: map<string, int>)
      requires Valid()
      modifies this
      ensures Valid()
      ensures Value() == Recounted(old(pathsCounts.keys), allCounts)
    {
      ghost var start := Value();
      ghost var keys, domain := pathsCounts.keys, pathsCounts.entries.Keys;
      var counts := pathsCounts;
      var total := 0;
      var i := 0;
      while i < |counts.keys|
        invariant 0 <= i <= |keys|
        invariant counts.keys == keys && counts.entries.Keys == domain
        invariant forall j :: 0 <= j < i ==> counts.entries[keys[j]] == Get(allCounts, keys[j])
        invariant total == SumOver(keys[..i], allCounts)
      {
        var pathname := counts.keys[i];
        var count := Get(allCounts, pathname);
        counts := counts.Insert(pathname, count);
        total := total + count;
        SumOverStep(keys, allCounts, i);
        i := i + 1;
      }
      assert keys[..i] == keys;
      RecountDone(start, counts, total, allCounts);
      pathsCounts, totalCount := counts, total;
    }
  }

  /** Counts overwritten key by key with the index's counts, and their running total,
      are the processed record. */
  lemma RecountDone(r: Record, counts: Dict<int>, total: int, allCounts: map<string, int>)
    requires r.Valid()
    requires counts.keys == r.pathsCounts.keys && counts.entries.Keys == r.pathsCounts.entries.Keys
    requires forall j :: 0 <= j < |counts.keys| ==> counts.entries[counts.keys[j]] == Get(allCounts, counts.keys[j])
    requires total == SumOver(counts.keys, allCounts)
    ensures counts.Valid() && Record(counts, total) == Recounted(r.pathsCounts.keys, allCounts)
  {
    var refreshed := Refreshed(counts.keys, allCounts);
    forall p | p in counts.entries
      ensures counts.entries[p] == refreshed.entries[p]
    {
      var j :| 0 <= j < |counts.keys| && counts.keys[j] == p;
    }
    SumOverAgree(counts.keys, allCounts, refreshed.entries);
  }

  /** The objects of a structure are well formed. */
  ghost predicate ValidObjects(t: Dict<PathCounts>)
    reads t.entries.Values
  {
    t.Valid() && forall k :: k in t.entries ==> t.entries[k].Valid()
  }

  /** The value of a structure of `PathCounts` objects, key by key. */
  function Snapshot(t: Dict<PathCounts>): (s: Dict<Record>)
    reads t.entries.Values
    ensures s.keys == t.keys && s.entries.Keys == t.entries.Keys
    ensures forall k :: k in t.entries ==> s.entries[k] == t.entries[k].Value()
  {
    Dict(t.keys, map k | k in t.entries :: t.entries[k].Value())
  }

  // ---------------------------------------------------------------------------
  // transform_data_structure

  /** The zero-filled record for one canonical path. */
  function Initial(paths: seq<string>): (r: Record)
  {
    Record(FromKeys(paths, 0), 0)
  }

  /** `transform_data_structure` on values: one zero-filled record per canonical path. */
  function Transformed(fetchData: Dict<seq<string>>): (t: Dict<Record>)
  {
    Dict(fetchData.keys, map k | k in fetchData.entries :: Initial(fetchData.entries[k]))
  }

  /**
   The record built for one list of redirect paths lists every path of the list exactly
   once, in order of first occurrence, each with count 0, and its total is 0.
   */
  lemma InitialShape(paths: seq<string>)
    ensures var r := Initial(paths);
      && r.Valid()
      && (forall p :: p in r.pathsCounts.entries <==> p in paths)
      && (forall p :: p in r.pathsCounts.entries ==> r.pathsCounts.entries[p] == 0)
      && FirstOccurrenceOrder(r.pathsCounts.keys, paths)
      && r.totalCount == 0
      && Total(r.pathsCounts) == 0
  {
    FromKeysShape(paths, 0);
    FromKeysOrder(paths, 0);
    ZeroTotal(paths);
  }

  /** The transformed structure has the redirect map's canonical paths, in its order,
      and well-formed records. */
  lemma TransformedValid(fetchData: Dict<seq<string>>)
    requires fetchData.Valid()
    ensures ValidRecords(Transformed(fetchData))
    ensures Transformed(fetchData).keys == fetchData.keys
    ensures Transformed(fetchData).entries.Keys == fetchData.entries.Keys
  {
  }

  /** The zero-filled counts add up to 0. */
  lemma ZeroTotal(paths: seq<string>)
    ensures Total(FromKeys(paths, 0)) == 0
  {
    var d := FromKeys(paths, 0);
    FromKeysShape(paths, 0);
    ZeroSum(d.keys, d.entries);
  }

  lemma {:induction false} ZeroSum(ks: seq<string>, m: map<string, int>)
    requires forall k :: k in ks ==> Get(m, k) == 0
    ensures SumOver(ks, m) == 0
  {
    if ks != [] {
      ZeroSum(ks[..|ks| - 1], m);
    }
  }

  /**
   `transform_data_structure`: a new `PathCounts` object per canonical path, holding the
   zero-filled record for that path's redirect list. The comprehension assigns the
   redirect map's keys in its order, and they are distinct, so every assignment appends
   its key and the result lists the canonical paths in the redirect map's order.
   */
  method TransformDataStructure(fetchData: Dict<seq<string>>) returns (t: Dict<PathCounts>)
    requires fetchData.Valid()
    ensures t.Valid() && t.keys == fetchData.keys
    ensures forall k :: k in t.entries ==>
      && k in fetchData.entries
      && t.entries[k].Value() == Initial(fetchData.entries[k])
    ensures forall k :: k in t.entries ==> fresh(t.entries[k])
    ensures forall k1, k2 :: k1 in t.entries && k2 in t.entries && k1 != k2 ==> t.entries[k1] != t.entries[k2]
  {
    var entries: map<string, PathCounts> := map[];
    var i := 0;
    while i < |fetchData.keys|
      invariant 0 <= i <= |fetchData.keys|
      invariant forall k :: k in fetchData.keys[..i] ==> k in entries
      invariant forall k :: k in entries ==>
        && k in fetchData.entries
        && entries[k].Value() == Initial(fetchData.entries[k])
        && fresh(entries[k])
      invariant forall k1, k2 :: k1 in entries && k2 in entries && k1 != k2 ==> entries[k1] != entries[k2]
    {
      var key := fetchData.keys[i];
      label Before:
      var value := new PathCounts(FromKeys(fetchData.entries[key], 0));
      forall k | k in entries
        ensures entries[k].Value() == old@Before(entries[k].Value())
      {
      }
      entries := entries[key := value];
      TakeStep(fetchData.keys, i);
      i := i + 1;
    }
    assert fetchData.keys[..i] == fetchData.keys;
    t := Dict(fetchData.keys, entries);
  }

  // ---------------------------------------------------------------------------
  // process_transformed_data

  /** The counts of `keys` looked up in the hit-count index, 0 for a missing path. */
  function Refreshed(keys: seq<string>, allCounts: map<string, int>): (d: Dict<int>)
    ensures d.keys == keys
    ensures forall p :: p in d.entries <==> p in keys
    ensures forall p :: p in d.entries ==> (p in allCounts ==> d.entries[p] == allCounts[p]) && (p !in allCounts ==> d.entries[p] == 0)
  {
    Dict(keys, map p | p in keys :: Get(allCounts, p))
  }

  /** A record whose paths are `keys`, after its counts are refreshed and its total
      recomputed. */
  function Recounted(keys: seq<string>, allCounts: map<string, int>): (r: Record)
  {
    var counts := Refreshed(keys, allCounts);
    Record(counts, Total(counts))
  }

  /** `process_transformed_data` on values: every record recounted, the keys untouched. */
  function ProcessedAll(t: Dict<Record>, allCounts: map<string, int>): (t': Dict<Record>)
  {
    Dict(t.keys, map k | k in t.entries :: Recounted(t.entries[k].pathsCounts.keys, allCounts))
  }

  /**
   A recounted record keeps its redirect paths and their order; each count is the
   index's count for its path (0 when the index lacks it); the total is the sum of the
   counts, whatever order they are added in.
   */
  lemma RecountedShape(r: Record, allCounts: map<string, int>)
    requires r.Valid()
    ensures var r' := Recounted(r.pathsCounts.keys, allCounts);
      && r'.Valid()
      && r'.pathsCounts.keys == r.pathsCounts.keys
      && r'.pathsCounts.entries.Keys == r.pathsCounts.entries.Keys
      && (forall p :: p in r'.pathsCounts.entries ==> r'.pathsCounts.entries[p] == Get(allCounts, p))
      && r'.totalCount == MapSum(r'.pathsCounts.entries)
  {
    var counts := Refreshed(r.pathsCounts.keys, allCounts);
    assert counts.Valid();
    TotalIsMapSum(counts);
  }

  /** Processing keeps the canonical paths and their order, and keeps every record
      well formed. */
  lemma ProcessedValid(t: Dict<Record>, allCounts: map<string, int>)
    requires ValidRecords(t)
    ensures ValidRecords(ProcessedAll(t, allCounts))
    ensures ProcessedAll(t, allCounts).keys == t.keys
    ensures ProcessedAll(t, allCounts).entries.Keys == t.entries.Keys
  {
    var t' := ProcessedAll(t, allCounts);
    forall k | k in t'.entries
      ensures t'.entries[k].Valid()
    {
      RecountedShape(t.entries[k], allCounts);
    }
  }

  /** Processing twice with the same index leaves the same records as processing once. */
  lemma ProcessIdempotent(t: Dict<Record>, allCounts: map<string, int>)
    ensures ProcessedAll(ProcessedAll(t, allCounts), allCounts) == ProcessedAll(t, allCounts)
  {
    var once := ProcessedAll(t, allCounts);
    var twice := ProcessedAll(once, allCounts);
    forall k | k in once.entries
      ensures twice.entries[k] == once.entries[k]
    {
      assert once.entries[k].pathsCounts.keys == t.entries[k].pathsCounts.keys;
    }
  }

  /** The object holds its record recounted over its own paths. */
  ghost predicate Done(o: PathCounts, allCounts: map<string, int>)
    reads o
  {
    o.Value() == Recounted(o.pathsCounts.keys, allCounts)
  }

  /**
   One step of `process_transformed_data`: the object at position `i` is recounted;
   no object changes its paths, and an object that was already recounted stays so.
   */
  method RecountAt(t: Dict<PathCounts>, i: nat, allCounts: map<string, int>)
    requires ValidObjects(t) && i < |t.keys|
    modifies t.entries[t.keys[i]]
    ensures ValidObjects(t)
    ensures forall k :: k in t.entries ==> t.entries[k].pathsCounts.keys == old(t.entries[k].pathsCounts.keys)
    ensures forall k :: k in t.entries && old(Done(t.entries[k], allCounts)) ==> Done(t.entries[k], allCounts)
    ensures Done(t.entries[t.keys[i]], allCounts)
  {
    var value := t.entries[t.keys[i]];
    value.Recount(allCounts);
    forall k | k in t.entries
      ensures t.entries[k].Valid() && t.entries[k].pathsCounts.keys == old(t.entries[k].pathsCounts.keys)
      ensures old(Done(t.entries[k], allCounts)) ==> Done(t.entries[k], allCounts)
    {
      if t.entries[k] != value {
        assert t.entries[k].Value() == old(t.entries[k].Value());
      }
    }
  }

  /**
   `process_transformed_data`: the records are visited in the structure's order and
   each is recounted in place, so afterwards every record holds the recount of the
   paths it had. Two keys may share one object; recounting it twice is harmless
   because a recount depends only on the paths.
   */
  method ProcessTransformedData(t: Dict<PathCounts>, allCounts: map<string, int>)
    requires ValidObjects(t)
    modifies t.entries.Values
    ensures ValidObjects(t)
    ensures forall k :: k in t.entries ==>
      t.entries[k].Value() == Recounted(old(t.entries[k].pathsCounts.keys), allCounts)
  {
    var i := 0;
    while i < |t.keys|
      invariant 0 <= i <= |t.keys|
      invariant ValidObjects(t)
      invariant forall k :: k in t.entries ==> t.entries[k].pathsCounts.keys == old(t.entries[k].pathsCounts.keys)
      invariant forall k :: k in t.keys[..i] ==> Done(t.entries[k], allCounts)
    {
      RecountAt(t, i, allCounts);
      TakeStep(t.keys, i);
      i := i + 1;
    }
    assert t.keys[..i] == t.keys;
    forall k | k in t.entries
      ensures t.entries[k].Value() == Recounted(old(t.entries[k].pathsCounts.keys), allCounts)
    {
      assert Done(t.entries[k], allCounts);
    }
  }
}

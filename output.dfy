/**
 The document `save_transformed_data` writes: for every canonical path, in the order of
 the structure, an object `{"paths_counts": {...}, "total_count": n}`. A JSON value is
 modelled as a tree whose objects keep their members in the order they are written.
 A reader for the same document is the partner of the writer: reading what was written
 gives the structure back.
 */
module Output {
  import opened Dicts
  import opened UpdateCounts

  datatype Option<T> = None | Some(value: T)

  datatype Json = JInt(n: int) | JObject(members: seq<(string, Json)>)

  const PathsCountsName := "paths_counts"
  const TotalCountName := "total_count"

  // ---------------------------------------------------------------------------
  // Writing

  /** The members of a counts object: one integer per listed path, in the given order. */
  function CountMembers(ks: seq<string>, m: map<string, int>): (ms: seq<(string, Json)>)
    requires forall k :: k in ks ==> k in m
    ensures |ms| == |ks|
    ensures forall i :: 0 <= i < |ks| ==> ms[i] == (ks[i], JInt(m[ks[i]]))
  {
    if ks == [] then []
    else CountMembers(ks[..|ks| - 1], m) + [(ks[|ks| - 1], JInt(m[ks[|ks| - 1]]))]
  }

  /** `paths_counts` as written: the counts in the dictionary's order. */
  function CountsJson(d: Dict<int>): (j: Json)
    requires d.Valid()
  {
    JObject(CountMembers(d.keys, d.entries))
  }

  /** The object written for one record: its counts, then its total. */
  function RecordJson(r: Record): (j: Json)
    requires r.Valid()
  {
    JObject([(PathsCountsName, CountsJson(r.pathsCounts)), (TotalCountName, JInt(r.totalCount))])
  }

  /** The members of the document: one record object per canonical path, in the given order. */
  function RecordMembers(ks: seq<string>, m: map<string, Record>): (ms: seq<(string, Json)>)
    requires forall k :: k in ks ==> k in m && m[k].Valid()
    ensures |ms| == |ks|
    ensures forall i :: 0 <= i < |ks| ==> ms[i] == (ks[i], RecordJson(m[ks[i]]))
  {
    if ks == [] then []
    else RecordMembers(ks[..|ks| - 1], m) + [(ks[|ks| - 1], RecordJson(m[ks[|ks| - 1]]))]
  }

  /** The reshaped document, built from the records' values. */
  function Reshape(t: Dict<Record>): (j: Json)
    requires ValidRecords(t)
  {
    JObject(RecordMembers(t.keys, t.entries))
  }

  /** `save_transformed_data` without the file: the document for the objects' current values. */
  function SavedJson(t: Dict<PathCounts>): (j: Json)
    reads t.entries.Values
    requires ValidObjects(t)
    ensures ParseOutput(j) == Some(Snapshot(t))
  {
    var s := Snapshot(t);
    assert ValidRecords(s);
    OutputRoundTrip(s);
    Reshape(s)
  }

  /** The three steps of a run on values: transform the redirect map, recount every
      record from the hit-count index, reshape the result into the written document. */
  function Pipeline(fetchData: Dict<seq<string>>, allCounts: map<string, int>): (j: Json)
    requires fetchData.Valid()
    ensures ParseOutput(j) == Some(ProcessedAll(Transformed(fetchData), allCounts))
  {
    TransformedValid(fetchData);
    var t := ProcessedAll(Transformed(fetchData), allCounts);
    ProcessedValid(Transformed(fetchData), allCounts);
    OutputRoundTrip(t);
    Reshape(t)
  }

  /** A structure of objects whose values are those of `s`, key by key, has snapshot `s`. */
  lemma SnapshotIs(t: Dict<PathCounts>, s: Dict<Record>)
    requires t.keys == s.keys && t.entries.Keys == s.entries.Keys
    requires forall k :: k in t.entries ==> t.entries[k].Value() == s.entries[k]
    ensures Snapshot(t) == s
  {
    assert Snapshot(t).entries == s.entries;
  }

  /**
   `main` after the two fetches: transform the redirect map into new objects, recount
   them in place from the hit-count index, and build the document that is saved. The
   document reads back as the value-level pipeline's result.
   */
  method TransformProcessSave(fetchData: Dict<seq<string>>, allCounts: map<string, int>) returns (j: Json)
    requires fetchData.Valid()
    ensures ParseOutput(j) == Some(ProcessedAll(Transformed(fetchData), allCounts))
  {
    var t := TransformDataStructure(fetchData);
    ghost var initial := Transformed(fetchData);
    TransformedValid(fetchData);
    SnapshotIs(t, initial);
    label Transformed:
    ProcessTransformedData(t, allCounts);
    ghost var processed := ProcessedAll(initial, allCounts);
    forall k | k in t.entries
      ensures t.entries[k].Value() == processed.entries[k]
    {
      assert old@Transformed(t.entries[k].Value()) == initial.entries[k];
    }
    SnapshotIs(t, processed);
    j := SavedJson(t);
  }

  // ---------------------------------------------------------------------------
  // Reading

  /** Reads a counts object; a later member with the same name overwrites the earlier
      value and keeps its place, as a dictionary built member by member does. */
  function ParseCountMembers(ms: seq<(string, Json)>): (r: Option<Dict<int>>)
    ensures r.Some? ==> r.value.Valid()
  {
    if ms == [] then Some(Empty())
    else
      match ParseCountMembers(ms[..|ms| - 1])
      case None => None
      case Some(d) =>
        match ms[|ms| - 1].1
        case JInt(n) =>
          InsertValid(d, ms[|ms| - 1].0, n);
          Some(d.Insert(ms[|ms| - 1].0, n))
        case JObject(_) => None
  }

  /** Reads one record object: exactly the two members the writer produces, in its order. */
  function ParseRecord(j: Json): (r: Option<Record>)
    ensures r.Some? ==> r.value.Valid()
  {
    match j
    case JObject(ms) =>
      if |ms| == 2 && ms[0].0 == PathsCountsName && ms[1].0 == TotalCountName
        && ms[0].1.JObject? && ms[1].1.JInt?
      then
        match ParseCountMembers(ms[0].1.members)
        case None => None
        case Some(d) => Some(Record(d, ms[1].1.n))
      else None
    case JInt(_) => None
  }

  /** Reads the members of the document, record by record. */
  function ParseRecordMembers(ms: seq<(string, Json)>): (r: Option<Dict<Record>>)
    ensures r.Some? ==> ValidRecords(r.value)
  {
    if ms == [] then Some(Empty())
    else
      match ParseRecordMembers(ms[..|ms| - 1])
      case None => None
      case Some(t) =>
        match ParseRecord(ms[|ms| - 1].1)
        case None => None
        case Some(r) =>
          InsertValid(t, ms[|ms| - 1].0, r);
          Some(t.Insert(ms[|ms| - 1].0, r))
  }

  /** Reads a whole document. */
  function ParseOutput(j: Json): (r: Option<Dict<Record>>)
    ensures r.Some? ==> ValidRecords(r.value)
  {
    match j
    case JObject(ms) => ParseRecordMembers(ms)
    case JInt(_) => None
  }

  // ---------------------------------------------------------------------------
  // Round trip

  /** The part of `m` that `ks` lists, in the order of `ks`. */
  function Restrict<V>(ks: seq<string>, m: map<string, V>): (d: Dict<V>)
    requires forall k :: k in ks ==> k in m
    ensures d.keys == ks
    ensures forall k :: k in d.entries <==> k in ks
    ensures forall k :: k in d.entries ==> d.entries[k] == m[k]
  {
    Dict(ks, map k | k in ks :: m[k])
  }

  /** Adding the next listed key to a restriction inserts it last. */
  lemma RestrictStep<V>(ks: seq<string>, m: map<string, V>)
    requires ks != [] && Distinct(ks)
    requires forall k :: k in ks ==> k in m
    ensures var init, x := ks[..|ks| - 1], ks[|ks| - 1];
      Restrict(ks, m) == Restrict(init, m).Insert(x, m[x])
  {
    var init, x := ks[..|ks| - 1], ks[|ks| - 1];
    assert ks == init + [x];
    assert Restrict(ks, m).entries == Restrict(init, m).entries[x := m[x]];
  }

  /** A valid dictionary is its own restriction to its keys. */
  lemma RestrictAll<V>(d: Dict<V>)
    requires d.Valid()
    ensures Restrict(d.keys, d.entries) == d
  {
  }

  /** Reading the counts members written for a list of distinct paths gives those counts. */
  lemma {:induction false} CountMembersRoundTrip(ks: seq<string>, m: map<string, int>)
    requires Distinct(ks)
    requires forall k :: k in ks ==> k in m
    ensures ParseCountMembers(CountMembers(ks, m)) == Some(Restrict(ks, m))
  {
    if ks != [] {
      var init, x := ks[..|ks| - 1], ks[|ks| - 1];
      var ms := CountMembers(ks, m);
      assert ms[..|ms| - 1] == CountMembers(init, m);
      CountMembersRoundTrip(init, m);
      RestrictStep(ks, m);
    }
  }

  /** Reading a record object gives the record back. */
  lemma RecordRoundTrip(r: Record)
    requires r.Valid()
    ensures ParseRecord(RecordJson(r)) == Some(r)
  {
    CountMembersRoundTrip(r.pathsCounts.keys, r.pathsCounts.entries);
    RestrictAll(r.pathsCounts);
  }

  /** Reading the record members written for distinct canonical paths gives those records. */
  lemma {:induction false} RecordMembersRoundTrip(ks: seq<string>, m: map<string, Record>)
    requires Distinct(ks)
    requires forall k :: k in ks ==> k in m && m[k].Valid()
    ensures ParseRecordMembers(RecordMembers(ks, m)) == Some(Restrict(ks, m))
  {
    if ks != [] {
      var init, x := ks[..|ks| - 1], ks[|ks| - 1];
      var ms := RecordMembers(ks, m);
      assert ms[..|ms| - 1] == RecordMembers(init, m);
      RecordMembersRoundTrip(init, m);
      RecordRoundTrip(m[x]);
      RestrictStep(ks, m);
    }
  }

  /** Reading the written document gives back every canonical path, in order, with
      exactly its counts and its total. */
  lemma OutputRoundTrip(t: Dict<Record>)
    requires ValidRecords(t)
    ensures ParseOutput(Reshape(t)) == Some(t)
  {
    RecordMembersRoundTrip(t.keys, t.entries);
    RestrictAll(t);
  }

  // ---------------------------------------------------------------------------
  // A worked example

  /** A path listed again after another one is kept once, at its first position. */
  lemma RepeatedPathKeptOnce(a: string, b: string)
    requires a != b
    ensures FromKeys([a, b, a], 0).keys == [a, b]
  {
    var paths := [a, b, a];
    var p1, p2 := paths[..1], paths[..2];
    assert p1 == [a] && p2 == [a, b] && p1[..0] == [] && p2[..1] == p1;
    FromKeysStep(p1, 0);
    var one := FromKeys(p1, 0);
    assert one == Empty().Insert(a, 0);
    assert one.keys == [a] && a in one.entries && b !in one.entries;
    FromKeysStep(p2, 0);
    var two := FromKeys(p2, 0);
    assert two == one.Insert(b, 0);
    assert two.keys == one.keys + [b];
    assert a in two.entries;
    FromKeysStep(paths, 0);
    assert FromKeys(paths, 0) == two.Insert(a, 0);
  }

  /** The legacy path listed twice is kept once, at its first position. */
  lemma ExampleTransform(paths: seq<string>)
    requires paths == ["/old", "/new", "/old"]
    ensures Initial(paths).pathsCounts.keys == ["/old", "/new"]
  {
    var a, b := paths[0], paths[1];
    assert a != b by {
      assert a[1] != b[1];
    }
    assert paths == [a, b, a];
    RepeatedPathKeptOnce(a, b);
  }

  /** The known path takes its count, the unknown one 0; the index's other path is ignored. */
  lemma ExampleRecount(ks: seq<string>, allCounts: map<string, int>)
    requires ks == ["/old", "/new"]
    requires allCounts == map["/old" := 5, "/blog" := 7]
    ensures Recounted(ks, allCounts) == Record(Dict(ks, map["/old" := 5, "/new" := 0]), 5)
  {
    var m := map["/old" := 5, "/new" := 0];
    assert Refreshed(ks, allCounts).entries == m;
    assert ks[..1] == ["/old"] && ks[..0] == [];
    assert SumOver(["/old"], m) == 5;
  }

  /** The recounted record is written with its counts in path order, then its total. */
  lemma ExampleRecordJson()
    ensures var r := Record(Dict(["/old", "/new"], map["/old" := 5, "/new" := 0]), 5);
      r.Valid() && RecordJson(r) == JObject([
        (PathsCountsName, JObject([("/old", JInt(5)), ("/new", JInt(0))])),
        (TotalCountName, JInt(5))])
  {
    var ks := ["/old", "/new"];
    var m := map["/old" := 5, "/new" := 0];
    assert Distinct(ks) by {
      assert "/old" != "/new" by {
        assert "/old"[1] != "/new"[1];
      }
      assert ks[..1] == ["/old"] && ks[..1][..0] == [];
    }
    assert CountMembers(ks, m) == [("/old", JInt(5)), ("/new", JInt(0))];
  }

  /**
   A canonical path whose list names a legacy path twice, with a hit-count index that
   lacks one listed path and counts a path no list names: the record written lists each
   listed path once, in list order, with its count or 0, and their total.
   */
  lemma RecordExample(paths: seq<string>, allCounts: map<string, int>)
    requires paths == ["/old", "/new", "/old"]
    requires allCounts == map["/old" := 5, "/blog" := 7]
    ensures var r := Recounted(Initial(paths).pathsCounts.keys, allCounts);
      r.Valid() && RecordJson(r) == JObject([
        (PathsCountsName, JObject([("/old", JInt(5)), ("/new", JInt(0))])),
        (TotalCountName, JInt(5))])
  {
    ExampleTransform(paths);
    ExampleRecount(Initial(paths).pathsCounts.keys, allCounts);
    ExampleRecordJson();
  }
}

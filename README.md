# Redirect hit counts, reshaped

A model of the reshaping core of `update_counts.py`. The script takes two inputs:

- a redirect map: each canonical path maps to the list of legacy paths that redirect to it;
- a flat hit-count index: each path maps to its number of hits.

From these it builds one `PathCounts` record per canonical path. Each record holds the
count of every legacy path in its list, and the total of those counts. The records are
written out as `{"paths_counts": {...}, "total_count": n}` objects.

The project has three modules:

- `Dicts` (`dicts.dfy`) models Python's insertion-ordered dictionaries.
  - `Dict` pairs a key sequence, the iteration order, with a finite map; `Valid` ties the two together.
  - `Insert` models `d[k] = v`.
  - `FromKeys` models `{x: v for x in ks}`.
  - `Get` models `d.get(k, 0)`.
  - `SumOver` is a running total taken in key order. `MapSum` is a sum that depends on no order.
- `UpdateCounts` (`update_counts.dfy`) models the pipeline itself.
  - `PathCounts` is a class whose two fields are updated in place.
  - `Record` is the value such an object holds at one moment (what `asdict` returns).
  - `transform_data_structure` becomes the method `TransformDataStructure`. It is specified
    by the function `Initial`, and the lemma `InitialShape` proves properties of `Initial`.
  - `process_transformed_data` becomes the method `ProcessTransformedData`. The method
    `PathCounts.Recount` models the body of its outer loop: the reset of the total, the
    inner loop over the paths, and the assignment of `total_count`. Both methods are
    specified by the function `Recounted`.
  - `Transformed` and `ProcessedAll` are the same two steps on values. The method
    `Output.TransformProcessSave` runs the two methods one after the other, as `main` does,
    and proves that the saved document reads back as `ProcessedAll(Transformed(...))`.
- `Output` (`output.dfy`) models the document `save_transformed_data` writes.
  - A JSON value is a tree whose objects keep their members in written order.
  - The partner of the writer is a reader. The round trip `ParseOutput(Reshape(t)) == Some(t)`
    shows that the document keeps every canonical path in order, and every record's counts
    in order, together with its total.

## Model

| member | source | states |
|---|---|---|
| Dicts.InsertValid | update_counts.py:70 | assignment keeps the keys distinct and the order equal to the domain |
| Dicts.FromKeys | update_counts.py:35 | the dict comprehension over a list yields a well-formed dictionary |
| Dicts.FromKeysShape | update_counts.py:35 | the comprehension's keys are exactly the listed paths, each mapped to the given value, with no more keys than list entries |
| Dicts.FromKeysOrder | update_counts.py:35 | a repeated path keeps the position of its first occurrence, so the keys are ordered by first occurrence in the list |
| Dicts.SumOverIsMapSum | update_counts.py:67-71 | the running total over any duplicate-free listing of a map's keys equals the order-independent sum of the map |
| Dicts.TotalIsMapSum | update_counts.py:71-72 | the total accumulated in a dictionary's order is the sum of its values |
| UpdateCounts.PathCounts.constructor | update_counts.py:28 | a new object holds the given well-formed counts, and `total_count` takes its default of 0 |
| UpdateCounts.PathCounts.Recount | update_counts.py:67-72 | the object keeps its paths and their order; each count becomes the index's count (0 if missing); the total becomes their sum |
| UpdateCounts.RecountDone | update_counts.py:68-72 | the counts and total left by the inner loop are exactly the recounted record |
| UpdateCounts.InitialShape | update_counts.py:35 | a new record lists every path of its list once, in first-occurrence order, with count 0, and its total and its sum are 0 |
| UpdateCounts.ZeroTotal | update_counts.py:35 | the zero-filled counts add up to 0, the default total |
| UpdateCounts.TransformedValid | update_counts.py:34-37 | the transformed structure has the redirect map's canonical paths, in its order, and well-formed records |
| UpdateCounts.TransformDataStructure | update_counts.py:31-37 | one newly allocated object per canonical path, distinct canonical paths holding distinct objects, in the redirect map's order, each holding the zero-filled record of that path's list |
| UpdateCounts.RecountedShape | update_counts.py:67-72 | a recounted record is well formed and keeps its paths and order; its counts come from the index; its total is the sum of its counts in any order |
| UpdateCounts.ProcessedValid | update_counts.py:62-72 | processing keeps the canonical paths, their order and well-formed records |
| UpdateCounts.ProcessIdempotent | update_counts.py:62-72 | processing a second time with the same index changes nothing |
| UpdateCounts.RecountAt | update_counts.py:66-72 | one outer iteration recounts the object at its position; it changes no object's paths and undoes no earlier recount, even when keys share an object |
| UpdateCounts.ProcessTransformedData | update_counts.py:62-72 | afterwards every canonical path's object holds the recount of the paths it had, under any sharing of objects between keys |
| Output.CountMembers | update_counts.py:82 | `paths_counts` is written with one integer member per path, in the dictionary's order |
| Output.RecordMembers | update_counts.py:80-86 | the document has one object member per canonical path, in the structure's order |
| Output.CountMembersRoundTrip | update_counts.py:82 | reading the written counts of distinct paths gives those counts back, in order |
| Output.RecordRoundTrip | update_counts.py:81-84 | reading a written record object gives the record back: counts and total |
| Output.RecordMembersRoundTrip | update_counts.py:80-86 | reading the written members of distinct canonical paths gives those records back, in order |
| Output.OutputRoundTrip | update_counts.py:80-86 | reading the reshaped document gives back the whole structure |
| Output.SavedJson | update_counts.py:79-86 | the saved document reads back as the current value of every object |
| Output.SnapshotIs | update_counts.py:82-85 | objects whose values agree key by key with a structure of records, with the same keys in the same order, are read as exactly that structure |
| Output.TransformProcessSave | update_counts.py:96-99 | transforming into new objects, recounting them in place and saving gives a document that reads back as the processed value of the transformed redirect map |
| Output.Pipeline | update_counts.py:95-99 | transform, recount and save, on values: the document reads back as the processed structure |
| Output.RepeatedPathKeptOnce | update_counts.py:35 | a list naming a path twice, with another path between them, keeps the two paths once each, in first-occurrence order |
| Output.ExampleTransform | update_counts.py:35 | the record for `["/old", "/new", "/old"]` lists `"/old"` then `"/new"` |
| Output.ExampleRecount | update_counts.py:67-72 | with the index `{"/old": 5, "/blog": 7}`, the known path gets 5, the missing path 0, the total is 5, and `"/blog"` is ignored |
| Output.ExampleRecordJson | update_counts.py:81-84 | that record is written as `{"paths_counts": {"/old": 5, "/new": 0}, "total_count": 5}` |
| Output.RecordExample | update_counts.py:31-86 | the three steps chained for one canonical path give that object |

## Left out

- Fetching the redirect map and the hit-count index over HTTP (`update_counts.py:40-59`) is left out. The parsed maps are parameters, and the redirect map is modelled already decoded into a `Dict` of path lists.
- The `int(v)` coercion of the index values, and the fallback to an empty index when the request fails (`update_counts.py:45-48`), are left out. The index is a `map<string, int>` parameter, so an empty index is one of the inputs covered.
- The `API_URL` environment check and its `ValueError` (`update_counts.py:9-12`) are left out: they are process configuration.
- Writing `raw.json` and `counts.json` is left out. The text layout of `json.dump(..., indent=2)` is not modelled either: the document is a JSON tree, not its text.
- Printing the progress messages is left out.
- The `asyncio` event loop and the `ClientSession` of `main` are left out (`update_counts.py:93-103`). `Output.TransformProcessSave` chains `main`'s transform, recount and save steps on objects, and `Output.Pipeline` chains them on values.
- The hit-count index is an unordered `map`, because the script only calls `.get` on it and its order reaches no output.
- UpdateCounts.ProcessTransformedData: its postcondition is stated per canonical path (each object's value is the recount of its old paths). It is not stated as one equality between the snapshot and `ProcessedAll`. The two say the same of every key, and `Output.TransformProcessSave` proves the snapshot equality for a structure fresh from `TransformDataStructure`.
- Output.ParseRecord: accepts a record object only with its two members in the order the writer produces. It is the partner of the writer, not a general JSON reader.

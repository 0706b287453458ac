# Electricity data merge — a Dafny model

The program fetches five electricity time series (consumption, production, wind,
nuclear and water power) from an energy-data REST API, one GET request each, and merges
them into one result map:

- `tuotanto_v_kulutus` holds an `IntMap`: production paired position by position with
  consumption, keyed by the production value (`production.zip(consumption).toMap()`);
- `tuotanto` holds a `NestedMap`: the labels `Vesivoima`, `Ydinvoima` and `Tuulivoima`
  bound to the water, nuclear and wind series.

`main` then reads `tuotanto` back, checks that it is a `NestedMap`, and prints it.

The model has four modules:

- `Wrappers` (`wrappers.dfy`): `Option` and a failure-compatible `Result`; a `Failure`
  stands for an exception that escapes the call.
- `Kotlin` (`wrappers.dfy`): `int32`, Kotlin's 32-bit `Int`, and `Series`, a list of them.
- `Fetcher` (`fetch.dfy`): one fetch over an abstract response (status code and the
  decoded `data` array). `Fetch` is the reference definition, and `FetchData` is the
  loop as the source writes it. A non-200 status degrades to the empty list. A 200
  yields the `value`s in array order. A missing `data` array, or a point without an int
  `value`, fails the whole call, and no partial list is returned.
- `Merger` (`merge.dfy`): Kotlin's `zip` and `toMap`, the pairing merge, `getOrPut` plus
  `addAll`, the grouping merge, the `MergeValue` sum type and the result map.
- `Pipeline` (`pipeline.dfy`): `fetchElectricityData` and the check in `main`. The
  network is a parameter `network` that gives the response for each dataset identifier.
  The five fetches run in the source's order (124, 74, 181, 188, 191), and the first
  fetch that fails aborts the run.

## Model

| member | source | states |
|---|---|---|
| Fetcher.Values | app/src/main/kotlin/org/example/App.kt:45-51 | succeeds exactly when every point has an int `value`; then the list has one entry per point and the i-th entry is the i-th point's value; otherwise it names the first point without one |
| Fetcher.Fetch | app/src/main/kotlin/org/example/App.kt:40-57 | succeeds exactly when the status is not 200 or the `data` array is present with every `value` an int. A non-200 status gives the empty list. A 200 gives the N values in array order. A missing array, or the first bad point, fails the whole call |
| Fetcher.FetchData | app/src/main/kotlin/org/example/App.kt:40-57 | the source's loop, which appends each value and throws at the first bad point, returns exactly what the reference definition `Fetch` returns |
| Merger.Zip | app/src/main/kotlin/org/example/App.kt:113 | the zipped list is as long as the shorter input, and its i-th pair is the two inputs' i-th elements |
| Merger.ToMapKeys | app/src/main/kotlin/org/example/App.kt:113 | the keys of `toMap` are exactly the keys of the pairs |
| Merger.ToMapLastWins | app/src/main/kotlin/org/example/App.kt:113 | a pair with no later pair of the same key gives that key's value, so the last write wins |
| Merger.ToMapSize | app/src/main/kotlin/org/example/App.kt:113 | the map never has more entries than there are pairs, and has exactly as many if and only if no key repeats |
| Merger.Pairing | app/src/main/kotlin/org/example/App.kt:113 | the keys are exactly the production values below the shorter length. Each key is bound to `consumption[j]`, where `j` is the largest in-range index with `production[j]` equal to the key (last pair wins). Every value is a consumption element below the shorter length |
| Merger.PairingSize | app/src/main/kotlin/org/example/App.kt:113 | size is at most `min(|production|, |consumption|)`, equal to it if and only if that prefix of production has no duplicates, and the pairing is empty when either series is empty |
| Merger.PairingIgnoresTail | app/src/main/kotlin/org/example/App.kt:113 | pairing the full series gives the same map as pairing their common-length prefixes, so elements past the shorter length are dropped |
| Merger.PairingTruncatesExample | app/src/main/kotlin/org/example/App.kt:113 | production [10, 20, 30] with consumption [1, 2] pairs to {10: 1, 20: 2} |
| Merger.GetOrPut | app/src/main/kotlin/org/example/App.kt:117-119 | the returned list is the one bound to the key afterwards: a fresh empty list if the key was absent, the existing list otherwise; other bindings are unchanged |
| Merger.AddAll | app/src/main/kotlin/org/example/App.kt:117-119 | the key's list becomes its old list (empty if absent) followed by the appended series; no other binding changes |
| Merger.Grouping | app/src/main/kotlin/org/example/App.kt:114-119 | the map has exactly the keys Vesivoima, Ydinvoima and Tuulivoima, bound to the water, nuclear and wind series unchanged in content and order |
| Merger.Merge | app/src/main/kotlin/org/example/App.kt:113-123 | the result has exactly the keys `tuotanto_v_kulutus` and `tuotanto`; the first holds the `IntMap` variant with the pairing, the second the `NestedMap` variant with the grouping |
| Pipeline.FetchDataset | app/src/main/kotlin/org/example/App.kt:99-111 | one fetch of the run: its series on success, or its error tagged with the dataset identifier |
| Pipeline.FetchElectricityData | app/src/main/kotlin/org/example/App.kt:69-124 | succeeds exactly when all five responses are well formed. Otherwise it fails with the error of the first dataset, in fetch order, whose fetch throws. On success the result is the merge of the five fetched series |
| Pipeline.PrintedProduction | app/src/main/kotlin/org/example/App.kt:136-139 | `main` prints exactly when `tuotanto` is present and holds the `NestedMap` variant, and what it prints is that variant's map |
| Pipeline.MainPrintsGrouping | app/src/main/kotlin/org/example/App.kt:134-140 | on every successful run the `is NestedMap` check in `main` succeeds, and it prints the grouping of the water, nuclear and wind series |
| Pipeline.DegradedFetchEmptiesPairing | app/src/main/kotlin/org/example/App.kt:99-113 | when production or consumption gets a non-200 response and every other response is well formed, the run still succeeds (the degraded series is the empty list) and its pairing is empty |

## Left out

- The HTTP connection: opening it, the request method and headers, reading the body and
  `disconnect` in `finally`. These are I/O and resource handling. The model starts from
  the status code and the decoded `data` array, and does not model the release of the
  connection.
- Transport errors, such as an exception from `responseCode` or from reading the stream.
  They abort the run in the source but are outside a pure model.
- Building the request URL from constant strings. It is fixed concatenation.
- JSON decoding by `org.json`. A point is abstracted to the int its `getInt("value")`
  would return, or to "none". The library's coercions are not modelled: truncating a
  fractional number, parsing a numeric string, narrowing a long. An unparsable body and a
  body without a `data` array both become `NoDataArray`.
- The `delay(2000)` pacing and the `runBlocking` coroutine scaffolding. These are timing
  only and do not affect the values.
- `println` of the status code and of the printed map. `Pipeline.PrintedProduction` models
  only which map `main` would print.
- The Supabase client, the `notes` query and the `Note` data class. They never see the
  merged data.
- Iteration order of the `LinkedHashMap`s that Kotlin's `toMap` and `mutableMapOf`
  build. Dafny maps are unordered, so the order in which entries print is not modelled.

# Driving-time radius calculator: a Dafny model of its rules

The calculator geocodes an origin address and samples up to 100 postal-code areas
(ZCTA5 polygons). It asks a route-matrix service for the driving time to each
area, 25 destinations per request. Then it keeps the areas within a time limit,
optionally only those in the origin's state. It colours them on a green-to-red
ramp and exports the kept rows without their geometry.

This project models the rules inside `DrivingTimeRadiusCalculator` and the input
checks of `App.calculate`. It works on plain sequences of records instead of
DataFrames. Replies from the web services are inputs, given as JSON-shaped
datatypes. An exception Python would raise is returned as `Failure(PyError)`:

- `KeyError`: a reply lacks `status`, or a duration lacks `seconds`.
- `IndexError`: a route lies past the end of its batch, or the geocoder's `results` list is empty.
- `ZeroDivisionError`: `get_color_for_time` called with plain floats and a `max_time` of 0.
- `ValueError`: the largest driving time on the map is 0. That maximum is a numpy float, so `time / max_time`
  gives NaN instead of raising, and `int(255 * nan)` raises.

Modules, one per component:

- `Records` and `Wrappers`: the shared values (`AreaRecord`, `TravelRow`, `PyError`, `Option`, `Result`).
- `ResultFilter` (`filter_results`): a pure function built on boolean-mask indexing. It is proved to be
  sound, complete, order-preserving and idempotent.
- `Sampling`: the default sample size `min(100, n)`, the random draw taken as given data, and the slices
  `iloc[i:i+25]` for `i` in `range(0, n, 25)`. They are proved to partition the sample.
- `DistanceMatrix` (`calculate_driving_times`): three methods with loops.
  - `AppendRouteRows` is the inner loop over one matrix row's routes.
  - `AppendBatchRows` is the body of the loop over batches: it reads one reply and runs the inner loop per matrix row.
  - `CollectDrivingTimes` is the loop over batches.
  - Each is proved against its own specification function: `AppendRouteRows` against `RoutesRows`,
    `AppendBatchRows` against `BatchRows`, and `CollectDrivingTimes` against `DrivingRows`. Lemmas state what the rows are.
  - The source quirks are modelled as written:
    - every row is labelled `"VA"`;
    - the POST reply is overwritten by a GET, so only the GET reply is read;
    - a reply whose status is not `OK` is skipped;
    - the method has no `return`, so its caller receives `None` (`CalculateDrivingTimes`).
- `Geocoder` (`geocode_address`): a method with a loop that stops at the first state-level component.
- `ColorRamp` (`get_color_for_time` and its use in `create_map`): the red and green levels, their
  two-digit lowercase hex encoding with its parser, monotonicity and the end points.
- `Exporter` (`export_results`): the projection that drops `geometry`, and the empty case.
- `Form` (`App.calculate`): the order of the three input checks.

Behaviour of the code worth knowing, modelled as written:

- An `OK` geocoding reply with an empty `results` list raises `IndexError` at `results[0]`
  (drivingTimeRadiusCalculator.py:61).
- Every matrix row of a reply adds rows (:130-143), so the results can outnumber the sampled areas.
  `DistanceMatrix.DrivingRowsBound` proves the bound when each reply has at most one matrix row.
- With state lines respected and no state found for the origin, pandas compares the column with
  `None` and gets all-false, so the filter keeps nothing (`ResultFilter.NoOriginStateKeepsNothing`).

## Model

| member | source | states |
|---|---|---|
| `ResultFilter.Where` | drivingTimeRadiusCalculator.py:147-150 | Boolean-mask indexing keeps exactly the rows that pass the mask. Each keeps its multiplicity, and the result is an order-preserving subsequence of the input. |
| `ResultFilter.FilterResults` | drivingTimeRadiusCalculator.py:145-152 | Every kept row has minutes ≤ max_time and, with the flag set, the origin's state. Every input row meeting both conditions is kept as often as it occurs, and no other row is kept. The result is an order-preserving subsequence of the input. |
| `ResultFilter.FilterIdempotent` | drivingTimeRadiusCalculator.py:147-150 | Filtering the filter's output again returns it unchanged. |
| `ResultFilter.StateIgnoredWithoutFlag` | drivingTimeRadiusCalculator.py:149-150 | Without respect_state_lines the origin state plays no role: the result is the same for any origin state. Every row within the time limit is kept. |
| `ResultFilter.NoOriginStateKeepsNothing` | drivingTimeRadiusCalculator.py:149-150 | With the flag set and origin_state None, no row survives. |
| `ResultFilter.FilterExample` | drivingTimeRadiusCalculator.py:145-152 | Rows (22201, VA, 15) and (20001, DC, 50), with limit 30, the flag set and origin VA, leave exactly the first row. |
| `Sampling.DefaultSampleSize` | drivingTimeRadiusCalculator.py:78 | The default sample has min(100, n) areas: at most 100, at most n, and equal to one of them. |
| `Sampling.ChooseSample` | drivingTimeRadiusCalculator.py:75-78 | A given sample is used as is. Otherwise the sample has min(100, n) areas, all taken from the loaded data. |
| `Sampling.BatchCount` | drivingTimeRadiusCalculator.py:87 | The number of loop steps over range(0, n, 25) is ⌈n/25⌉: c·25 ≥ n and (c−1)·25 < n. |
| `Sampling.Batches` | drivingTimeRadiusCalculator.py:81-88 | There are ⌈n/25⌉ batches. Each is nonempty with at most 25 areas, all but the last have exactly 25, and together they are exactly the sample. |
| `Sampling.BatchIsSlice` | drivingTimeRadiusCalculator.py:87-88 | Batch k is the slice iloc[25k : min(25k+25, n)], and 25k < n. |
| `Sampling.EveryPositionInItsBatch` | drivingTimeRadiusCalculator.py:87-88 | Sample position i is entry i mod 25 of batch ⌊i/25⌋, so no position is missed. |
| `Sampling.SixtyAreasThreeBatches` | drivingTimeRadiusCalculator.py:81-88 | Sixty areas make three batches of 25, 25 and 10. |
| `DistanceMatrix.AppendRouteRows` | drivingTimeRadiusCalculator.py:132-143 | The inner loop appends exactly the rows the specification function RoutesRows gives for the routes, or raises the same exception (IndexError for a timed route past the batch, KeyError for a duration without seconds). |
| `DistanceMatrix.AppendBatchRows` | drivingTimeRadiusCalculator.py:119-143 | The loop body appends to `results` exactly the rows the specification function BatchRows gives for the GET reply, or raises the same exception. |
| `DistanceMatrix.CollectDrivingTimes` | drivingTimeRadiusCalculator.py:80-143 | The loop over range(0, n, 25) leaves `results` equal to DrivingRows of the sample and the replies, or raises the same exception. |
| `DistanceMatrix.CalculateDrivingTimes` | drivingTimeRadiusCalculator.py:73-143 | The call raises exactly when collecting raises, and raises the same exception. Otherwise it returns None, never the collected rows. |
| `DistanceMatrix.TimedPositions` | drivingTimeRadiusCalculator.py:132-133 | Lists, in increasing order, exactly the positions of routes that carry a duration. |
| `DistanceMatrix.RoutesRowsContent` | drivingTimeRadiusCalculator.py:132-143 | A matrix row yields one row per timed route, in order. The t-th row comes from timed route j: zip code batch[j].ZCTA5, state "VA", minutes = seconds/60, geometry batch[j]'s. |
| `DistanceMatrix.RouteBeyondBatchRaises` | drivingTimeRadiusCalculator.py:132-134 | A timed route whose position is past the end of the batch raises IndexError. |
| `DistanceMatrix.RoutesRowsBound` | drivingTimeRadiusCalculator.py:130-143 | A matrix row yields at most one row per route and at most one per destination of the batch. |
| `DistanceMatrix.BatchRowsBound` | drivingTimeRadiusCalculator.py:124-143 | A reply with at most one matrix row yields at most as many rows as the batch has areas. |
| `DistanceMatrix.DrivingRowsBound` | drivingTimeRadiusCalculator.py:80-143 | When every reply has at most one matrix row, a run yields no more rows than areas were sampled. |
| `DistanceMatrix.RunBatchesStateLabel` | drivingTimeRadiusCalculator.py:135 | Every collected row carries the state "VA". |
| `DistanceMatrix.SkippedBatchAddsNothing` | drivingTimeRadiusCalculator.py:124-126 | A batch whose reply status is not OK contributes what an OK reply without rows does: nothing. |
| `DistanceMatrix.PostRepliesIgnored` | drivingTimeRadiusCalculator.py:119-122 | Only the GET replies decide the result: runs with equal GET replies give equal results. |
| `Geocoder.GeocodeAddress` | drivingTimeRadiusCalculator.py:57-71 | A missing status raises KeyError, and a status other than OK gives (None, None). OK with no results raises IndexError. Otherwise it returns results[0]'s location and the short_name of the first component typed administrative_area_level_1, or None if there is none. |
| `ColorRamp.Hex2` | drivingTimeRadiusCalculator.py:199 | `{v:02x}` for 0 ≤ v ≤ 255 gives two lowercase hex digits that parse back to v. |
| `ColorRamp.RedLevel` | drivingTimeRadiusCalculator.py:194-195 | r = min(255, int(255·time/max_time)) lies in [0, 255]. |
| `ColorRamp.GreenLevel` | drivingTimeRadiusCalculator.py:194-196 | g = min(255, int(255·(1 − time/max_time))) lies in [0, 255]. |
| `ColorRamp.ColorForTime` | drivingTimeRadiusCalculator.py:192-199 | With plain float arguments, a max_time of 0 raises ZeroDivisionError. Otherwise the colour is '#' and six lowercase hex digits, whose pairs parse back to the red level, the green level and blue 00. |
| `ColorRamp.RedRisesGreenFalls` | drivingTimeRadiusCalculator.py:194-196 | As time grows, red never falls and green never rises. |
| `ColorRamp.RampEnds` | drivingTimeRadiusCalculator.py:192-199 | Time 0 gives #00ff00 and time = max_time gives #ff0000. |
| `ColorRamp.MaxMinutes` | drivingTimeRadiusCalculator.py:171 | The largest driving time of the rows: no row exceeds it and some row has it. |
| `ColorRamp.RegionColors` | drivingTimeRadiusCalculator.py:167-175 | No rows give no regions. Otherwise it raises ValueError exactly when the largest time is 0 (the numpy division gives NaN and `int` rejects it), and else gives one well-formed colour per row, in order: region k's pairs parse back to the red and green levels of its time over the map's largest time, and blue is 00. |
| `ColorRamp.RegionColorsOrdered` | drivingTimeRadiusCalculator.py:171-175 | On one map, a region with a longer time is at least as red and at most as green as one with a shorter time. |
| `Exporter.ExportResults` | drivingTimeRadiusCalculator.py:201-209 | An empty input gives no file and None. Otherwise the filename is returned with the same number of rows in the same order, each keeping zip code, state and minutes. |
| `Exporter.ExportDefaultName` | drivingTimeRadiusCalculator.py:201 | Without a file name argument, nonempty rows are written as zip_codes_in_range.csv. |
| `Exporter.ExportLosesOnlyGeometry` | drivingTimeRadiusCalculator.py:204-206 | Putting the dropped geometry column back beside the exported table restores the input rows exactly. |
| `Form.ValidateInputs` | drivingTimeRadiusCalculator.py:321-331 | The calculation may start exactly when the API key and address are nonempty and data is loaded. Otherwise the message names the first failing check: API key, then address, then data. |

## Left out

- HTTP: the geocoding GET (drivingTimeRadiusCalculator.py:53-55) and the route-matrix POST and GET (:119-122). Their JSON replies are inputs; `response.json()` failing on a non-JSON body is not modelled.
- JSON keys other than `status`, `rows`, `elements`, `duration` and `seconds` are assumed present: `results[0].geometry.location`, `address_components`, `types`, `short_name`, and the `ZCTA5` column.
- `load_data` (:28-49): reading the GeoJSON file and the download message are file I/O. Loaded data is an `Option<seq<AreaRecord>>`.
- Centroids and the `"lat,lng"` string round trip through `float` (:90-110): floating-point geometry. Polygons are opaque `Shape` values that are only carried along.
- The console prints of a failed geocoding status (:58) and of a skipped batch's status (:125): console output. The model returns the same values without the message.
- The randomness of `zip_gdf.sample` (:78): the drawn positions are an input.
- ChooseSample (Sampling.ChooseSample): requires the drawn positions to be distinct, as pandas draws without replacement, but its contract states only that every sampled area comes from the data, not that no area is drawn twice.
- Folium map construction, the origin marker, tooltips and `m.save` (:154-190): a foreign library and file output. Only the colour of each region is modelled.
- The CSV write `to_csv` (:207): file output. The model returns the table that would be written.
- IEEE-754 floating point: times and ratios are exact reals. `int()` is modelled as truncation toward zero. At the boundaries, float rounding of `255 * ratio` may differ by one unit.
- `run_calculation` (:211-240): orchestration and I/O. It passes the `None` returned by `calculate_driving_times` to `filter_results`.
- The tkinter window, progress bar, status text, daemon threads and the `webbrowser` launch in `App` (:243-357): UI and concurrency. Only the input checks of `calculate` are modelled.

# Well clustering by spacing and cumulative volume — a Dafny model

`cluster2025X_d.py` is a Streamlit page. It groups oil wells into candidate clusters for
workovers. The model covers the part that computes those clusters.

For each zone (`Zone Name`), every well is given:
- `distancia_min`: the distance to its nearest other well in the same zone;
- `espaciamiento_acres`: the drainage area that distance implies, a circle with that diameter, in acres;
- `grupo_espaciamiento`: a spacing bucket, taken from a user-defined list of ranges;
- `grupo_volumen`: a cumulative-production (`Cum`) bucket, taken from a second list;
- `grupo_combined`: the key that joins the two labels.

The zone tables are collected in a map keyed by zone name.

The model also covers:
- how the sidebar builds the two range lists, one `append` per row;
- `validar_rangos`, which checks those lists.

Modules, in dependency order:

| file | module | what it holds |
|---|---|---|
| `options.dfy` | `Options` | `Option`, for a value that may be absent. |
| `bounds.dfy` | `Bounds` | Extended reals `NegInf \| Fin(v) \| PosInf`, with Python's float comparisons. Strictly increasing and non-decreasing sequences. |
| `area.dfy` | `Area` | `distancia_a_acres`. The same area computed from a squared distance. The +inf passthrough. |
| `ranges.dfy` | `RangeSets` | Range lists. `validar_rangos` as a loop. The sidebar's construction loop. The bins given to `pd.cut`. |
| `binning.dfy` | `Binning` | `pd.cut` with right-closed bins: the bucket index, the label lists, the single-range fallback. |
| `keys.dfy` | `ClusterKeys` | Label text, the `" & "` join, and how to read a key back. |
| `spacing.dfy` | `Spacing` | Wells and the nearest-neighbour squared distance, by brute force. |
| `zones.dfy` | `Zones` | One zone's classified rows. The zone loop that fills `dataframes_zonas`. The partition of the input. |

Modelling choices:

- **Numbers and infinities.**
  - Numbers are Dafny `real`. `-np.inf` and `np.inf` are `NegInf` and `PosInf`.
  - `Lt` and `Le` compare them as Python floats do.
- **pd.cut.** It is called with its default `right=True`, so bucket `k` is `(lo_k, lo_{k+1}]`. The bins are every range's `lo`, then +inf.
  - `Cut` counts the bins strictly below the value, as numpy's `searchsorted(side='left')` does. A value at or below the first bin gets no bucket (NaN).
  - The label text of a NaN bucket is `"nan"`, which is what `astype(str)` gives.
  - A value equal to an interior lower bound falls into the bucket below it (`BoundaryValueFallsBelow`).
  - So in `[(-inf,4),(4,8),(8,inf)]` the value 4 gets "menor que 4", not "entre 4 y 8".
- **Nearest neighbour.** `cKDTree.query(coords, k=2)[0][:, 1]` is specified by its meaning, the minimum squared distance to another well of the zone.
  - It is kept squared because Dafny's reals have no square root. `AreaFromSquaredDistance` is tied to `distancia_a_acres` by `SquaredDistanceAgrees`.
  - A well alone in its zone gets the +inf padding the library returns. Its area is then +inf, and `pd.cut` puts it into the last spacing bucket (`LoneWellTakesTopSpacingBucket`).
  - Neighbours 100 m apart give about 1.9407 acres (`HundredMetresExample`).
- **Label text.** The decimal text of a float is a parameter `fmt: real -> string`. Only the fixed words, the units and the `" & "` join are modelled.
  - Where label texts must tell buckets apart, `fmt` is assumed to behave like Python's `str` of a float on the numbers involved (`ClusterKeys.PlainOn`). No text has a space or reads "inf" or "-inf". Distinct finite lower bounds of the list give distinct texts. `ClusterKeys.DefaultBoundTextIsPlain` shows a formatter meeting this.

## Model

| member | source | states |
|---|---|---|
| Area.DistanceToAcres | cluster2025X_d.py:8-12 | The area is never negative, and distance 0 gives area 0. |
| Area.AreaFromSquaredDistance | cluster2025X_d.py:8-12 | The area computed from a squared distance is never negative, and is 0 at 0. |
| Area.SquaredDistanceAgrees | cluster2025X_d.py:8-12 | Computing from `d*d` gives exactly `distancia_a_acres(d)`. |
| Area.DistanceToAcresMonotone | cluster2025X_d.py:8-12 | For `0 <= d <= e`, the area at `d` is at most the area at `e`. |
| Area.DistanceToAcresScales | cluster2025X_d.py:9-11 | Scaling the distance by `k` scales the area by `k^2`. |
| Area.HundredMetresExample | cluster2025X_d.py:8-12 | 100 m gives between 1.9407 and 1.9408 acres. |
| Area.AcresOf | cluster2025X_d.py:86 | A finite squared distance gives the finite, non-negative area of `distancia_a_acres`. The +inf padding gives +inf. The result is finite exactly when the distance is. |
| RangeSets.ValidateRanges | cluster2025X_d.py:15-19 | Returns true exactly when every adjacent pair has `rangos[i][1] <= rangos[i+1][0]`. When it returns false, some pair has its end above the next start. |
| RangeSets.ShortListsAreValid | cluster2025X_d.py:15-16 | Empty and one-element lists are valid. |
| RangeSets.Bins | cluster2025X_d.py:92 | The bins are the ranges' lower bounds, in order, followed by +inf. Line 108 builds the volume bins the same way. |
| RangeSets.BuildRanges | cluster2025X_d.py:36-48 | The loop's list equals `RangeList(rows)`: row 0 gives `(-inf, fin)`, the last row `(inicio, inf)`, the others `(inicio, fin)`. Lines 57-69 build the volume list with the same loop. |
| RangeSets.RangeListShape | cluster2025X_d.py:37-48 | A built list opens at -inf. With two or more rows it closes at +inf. Every other bound is the number typed. |
| RangeSets.RangeListValidIff | cluster2025X_d.py:36-48 | A built list passes `validar_rangos` exactly when no row starts below the previous row's end. |
| RangeSets.SidebarRangesAreValid | cluster2025X_d.py:40-47 | Lists within the widget limits always pass validation, and their bins never decrease. |
| RangeSets.EqualBinsPassValidation | cluster2025X_d.py:15-19 | A list within the widget limits passes validation, yet has a repeated bin that `pd.cut` rejects. |
| RangeSets.StrictValidationEnablesCut | cluster2025X_d.py:15-19 | Validation that also demands `lo < hi` for every range guarantees strictly increasing bins. |
| Binning.CountBelow | cluster2025X_d.py:90-92 | The `searchsorted` step: the count of bins below `v` is at most `len(bins)`. It is all of them when every bin is below `v`, and 0 when none is. |
| Binning.CountBelowIsPrefix | cluster2025X_d.py:90-92 | On increasing bins, the bins below a value form a prefix whose length is the count. |
| Binning.Cut | cluster2025X_d.py:90-92 | A bucket index, when there is one, names a bin pair `(bins[k], bins[k+1])`. |
| Binning.CutIsBucketContainingValue | cluster2025X_d.py:90-92 | `v` gets bucket `k` if and only if `bins[k] < v <= bins[k+1]`. |
| Binning.CutIsTotal | cluster2025X_d.py:90-92 | Bins running from -inf to +inf give every value except -inf a bucket. |
| Binning.CountBelowMonotone | cluster2025X_d.py:90-92 | A larger value lies above at least as many bins. |
| Binning.CutMonotone | cluster2025X_d.py:90-92 | `v <= w` implies bucket(v) <= bucket(w). |
| Binning.BucketIgnoresUpperBounds | cluster2025X_d.py:92-99 | Two lists with the same lower bounds put every value in the same bucket. The upper bounds reach only the label text. |
| Binning.Labels | cluster2025X_d.py:93-99 | n labels: `LessThan(rangos[0][1])`, then `Between(lo_k, hi_k)` for each interior k, then `GreaterThan(lo_{n-1})`. |
| Binning.LabelsDistinct | cluster2025X_d.py:93-99 | On increasing bins, no two buckets share a label. |
| Binning.Classify | cluster2025X_d.py:89-102 | One range gives the constant `LessThan(rangos[0][1])`. Otherwise the label is NaN exactly when `pd.cut` gives no bucket, and is otherwise the label of that bucket. When a bucket `k` is picked, `lo_k < v <= lo_{k+1}` (with `lo_n` = +inf). It always carries the list's unit. Lines 105-118 apply the same to the volume. |
| Binning.ClassifyPicksContainingBucket | cluster2025X_d.py:89-100 | A value with `lo_k < v <= lo_{k+1}` gets label k and no other label. |
| Binning.ClassifyNeverMissing | cluster2025X_d.py:89-102 | For a list opening at -inf, no value other than -inf is NaN. |
| Binning.BoundaryValueFallsBelow | cluster2025X_d.py:90-92 | A value equal to `lo_k` (k > 0) gets label k-1, because the buckets are right-closed. |
| Binning.GapValueTakesLabelBelow | cluster2025X_d.py:90-96 | A value between `hi_k` and `lo_{k+1}` gets label k, although that label's text excludes it. |
| Binning.DefaultSpacingList | cluster2025X_d.py:34-48 | In exact arithmetic, the widgets' five default spacing rows build `[(-inf,4.0),(4.1,6.1),(6.2,8.2),(8.3,10.3),(10.4,inf)]`, whose bins strictly increase. |
| Binning.DefaultSpacingRangesExample | cluster2025X_d.py:89-100 | In exact arithmetic, that default list puts 5.0 acres in `Between(4.1, 6.1)` ("entre 4.1 acres y 6.1 acres"), the gap value 4.05 in `LessThan(4.0)` ("menor que 4.0 acres") and 12.0 in `GreaterThan(10.4)` ("mayor que 10.4 acres"). |
| ClusterKeys.BoundText | cluster2025X_d.py:94-98 | `str` of a bound inside an f-string: a finite bound is the number's text. When no number renders as "inf" or "-inf", those two texts appear exactly for +inf and -inf. |
| ClusterKeys.LabelText | cluster2025X_d.py:93-122 | A label's text is "nan" exactly for NaN, which is what `astype(str)` gives at line 122. Otherwise it starts with "menor que ", "entre " or "mayor que " according to its shape (lines 94-98, 110-114), and ends with a space and its unit. |
| ClusterKeys.LabelTextDistinguishesShapes | cluster2025X_d.py:93-99 | Labels of different shapes (less-than, between, greater-than, NaN) never have the same text. |
| ClusterKeys.BoundTextInjective | cluster2025X_d.py:94-98 | Suppose no number text has a space or reads "inf" or "-inf", and the two bounds' numbers, when both finite and distinct, print differently. Then distinct bounds print differently, and no bound's text holds a space. |
| ClusterKeys.BetweenTextTail | cluster2025X_d.py:96 | After "entre ", a between label's text holds its lower bound's text followed by a space. |
| ClusterKeys.BetweenTextsDiffer | cluster2025X_d.py:96 | Between labels with different lower bounds have different texts, when number texts are plain and the two lower bounds' numbers print differently. |
| ClusterKeys.LabelTextsDistinct | cluster2025X_d.py:93-99 | On increasing bins, two different buckets of one list never get the same label text, when `fmt` meets `PlainOn` for that list. So grouping wells by label text groups them by bucket. |
| ClusterKeys.DefaultBoundTextIsPlain | cluster2025X_d.py:94-98 | A formatter that writes 4.1, 6.2, 8.3 and 10.4 as Python does meets `PlainOn` on the default spacing list, so the assumption can be met. |
| ClusterKeys.DefaultListTextsDistinct | cluster2025X_d.py:93-99 | With that formatter, the default spacing list's five label texts are pairwise distinct. |
| ClusterKeys.CombinedKey | cluster2025X_d.py:121-123 | The key is the spacing text, then `" & "`, then the volume text (as slices). |
| ClusterKeys.SplitKey | cluster2025X_d.py:121-123 | A split, when it succeeds, yields two texts whose join is the key, the first without `'&'`. |
| ClusterKeys.SplitKeyInvertsCombinedKey | cluster2025X_d.py:121-123 | Splitting a key built from a spacing text without `'&'` gives back both texts. |
| ClusterKeys.LabelTextHasNoAmpersand | cluster2025X_d.py:93-99 | Label text has no `'&'` when neither the number text nor the unit has one. |
| ClusterKeys.CombinedKeyDeterminesLabels | cluster2025X_d.py:121-123 | Two wells share a key if and only if they share both label texts. |
| Spacing.NearestFrom | cluster2025X_d.py:82-85 | It is +inf exactly when there is no other well. It is never above the distance to any other well, and when finite it equals the distance to one of them. |
| Spacing.NearestSq | cluster2025X_d.py:82-85 | It is +inf exactly when the zone has one well. When finite it is non-negative. It is never -inf. |
| Spacing.NearestIsMinimumOverOthers | cluster2025X_d.py:82-85 | With at least two wells, the squared spacing is at most the squared distance to every other well and equals it for some other well. |
| Spacing.CoincidentWellsHaveZeroSpacing | cluster2025X_d.py:82-85 | Two wells at the same coordinates both have spacing 0. |
| Spacing.CollinearWellsExample | cluster2025X_d.py:82-85 | Wells at x = 0, 10, 30 have squared spacings 100, 100 and 400. |
| Zones.ClassifyWell | cluster2025X_d.py:82-123 | One row keeps its well unchanged. The area is finite exactly when the zone has at least two wells, and it is then the area `distancia_a_acres` gives for the distance whose square is `nearestSq`. The area is +inf exactly when the distance is the +inf padding. Each label is NaN or carries its unit ("acres", "MSTB"). |
| Zones.ClassifyZone | cluster2025X_d.py:80-123 | One output row per well of the zone, in order, each keeping the well's original fields. |
| Zones.ZoneRowMeaning | cluster2025X_d.py:82-123 | In a zone of at least two wells, one row holds all of the following: the nearest squared distance (minimal and attained), the area of that distance, the spacing and volume labels (never NaN for lists opening at -inf), and a key that splits back into the two label texts. |
| Zones.RowLabelsAreBuckets | cluster2025X_d.py:89-118 | For lists opening at -inf, neither label of a row is NaN. |
| Zones.RowKeyReadsBack | cluster2025X_d.py:121-123 | A row's `grupo_combined` splits back into its two label texts. |
| Zones.LoneWellTakesTopSpacingBucket | cluster2025X_d.py:84-102 | A well alone in its zone has spacing and area +inf. Its spacing label is `GreaterThan(lo_{n-1})`, or the constant label when there is one range. Its volume label is the one its `Cum` gets from the volume list. |
| Zones.SingleRangeGivesConstantLabels | cluster2025X_d.py:101-118 | With one range per list, every row gets the two constant `menor que` labels, whatever its values. |
| Zones.Filter | cluster2025X_d.py:80 | The zone's table has at most as many rows as the input. A one-row table keeps its row exactly when the row is in the zone. |
| Zones.FilterCounts | cluster2025X_d.py:80 | The zone's rows are exactly the input rows of that zone, each as often as in the input, and no row of another zone. |
| Zones.FilterKeepsOrder | cluster2025X_d.py:80 | Filtering a table split in two gives the first part's rows of the zone followed by the second part's, so table order is kept. |
| Zones.UniqueZones | cluster2025X_d.py:76 | Each zone appears once, and the list holds exactly the zones present in the input. |
| Zones.TableWellsCount | cluster2025X_d.py:79-125 | Across tables built by filtering, a row is counted as often as in the input if its zone is listed, and never otherwise. |
| Zones.ZoneTableHoldsOnlyItsZone | cluster2025X_d.py:80-125 | Every row of a zone's table has that zone. |
| Zones.TablesGatherInput | cluster2025X_d.py:79-125 | Across all zone tables, the rows are exactly the input rows, with their multiplicities. |
| Zones.ZoneMapSeparatesZones | cluster2025X_d.py:79-125 | Every row in the map sits under its own zone's key. |
| Zones.BuildZoneTables | cluster2025X_d.py:79-125 | The loop's map has exactly the listed zones as keys, each holding that zone's classified rows. |
| Zones.ClassifyByZone | cluster2025X_d.py:76-125 | The map's keys are the zones of the input. Each value is that zone's classified table. Every row sits under its own zone. Together the tables hold every input row exactly once. |

## Left out

- Streamlit UI is left out: the image, title, uploader, widgets, error banners, selectboxes, chart and table display. The widgets' `min_value` limits appear only as the predicate `RangeSets.SidebarAdmits`. The spacing defaults appear only in `Binning.DefaultSpacingList` and `Binning.DefaultSpacingRangesExample`, summed exactly.
- CSV reading and export are left out; they are file I/O. The input table is a sequence of `Spacing.Well` rows. A well's `id` stands for the columns that pass through untouched.
- A failed `validar_rangos` only shows a message, and classification goes on. The model states that bucketing needs `RangeSets.Cuttable`, strictly increasing bins, instead.
- `pd.cut` raises on non-increasing bins. That error path is the precondition `Cuttable` on `Binning.Classify` and the members that use it. The exception itself is not modelled.
- `cKDTree`'s internals are left out; it is a foreign library. Only the result is specified, by its brute-force meaning.
- Spacing.NearestSq: holds the squared distance, not `distancia_min` itself, because Dafny's reals have no square root. The area is computed from it with the same formula (`Area.SquaredDistanceAgrees`).
- Float rounding is not modelled: arithmetic is exact over `real`, and `PI` is the shortest decimal that reads back as `np.pi`'s double. So the widget defaults `rangos_esp[-1][1] + 0.1` are exact sums here (4.0 + 0.1 = 4.1), which they need not be in floats.
- NaN in the input (`X`, `Y`, `Cum`) is not modelled.
- The decimal text of numbers in labels is not modelled; it is the parameter `fmt`.
- Zones.UniqueZones: its contract does not state the order of first appearance, which its definition keeps. Only the zone selectbox shows that order.
- Zones.ClassifyZone: models `df_zona` as new records (well plus added columns), not as a pandas frame changed in place. The `.copy()` means no other frame is affected.

## Findings

| source | as written | input that shows it | evidently intended | confidence | as-written member | corrected member |
|---|---|---|---|---|---|---|
| cluster2025X_d.py:15-19 | Only adjacent pairs are checked, with `rangos[i][1] <= rangos[i+1][0]`. The widgets also allow an interior range with `inicio == fin`. So two lower bounds can be equal. | Spacing rows with ends/starts 4.0, 4.0, 4.0, giving ranges `[(-inf,4),(4,4),(4,inf)]` and bins `[-inf,4,4,inf]`. They pass validation, but `pd.cut` raises on the repeated bin. | Every list that passes validation can be bucketed. That needs each range to start strictly below its end. | not executed | RangeSets.EqualBinsPassValidation | RangeSets.StrictValidationEnablesCut |

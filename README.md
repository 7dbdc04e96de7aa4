# DemeterEye field model

A Dafny model of the core of DemeterEye, an iOS client that shows crop-health
analytics for agricultural fields. Three parts of the app are modelled.

- **Field geometry.** A field's boundary is a GeoJSON polygon. `contains(coordinate:)`
  applies the even-odd ray-casting rule to the outer ring. `approximateAreaHectares`
  applies the Shoelace formula and multiplies by 12100 hectares per square degree.
  Both are loops in the app and are loops here, each proved against a recursive
  specification (`Geometry.OddCrossings` / `Geometry.Crossings`, `Geometry.ShoelacePartial`).
- **The NDVI timeline of the history chart.** `HistoryChartViewModel` parses the date of
  every flat history record, drops the records whose date does not parse and sorts the
  remaining points by date. It then sizes the chart, decides whether to draw individual
  points and picks the axis stride from the point count. The view model is a class whose
  `chartData` is set by its constructor.
- **The dictionary decoders.** Every record type has an `init(from: [String: Any])`. It
  throws `DecodingError.dataCorrupted` when a required key is missing or has the wrong
  type, turns a missing or mistyped optional key into nil, and rethrows the failure of a
  nested decoder. Here a dictionary is a `map<string, Value>` over tagged values
  (module `Dynamic`). A decoder is a function returning `Result<T>`. Swift's `try` is
  Dafny's `:-`.

One module per Swift file: `Deviation`, `YieldData`, `FieldNorm`, `NDVIStats`, `Weather`,
`ForecastData`, `Phenology`, `CurrentData`, `FieldHistory` (the flat observation record of
FieldHistory.swift), `Field` (Field.swift: the field, its metadata, the per-year history
record that Field.swift also names `FieldHistory`, here `YearlyHistory`) and `HistoryChart`.
`Geometry` holds the positions, polygons and ring algorithms that Field.swift uses; the
GeoJSON type definitions are not part of this model, so they are kept minimal: a polygon
is a sequence of rings, and its outer ring is the first ring. `Wrappers` holds `Option`
and `Result`. `FieldExamples` holds concrete fields, including the first fixture ring of
MockData.swift.

Each of the nine standalone decoders (`Deviation` to `FieldHistory`) comes with two
partners. A `ToDict` encoder with the round-trip lemma `DecodeToDict` shows that every
record, whatever its values, is read back unchanged, so the decoder makes no range check.
`DecodeIgnoresOtherKeys` shows that keys the decoder does not read cannot change its
result. The decoders of Field.swift have the same partners where they apply:
- `Field.DecodeMeta` has the encoder `Field.MetaToDict`, the round trip
  `Field.DecodeMetaToDict` and `Field.DecodeMetaIgnoresOtherKeys`.
- The per-year decoder has the round trip `Field.DecodeYearlyHistoryToDict` and
  `Field.DecodeYearlyHistoryIgnoresOtherKeys`.
- `Field.Decode` has no encoder, because its geometry is decoded by a parameter. Its
  values are stated by its ensures and by `Field.DecodedValues`.
  `Field.DecodeIgnoresOtherKeys` shows that unread keys cannot change the result, and
  `Field.HistoryKeyIgnored` applies this to the `history` key, which is never decoded.

Two rules of the code are worth stating plainly:
- For a polygon, the area is always the Shoelace area of its outer ring, and
  `meta.areaHa` is ignored. The override is used only when the geometry is not a polygon.
- The axis ticks monthly only above 50 points. At exactly 50 points it still ticks weekly
  and every point is drawn.

## Model

| member | source | states |
|---|---|---|
| Deviation.Decode | DemeterEye/Model/Deviation.swift:27-39 | succeeds iff `peakNdvi` is a Double, otherwise fails with the Deviation message; the four day offsets are copied when they are Ints and are nil otherwise, and never cause a failure |
| Deviation.DecodeToDict | DemeterEye/Model/Deviation.swift:27-39 | every Deviation, including any nil offset pattern, is recovered from its dictionary |
| Deviation.DecodeIgnoresOtherKeys | DemeterEye/Model/Deviation.swift:28-37 | a key other than the five read does not affect the result |
| YieldData.Decode | DemeterEye/Model/YieldData.swift:27-41 | succeeds iff `year` is an Int, `valueTph` a Double and `unit` a String; required fields copied; `source` and `notes` copied when Strings, nil otherwise |
| YieldData.DecodeToDict | DemeterEye/Model/YieldData.swift:27-41 | every yield record is recovered from its dictionary |
| YieldData.DecodeIgnoresOtherKeys | DemeterEye/Model/YieldData.swift:28-40 | keys other than the five read do not affect the result |
| FieldNorm.Decode | DemeterEye/Model/FieldNorm.swift:27-43 | succeeds iff the four day keys are Ints and `peakNdviAvg` a Double; each field equals its dictionary value |
| FieldNorm.DecodeToDict | DemeterEye/Model/FieldNorm.swift:27-43 | every norm is recovered, so `sosAvgDOY > eosAvgDOY` or a zero peak is accepted |
| FieldNorm.DecodeIgnoresOtherKeys | DemeterEye/Model/FieldNorm.swift:28-42 | keys other than the five read do not affect the result |
| NDVIStats.Decode | DemeterEye/Model/NDVIStats.swift:27-43 | succeeds iff `mean`, `max`, `auc` are Doubles, `samples` an Int and `source` a String; fields copied |
| NDVIStats.DecodeToDict | DemeterEye/Model/NDVIStats.swift:27-43 | every statistics record is recovered, so `mean > max` or negative `samples` is accepted |
| NDVIStats.DecodeIgnoresOtherKeys | DemeterEye/Model/NDVIStats.swift:28-42 | keys other than the five read do not affect the result |
| Weather.Decode | DemeterEye/Model/Weather.swift:29-47 | succeeds iff the four temperature, wind and precipitation keys are Doubles and `sunHours`, `gdd` are Ints; fields copied |
| Weather.DecodeToDict | DemeterEye/Model/Weather.swift:29-47 | every weather record is recovered, so `tminAvgC > tmaxAvgC` is accepted |
| Weather.DecodeIgnoresOtherKeys | DemeterEye/Model/Weather.swift:30-46 | keys other than the six read do not affect the result |
| ForecastData.Decode | DemeterEye/Model/ForecastData.swift:31-51 | succeeds iff all seven keys have their types; fields copied |
| ForecastData.DecodeToDict | DemeterEye/Model/ForecastData.swift:31-51 | every forecast is recovered, so any confidence or peak NDVI is accepted |
| ForecastData.DecodeIgnoresOtherKeys | DemeterEye/Model/ForecastData.swift:32-50 | keys other than the seven read do not affect the result |
| CurrentData.Decode | DemeterEye/Model/CurrentData.swift:29-44 | fails with the CurrentData message when `sos`, `peakNdvi` or the `deviation` dictionary is missing or mistyped; otherwise rethrows the nested Deviation failure; succeeds iff both hold; `sos`, `peakNdvi` copied, `deviation` is the nested decode, `peakDate`/`eos`/`los` copied or nil |
| CurrentData.DecodeToDict | DemeterEye/Model/CurrentData.swift:29-44 | every current-season record, nested deviation included, is recovered |
| CurrentData.DecodeIgnoresOtherKeys | DemeterEye/Model/CurrentData.swift:30-43 | keys other than the six read do not affect the result |
| CurrentData.NestedDeviationFailurePropagates | DemeterEye/Model/CurrentData.swift:43 | a complete outer dictionary whose nested deviation lacks `peakNdvi` fails with the Deviation message |
| Phenology.Decode | DemeterEye/Model/Phenology.swift:29-47 | fails with the Phenology message unless all six keys have their types; otherwise rethrows the nested Deviation failure; on success all fields copied and `deviation` is the nested decode |
| Phenology.DecodeToDict | DemeterEye/Model/Phenology.swift:29-47 | every phenology record is recovered |
| Phenology.DecodeIgnoresOtherKeys | DemeterEye/Model/Phenology.swift:30-46 | keys other than the six read do not affect the result |
| Phenology.StricterThanCurrentData | DemeterEye/Model/Phenology.swift:30-46 | every dictionary Phenology accepts, CurrentData accepts with the same values |
| Phenology.InSeasonRecordRejected | DemeterEye/Model/Phenology.swift:31-33 | a dictionary without `peakDate` is accepted by CurrentData and rejected by Phenology |
| FieldHistory.RawValue | DemeterEye/Model/FieldHistory.swift:21-29 | every coding key's raw value is a snake_case name |
| FieldHistory.RawValueInjective | DemeterEye/Model/FieldHistory.swift:21-29 | distinct coding keys have distinct raw values |
| FieldHistory.Decode | DemeterEye/Model/FieldHistory.swift:45-69 | succeeds iff all nine keys have their types, otherwise fails with the FieldHistory message; every field equals its dictionary value |
| FieldHistory.DecodeToDict | DemeterEye/Model/FieldHistory.swift:21-29 | a record encoded under the raw values of `CodingKeys` decodes back unchanged, so the decoder reads exactly the snake_case coding keys and accepts any NDVI |
| FieldHistory.DecodeIgnoresOtherKeys | DemeterEye/Model/FieldHistory.swift:45-54 | a key that is no coding key's raw value does not affect the result |
| Field.DecodeMeta | DemeterEye/Model/Field.swift:168-172 | never fails; each key is copied when well typed and nil otherwise |
| Field.DecodeMetaToDict | DemeterEye/Model/Field.swift:168-172 | every metadata record, any nil pattern included, is recovered from its dictionary |
| Field.DecodeMetaIgnoresOtherKeys | DemeterEye/Model/Field.swift:169-171 | keys other than the three read do not affect the result |
| Field.DecodeYearlyHistory | DemeterEye/Model/Field.swift:224-253 | fails with the year message when `year` is not an Int; otherwise rethrows the first failing nested decoder's error, in the order phenology, NDVI statistics, weather; succeeds iff every present nested phenology, NDVI statistics and weather dictionary decodes; each nested field is its decoder's result or nil when absent |
| Field.DecodeNested | DemeterEye/Model/Field.swift:82-97 | an absent or non-dictionary key gives nil; a present one gives the nested decoder's record or its error |
| Field.DecodeYearlyHistoryToDict | DemeterEye/Model/Field.swift:224-253 | every per-year record, nested records included, is recovered |
| Field.DecodeYearlyHistoryIgnoresOtherKeys | DemeterEye/Model/Field.swift:224-253 | keys other than the four read do not affect the result |
| Field.DecodeYields | DemeterEye/Model/Field.swift:70 | succeeds iff every element decodes; the result is element-wise the yield decode; a failure is the YieldData error |
| Field.DecodeOptionalYields | DemeterEye/Model/Field.swift:69-73 | no array of dictionaries gives nil; otherwise every element must decode and the list is their decodes in order |
| Field.Decode | DemeterEye/Model/Field.swift:45-99 | fails with the Field message when the identity, `ownerId`, `name`, `createdAt`, `geometry` or `meta` is missing; then rethrows a geometry failure; then, in this order, fails with the YieldData message when a yields element does not decode, and rethrows the error of a failing norm, current or forecast decoder; succeeds iff the geometry, every present yields element, norm, current and forecast decode |
| Field.DecodeIgnoresOtherKeys | DemeterEye/Model/Field.swift:45-99 | keys other than the eleven read do not affect the result |
| Field.HistoryKeyIgnored | DemeterEye/Model/Field.swift:76-80 | whatever the dictionary holds under `history`, the decoded field is the same |
| Field.DecodedValues | DemeterEye/Model/Field.swift:46-99 | a decoded field takes `_id` before `id`, copies the required strings, holds the decoded geometry and metadata, has nil history, and holds each optional nested record or yields element exactly as its decoder reads it |
| Field.Field.PolygonCoordinates | DemeterEye/Model/Field.swift:122-125 | present exactly for a polygon, and then the outer ring |
| Field.Field.Contains | DemeterEye/Model/Field.swift:128-151 | returns the even-odd rule against the outer ring: true iff an odd number of edges (j trailing i, starting at the last vertex) cross; false for a non-polygon or a ring with fewer than three vertices; the interpolation is only evaluated on a straddling edge, whose end latitudes differ |
| Field.Field.AreaHectares | DemeterEye/Model/Field.swift:621-628 | for a polygon the Shoelace area of its outer ring, whatever the metadata override; never negative for a polygon, and zero when its outer ring has fewer than three vertices; a non-polygon gives the override or zero |
| Field.Field.ApproximateAreaHectares | DemeterEye/Model/Field.swift:621-643 | the loop's running sum is the Shoelace partial sum, and the result is the specified area |
| Field.Field.WithGeometry | DemeterEye/Model/Field.swift:604-618 | the new geometry, and every other field unchanged |
| Field.WithPolygon | DemeterEye/Model/Field.swift:525-555 | a single-ring polygon holding the given pairs as positions in the given order; other fields as given, yields never nil |
| Geometry.Crosses | DemeterEye/Model/Field.swift:143-144 | an edge the ray crosses has distinct end latitudes, so the interpolation never divides by zero, and the point lies west of at least one of its ends |
| Geometry.InterpolationBetween | DemeterEye/Model/Field.swift:144 | on a straddled edge the interpolated longitude lies no further east than the edge's eastern end |
| Geometry.OddCrossingsIsParity | DemeterEye/Model/Field.swift:134-150 | toggling a flag at each crossing leaves it set iff the crossing count is odd |
| Geometry.NoStraddleNoCrossing | DemeterEye/Model/Field.swift:143-144 | a latitude at or above every vertex, or below every vertex, has no crossing edge |
| Geometry.OutsideLatitudeRange | DemeterEye/Model/Field.swift:132-150 | such a point is inside no ring |
| Geometry.RingAreaHectares | DemeterEye/Model/Field.swift:627-642 | the area is never negative and is zero below three vertices |
| Geometry.ClosedQuadrilateral | DemeterEye/Model/Field.swift:631-635 | the Shoelace sum of a closed four-vertex ring is its four cross products, the wrap-around term included |
| Geometry.ChainSumReverse | DemeterEye/Model/Field.swift:631-635 | reversing a vertex chain negates its summed cross products |
| Geometry.SignedAreaReverse | DemeterEye/Model/Field.swift:631-635 | reversing a ring negates its signed Shoelace sum |
| Geometry.AreaReversalInvariant | DemeterEye/Model/Field.swift:627-642 | the area does not depend on the direction in which the ring is walked |
| Geometry.BoxArea | DemeterEye/Model/Field.swift:627-642 | the closed ring around a box of w by h degrees has w * h * 12100 hectares |
| FieldExamples.UnitSquareField | DemeterEye/Model/Field.swift:538-540 | the unit-square field built by `withPolygon` has the closed unit square as its outer ring |
| FieldExamples.BoxFieldArea | DemeterEye/Model/Field.swift:621-643 | a box field's area is the box's, whatever the metadata override |
| FieldExamples.UnitSquareArea | DemeterEye/Model/Field.swift:621-643 | the closed unit square gives 12100 hectares |
| FieldExamples.UnitSquareContainment | DemeterEye/Model/Field.swift:128-151 | the square's centre is inside, a point east of it is not |
| FieldExamples.NorthFieldAContainment | DemeterEye/MockData/MockData.swift:17-23 | a point in the middle of the first fixture ring is inside; a point west of the ring crosses two edges and is outside |
| FieldExamples.NonPolygonField | DemeterEye/Model/Field.swift:129 | a non-polygon contains nothing and its area is the override or zero |
| HistoryChart.CompactMapPoints | DemeterEye/Views/HistoryChartViewModel.swift:17-19 | one point per record whose date parses, in order: the points' records are exactly the parsable records, and each point carries its record's parsed date and NDVI |
| HistoryChart.InsertByDate | DemeterEye/Views/HistoryChartViewModel.swift:20 | inserting into a date-sorted sequence keeps it sorted and adds exactly the one point |
| HistoryChart.SortByDate | DemeterEye/Views/HistoryChartViewModel.swift:20 | the result is sorted by date and a permutation of the input |
| HistoryChart.OriginalsPermutation | DemeterEye/Views/HistoryChartViewModel.swift:20 | permuting the points permutes their records the same way |
| HistoryChart.ParsableMultiplicity | DemeterEye/Views/HistoryChartViewModel.swift:17-19 | a record is kept as often as it occurs when its date parses, and never otherwise |
| HistoryChart.ParsableLength | DemeterEye/Views/HistoryChartViewModel.swift:17-20 | no more records are kept than given, and all are kept iff every date parses |
| HistoryChart.TimelineFromHistory | DemeterEye/Views/HistoryChartViewModel.swift:15-21 | the chart data is sorted by date, every point well formed, its records the parsable records with their multiplicities (none lost, none duplicated), and its count at most the history's, equal iff every date parses |
| HistoryChart.Timeline | DemeterEye/Views/HistoryChartViewModel.swift:17-20 | the parse, drop and sort pipeline: the result is sorted by date, every point well formed, and its records are a permutation of the parsable records |
| HistoryChart.HistoryChartViewModel.constructor | DemeterEye/Views/HistoryChartViewModel.swift:15-21 | stores the history and parse function and sets the chart data to the history's timeline |
| HistoryChart.ChartWidth | DemeterEye/Views/HistoryChartViewModel.swift:28-41 | for n points: above 50 the width is one screen per ten points; otherwise the larger of the screen width and 50 per point; never narrower than a non-negative screen |
| HistoryChart.HistoryChartViewModel.CalculateChartWidth | DemeterEye/Views/HistoryChartViewModel.swift:28-41 | the same three width rules for the current chart data |
| HistoryChart.HistoryChartViewModel.ShouldShowPoints | DemeterEye/Views/HistoryChartViewModel.swift:44-46 | points are drawn exactly when the axis ticks weekly |
| HistoryChart.HistoryChartViewModel.AxisStride | DemeterEye/Views/HistoryChartViewModel.swift:49-51 | monthly exactly above 50 points, weekly exactly at 50 points or fewer |
| HistoryChart.FiftyPoints | DemeterEye/Views/HistoryChartViewModel.swift:28-51 | 50 points: drawn, weekly, width the larger of 2500 and the screen |
| HistoryChart.FiftyOnePoints | DemeterEye/Views/HistoryChartViewModel.swift:28-51 | 51 points: hidden, monthly, width 5.1 screens |

## Left out

- SwiftUI views (HistoryChartView.swift, FieldDetailView.swift): rendering, navigation and styling.
- Year selection, year summaries and deviation labels: the chart view refers to `availableYears`, `selectedYear` and `yearSummary`, but no shown code defines them.
- ISO 8601 date parsing (`ISO8601DateFormatter` with fractional seconds) is Foundation code. It is the parameter `parseDate: string -> Option<int>`, with dates as instants on an ordered integer scale.
- The geometry's JSON round trip through `JSONSerialization` and `JSONDecoder` is foreign code. `Field.Decode` takes it as the parameter `decodeGeometry`, which may fail.
- Field.Decode: the errors of the JSON step (a serialization error, or any `DecodingError` case of `JSONDecoder`) are all represented as `DataCorrupted` with a description, because `Result` has that one error case.
- `GeoJSONGeometry.allCoordinates`, `centerCoordinate` and `outerRingCoordinates` are not part of this model. The outer ring is taken to be the first ring, or empty when there is none.
- `withRectangle` uses `cos` and a meters-to-degrees conversion. Only the area of an axis-aligned box is modelled (`Geometry.BoxArea`).
- `cropType` and `areaText` are locale- and format-dependent string rendering.
- `Double` and `CGFloat` are `real`: no rounding, overflow, infinity or NaN.
- Swift casts are exact tag matches. NSNumber bridging between `Int` and `Double` is not modelled.
- The memberwise (parameter) initializers are the datatype constructors, which store their arguments unchanged. They carry no contract of their own.
- `@Observable` machinery and MockData.swift fixtures, apart from the first ring used in `FieldExamples`.
- `Field.history` holds the flat records: the fixtures and the chart view pass a field's history to the view model. `Field.Decode` always leaves it nil, as the code does.
- HistoryChart.SortByDate: the model's sort keeps records with equal dates in history order. No lemma relies on that order.
- Field.Decode: the values of a successful decode are stated separately in `Field.DecodedValues`.

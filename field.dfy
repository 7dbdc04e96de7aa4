/** DemeterEye/Model/Field.swift: a monitored field, its boundary geometry, and the
    dictionary decoders declared in that file that no other file declares. */
module Field {
  import opened Wrappers
  import opened Dynamic
  import opened Geometry
  import YieldData
  import FieldNorm
  import CurrentData
  import ForecastData
  import Phenology
  import NDVIStats
  import Weather
  import FieldHistory

  // ---------------------------------------------------------------------------
  // FieldMeta

  /** Free-form metadata: an area override in hectares, notes, the crop label.
      The memberwise initializer is the constructor. */
  datatype FieldMeta = FieldMeta(areaHa: Option<real>, notes: Option<string>, crop: Option<string>)

  /** `FieldMeta.init(from:)`: declared throwing, it never throws; a missing or
      mistyped key becomes nil. */
  function DecodeMeta(d: Dict): (r: Result<FieldMeta>)
    ensures r.Ok?
    ensures CopiedDouble(d, "areaHa", r.value.areaHa)
    ensures CopiedString(d, "notes", r.value.notes) && CopiedString(d, "crop", r.value.crop)
  {
    Ok(FieldMeta(DoubleAt(d, "areaHa"), StringAt(d, "notes"), StringAt(d, "crop")))
  }

  /** The keys the metadata decoder reads. */
  const MetaKeys: set<string> := {"areaHa", "notes", "crop"}

  /** The payload metadata is encoded to: a nil entry is left out. */
  function MetaToDict(m: FieldMeta): Dict {
    PutString(PutString(PutDouble(map[], "areaHa", m.areaHa), "notes", m.notes), "crop", m.crop)
  }

  /** Every metadata record, any nil pattern included, is recovered from its dictionary. */
  lemma DecodeMetaToDict(m: FieldMeta)
    ensures DecodeMeta(MetaToDict(m)) == Ok(m)
  {
  }

  /** Keys other than the three read do not affect the decoded metadata. */
  lemma DecodeMetaIgnoresOtherKeys(d: Dict, key: string, v: Value)
    requires key !in MetaKeys
    ensures DecodeMeta(d[key := v]) == DecodeMeta(d)
  {
  }

  // ---------------------------------------------------------------------------
  // The per-year history record declared in this file

  /** The per-year aggregate that Field.swift declares under the name
      `FieldHistory`; the flat per-observation record of the same name lives in
      module FieldHistory. */
  datatype YearlyHistory = YearlyHistory(
    year: int,
    phenology: Option<Phenology.Phenology>,
    ndviStats: Option<NDVIStats.NDVIStats>,
    weather: Option<Weather.Weather>)

  const YearMissing: string := "Missing required year field in FieldHistory dictionary"

  /** An optional nested record: absent (or not a dictionary) gives nil, present
      gives the nested decoder's record or rethrows its error. */
  function DecodeNested<T>(d: Dict, key: string, decode: Dict -> Result<T>): (r: Result<Option<T>>)
    ensures !HasDict(d, key) ==> r == Ok(None)
    ensures HasDict(d, key) ==> match decode(d[key].dictValue)
                                case Ok(v) => r == Ok(Some(v))
                                case Err(e) => r == Err(e)
  {
    if HasDict(d, key) then
      var v :- decode(d[key].dictValue);
      Ok(Some(v))
    else Ok(None)
  }

  /** The nested record a decoded optional field must hold. */
  predicate DecodedNested<T(==)>(d: Dict, key: string, decode: Dict -> Result<T>, field: Option<T>) {
    if HasDict(d, key) then field.Some? && decode(d[key].dictValue) == Ok(field.value) else field == None
  }

  /** Every nested dictionary that is present decodes. */
  predicate NestedDecodes<T>(d: Dict, key: string, decode: Dict -> Result<T>) {
    HasDict(d, key) ==> decode(d[key].dictValue).Ok?
  }

  /** `FieldHistory.init(from:)` of Field.swift: the year is required; phenology,
      NDVI statistics and weather are optional nested records whose failures are
      rethrown, in that order. */
  function DecodeYearlyHistory(d: Dict): (r: Result<YearlyHistory>)
    ensures !HasInt(d, "year") ==> r == Err(DataCorrupted(YearMissing))
    ensures HasInt(d, "year") && !NestedDecodes(d, "phenology", Phenology.Decode) ==>
              r == Err(Phenology.Decode(d["phenology"].dictValue).error)
    ensures && HasInt(d, "year") && NestedDecodes(d, "phenology", Phenology.Decode)
            && !NestedDecodes(d, "ndviStats", NDVIStats.Decode) ==>
              r == Err(NDVIStats.Decode(d["ndviStats"].dictValue).error)
    ensures && HasInt(d, "year") && NestedDecodes(d, "phenology", Phenology.Decode)
            && NestedDecodes(d, "ndviStats", NDVIStats.Decode)
            && !NestedDecodes(d, "weather", Weather.Decode) ==>
              r == Err(Weather.Decode(d["weather"].dictValue).error)
    ensures r.Ok? <==> && HasInt(d, "year")
                       && NestedDecodes(d, "phenology", Phenology.Decode)
                       && NestedDecodes(d, "ndviStats", NDVIStats.Decode)
                       && NestedDecodes(d, "weather", Weather.Decode)
    ensures r.Ok? ==> && r.value.year == d["year"].intValue
                      && DecodedNested(d, "phenology", Phenology.Decode, r.value.phenology)
                      && DecodedNested(d, "ndviStats", NDVIStats.Decode, r.value.ndviStats)
                      && DecodedNested(d, "weather", Weather.Decode, r.value.weather)
  {
    if !HasInt(d, "year") then Err(DataCorrupted(YearMissing))
    else
      var phenology :- DecodeNested(d, "phenology", Phenology.Decode);
      var ndviStats :- DecodeNested(d, "ndviStats", NDVIStats.Decode);
      var weather :- DecodeNested(d, "weather", Weather.Decode);
      Ok(YearlyHistory(d["year"].intValue, phenology, ndviStats, weather))
  }

  /** The keys the per-year decoder reads. */
  const YearlyKeys: set<string> := {"year", "phenology", "ndviStats", "weather"}

  /** Keys other than the four read do not affect the decoded per-year record. */
  lemma DecodeYearlyHistoryIgnoresOtherKeys(d: Dict, key: string, v: Value)
    requires key !in YearlyKeys
    ensures DecodeYearlyHistory(d[key := v]) == DecodeYearlyHistory(d)
  {
  }

  /** A dictionary extended with an optional nested record: unchanged when nil. */
  function PutNested<T>(d: Dict, key: string, field: Option<T>, encode: T -> Dict): Dict {
    match field
    case Some(v) => d[key := VDict(encode(v))]
    case None => d
  }

  function YearlyHistoryToDict(x: YearlyHistory): Dict {
    var d := map["year" := VInt(x.year)];
    PutNested(PutNested(PutNested(d, "phenology", x.phenology, Phenology.ToDict),
                        "ndviStats", x.ndviStats, NDVIStats.ToDict),
              "weather", x.weather, Weather.ToDict)
  }

  /** A nested record stored by `PutNested` is read back by `DecodeNested`,
      given that its own decoder recovers it. */
  lemma DecodeNestedAt<T>(d: Dict, key: string, field: Option<T>, encode: T -> Dict, decode: Dict -> Result<T>)
    requires StoredNested(d, key, field, encode)
    requires field.Some? ==> decode(encode(field.value)) == Ok(field.value)
    ensures DecodeNested(d, key, decode) == Ok(field)
  {
  }

  /** Where a nested record sits in a dictionary `PutNested` extended. */
  predicate StoredNested<T>(d: Dict, key: string, field: Option<T>, encode: T -> Dict) {
    if field.Some? then key in d && d[key] == VDict(encode(field.value)) else key !in d
  }

  lemma YearlyHistoryToDictShape(x: YearlyHistory)
    ensures var d := YearlyHistoryToDict(x);
            && HasInt(d, "year") && d["year"].intValue == x.year
            && StoredNested(d, "phenology", x.phenology, Phenology.ToDict)
            && StoredNested(d, "ndviStats", x.ndviStats, NDVIStats.ToDict)
            && StoredNested(d, "weather", x.weather, Weather.ToDict)
  {
  }

  /** Every per-year record, nested records included, is recovered unchanged from its dictionary. */
  lemma DecodeYearlyHistoryToDict(x: YearlyHistory)
    ensures DecodeYearlyHistory(YearlyHistoryToDict(x)) == Ok(x)
  {
    var d := YearlyHistoryToDict(x);
    YearlyHistoryToDictShape(x);
    if x.phenology.Some? { Phenology.DecodeToDict(x.phenology.value); }
    DecodeNestedAt(d, "phenology", x.phenology, Phenology.ToDict, Phenology.Decode);
    if x.ndviStats.Some? { NDVIStats.DecodeToDict(x.ndviStats.value); }
    DecodeNestedAt(d, "ndviStats", x.ndviStats, NDVIStats.ToDict, NDVIStats.Decode);
    if x.weather.Some? { Weather.DecodeToDict(x.weather.value); }
    DecodeNestedAt(d, "weather", x.weather, Weather.ToDict, Weather.Decode);
  }

  // ---------------------------------------------------------------------------
  // Field

  /** A field. Its memberwise initializer is the constructor. `yieldList` is the
      source's `yields` (a reserved word in Dafny). `history` holds the flat
      per-observation records, which the history chart consumes. */
  datatype Field = Field(
    id: string,
    ownerId: string,
    name: string,
    geometry: GeoJSONGeometry,
    createdAt: string,
    meta: FieldMeta,
    yieldList: Option<seq<YieldData.YieldData>>,
    history: Option<seq<FieldHistory.FieldHistory>>,
    norm: Option<FieldNorm.FieldNorm>,
    current: Option<CurrentData.CurrentData>,
    forecast: Option<ForecastData.ForecastData>)
  {
    /** `polygonCoordinates`: the outer ring when the geometry is a polygon, else nil. */
    function PolygonCoordinates(): (r: Option<seq<Position>>)
      ensures r.Some? <==> geometry.PolygonGeometry?
      ensures r.Some? ==> r.value == geometry.polygon.OuterRing()
    {
      match geometry
      case PolygonGeometry(polygon) => Some(polygon.OuterRing())
      case OtherGeometry(_) => None
    }

    /** The even-odd rule against the outer ring; holes are not consulted. */
    predicate Encloses(coordinate: Position) {
      geometry.PolygonGeometry? && InsideRing(geometry.polygon.OuterRing(), coordinate)
    }

    /** `contains(coordinate:)`: walks the outer ring's edges (i, j), j trailing i
        and starting at the last vertex, toggling on each edge the eastward ray
        crosses. */
    method Contains(coordinate: Position) returns (inside: bool)
      ensures inside == Encloses(coordinate)
      ensures !geometry.PolygonGeometry? ==> !inside
      ensures |PolygonCoordinates().GetOr([])| < 3 ==> !inside
    {
      if !geometry.PolygonGeometry? {
        return false;
      }
      var ring := geometry.polygon.OuterRing();
      if |ring| < 3 {
        return false;
      }
      inside := false;
      var j := |ring| - 1;
      for i := 0 to |ring|
        invariant j == if i == 0 then |ring| - 1 else i - 1
        invariant inside == OddCrossings(ring, coordinate, i)
      {
        var xi, yi := ring[i].longitude, ring[i].latitude;
        var xj, yj := ring[j].longitude, ring[j].latitude;
        var crosses := (yi > coordinate.latitude) != (yj > coordinate.latitude) &&
                       coordinate.longitude < CrossingLongitude(xi, yi, xj, yj, coordinate.latitude);
        if crosses {
          inside := !inside;
        }
        j := i;
      }
      OddCrossingsIsParity(ring, coordinate, |ring|);
    }

    /** The approximate area in hectares: for a polygon the Shoelace area of the
        outer ring (the metadata override is ignored), otherwise the metadata
        override or zero. */
    function AreaHectares(): (h: real)
      ensures geometry.PolygonGeometry? ==> h == RingAreaHectares(geometry.polygon.OuterRing())
      ensures geometry.PolygonGeometry? ==> h >= 0.0
      ensures geometry.PolygonGeometry? && |geometry.polygon.OuterRing()| < 3 ==> h == 0.0
      ensures !geometry.PolygonGeometry? ==> h == meta.areaHa.GetOr(0.0)
    {
      match geometry
      case PolygonGeometry(polygon) => RingAreaHectares(polygon.OuterRing())
      case OtherGeometry(_) => meta.areaHa.GetOr(0.0)
    }

    /** `approximateAreaHectares`: accumulates the Shoelace sum edge by edge. */
    method ApproximateAreaHectares() returns (hectares: real)
      ensures hectares == AreaHectares()
    {
      if !geometry.PolygonGeometry? {
        return meta.areaHa.GetOr(0.0);
      }
      var coords := geometry.polygon.OuterRing();
      if |coords| < 3 {
        return 0.0;
      }
      var area := 0.0;
      for i := 0 to |coords|
        invariant area == ShoelacePartial(coords, i)
      {
        var j := (i + 1) % |coords|;
        area := area + coords[i].longitude * coords[j].latitude;
        area := area - coords[j].longitude * coords[i].latitude;
      }
      area := Abs(area) / 2.0;
      hectares := area * HectaresPerSquareDegree;
    }

    /** `withGeometry`: the same field with another geometry, nothing else changed. */
    function WithGeometry(newGeometry: GeoJSONGeometry): (r: Field)
      ensures r.geometry == newGeometry
      ensures r.(geometry := geometry) == this
    {
      this.(geometry := newGeometry)
    }
  }

  /** `withPolygon`: a field whose geometry is a single-ring polygon holding the
      given (longitude, latitude) pairs in the given order; the `yields` default
      of the source is the empty list, so yieldList is never nil. */
  function WithPolygon(
    id: string, ownerId: string, name: string, coordinates: seq<(real, real)>, createdAt: string,
    meta: FieldMeta, yieldList: seq<YieldData.YieldData>, history: Option<seq<FieldHistory.FieldHistory>>,
    norm: Option<FieldNorm.FieldNorm>, current: Option<CurrentData.CurrentData>,
    forecast: Option<ForecastData.ForecastData>): (r: Field)
    ensures r.geometry.PolygonGeometry? && |r.geometry.polygon.coordinates| == 1
    ensures var ring := r.PolygonCoordinates().value;
            |ring| == |coordinates| &&
            forall i :: 0 <= i < |ring| ==> ring[i] == Position(coordinates[i].0, coordinates[i].1)
    ensures r.id == id && r.ownerId == ownerId && r.name == name && r.createdAt == createdAt && r.meta == meta
    ensures r.yieldList == Some(yieldList) && r.history == history
    ensures r.norm == norm && r.current == current && r.forecast == forecast
  {
    var positions := seq(|coordinates|, i requires 0 <= i < |coordinates| => Position(coordinates[i].0, coordinates[i].1));
    Field(id, ownerId, name, PolygonGeometry(Polygon([positions])), createdAt, meta,
          Some(yieldList), history, norm, current, forecast)
  }

  // ---------------------------------------------------------------------------
  // Field.init(from:)

  const Missing: string := "Missing required fields in Field dictionary"

  /** The identifier is read from "_id", falling back to "id". */
  predicate HasIdentity(d: Dict) {
    HasString(d, "_id") || HasString(d, "id")
  }

  function Identity(d: Dict): string
    requires HasIdentity(d)
  {
    if HasString(d, "_id") then d["_id"].stringValue else d["id"].stringValue
  }

  predicate HasRequired(d: Dict) {
    && HasIdentity(d) && HasString(d, "ownerId") && HasString(d, "name")
    && HasDict(d, "geometry") && HasString(d, "createdAt") && HasDict(d, "meta")
  }

  /** `yieldsArray.map { try YieldData(from: $0) }`: every element decodes, or the
      first failure is rethrown. */
  function DecodeYields(items: seq<Dict>): (r: Result<seq<YieldData.YieldData>>)
    ensures r.Ok? <==> forall i :: 0 <= i < |items| ==> YieldData.Decode(items[i]).Ok?
    ensures r.Ok? ==> |r.value| == |items| &&
                      forall i :: 0 <= i < |items| ==> YieldData.Decode(items[i]) == Ok(r.value[i])
    ensures r.Err? ==> r.error == DataCorrupted(YieldData.Missing)
  {
    if items == [] then Ok([])
    else
      var first :- YieldData.Decode(items[0]);
      var rest :- DecodeYields(items[1..]);
      Ok([first] + rest)
  }

  /** Every yields element that is present decodes. */
  predicate YieldsDecode(d: Dict) {
    HasDictArray(d, "yields") ==>
      forall i :: 0 <= i < |d["yields"].arrayValue| ==> YieldData.Decode(d["yields"].arrayValue[i].dictValue).Ok?
  }

  /** The optional yields list: absent (or not an array of dictionaries) gives nil. */
  function DecodeOptionalYields(d: Dict): (r: Result<Option<seq<YieldData.YieldData>>>)
    ensures r.Ok? <==> YieldsDecode(d)
    ensures r.Err? ==> r.error == DataCorrupted(YieldData.Missing)
    ensures r.Ok? ==> (r.value.Some? <==> HasDictArray(d, "yields"))
    ensures r.Ok? && r.value.Some? ==>
              var items := d["yields"].arrayValue;
              |r.value.value| == |items| &&
              forall i :: 0 <= i < |items| ==> YieldData.Decode(items[i].dictValue) == Ok(r.value.value[i])
  {
    match DictArrayAt(d, "yields")
    case None => Ok(None)
    case Some(items) =>
      assert forall i :: 0 <= i < |items| ==> items[i] == d["yields"].arrayValue[i].dictValue;
      var yieldList :- DecodeYields(items);
      Ok(Some(yieldList))
  }

  /** `Field.init(from:)`. The required keys are checked first; then the geometry
      dictionary is decoded by `decodeGeometry` (the JSON round trip through
      Foundation, which may throw); then the optional yields, norm, current and
      forecast, each rethrowing its nested decoder's failure. History is never
      decoded. */
  function Decode(d: Dict, decodeGeometry: Dict -> Result<GeoJSONGeometry>): (r: Result<Field>)
    ensures !HasRequired(d) ==> r == Err(DataCorrupted(Missing))
    ensures HasRequired(d) && decodeGeometry(d["geometry"].dictValue).Err? ==>
              r == Err(decodeGeometry(d["geometry"].dictValue).error)
    ensures && HasRequired(d) && decodeGeometry(d["geometry"].dictValue).Ok?
            && !YieldsDecode(d) ==>
              r == Err(DataCorrupted(YieldData.Missing))
    ensures && HasRequired(d) && decodeGeometry(d["geometry"].dictValue).Ok?
            && YieldsDecode(d)
            && !NestedDecodes(d, "norm", FieldNorm.Decode) ==>
              r == Err(FieldNorm.Decode(d["norm"].dictValue).error)
    ensures && HasRequired(d) && decodeGeometry(d["geometry"].dictValue).Ok?
            && YieldsDecode(d) && NestedDecodes(d, "norm", FieldNorm.Decode)
            && !NestedDecodes(d, "current", CurrentData.Decode) ==>
              r == Err(CurrentData.Decode(d["current"].dictValue).error)
    ensures && HasRequired(d) && decodeGeometry(d["geometry"].dictValue).Ok?
            && YieldsDecode(d) && NestedDecodes(d, "norm", FieldNorm.Decode)
            && NestedDecodes(d, "current", CurrentData.Decode)
            && !NestedDecodes(d, "forecast", ForecastData.Decode) ==>
              r == Err(ForecastData.Decode(d["forecast"].dictValue).error)
    ensures r.Ok? <==> && HasRequired(d) && decodeGeometry(d["geometry"].dictValue).Ok?
                       && YieldsDecode(d)
                       && NestedDecodes(d, "norm", FieldNorm.Decode)
                       && NestedDecodes(d, "current", CurrentData.Decode)
                       && NestedDecodes(d, "forecast", ForecastData.Decode)
  {
    if !HasRequired(d) then Err(DataCorrupted(Missing))
    else
      var geometry :- decodeGeometry(d["geometry"].dictValue);
      var meta := DecodeMeta(d["meta"].dictValue).value;
      var yieldList :- DecodeOptionalYields(d);
      var norm :- DecodeNested(d, "norm", FieldNorm.Decode);
      var current :- DecodeNested(d, "current", CurrentData.Decode);
      var forecast :- DecodeNested(d, "forecast", ForecastData.Decode);
      Ok(Field(Identity(d), d["ownerId"].stringValue, d["name"].stringValue, geometry,
               d["createdAt"].stringValue, meta, yieldList, None, norm, current, forecast))
  }

  /** The keys the field decoder reads. `history` is not among them. */
  const Keys: set<string> :=
    {"_id", "id", "ownerId", "name", "geometry", "createdAt", "meta", "yields", "norm", "current", "forecast"}

  /** Keys other than those read do not affect the decoded field. */
  lemma DecodeIgnoresOtherKeys(d: Dict, key: string, v: Value, decodeGeometry: Dict -> Result<GeoJSONGeometry>)
    requires key !in Keys
    ensures Decode(d[key := v], decodeGeometry) == Decode(d, decodeGeometry)
  {
  }

  /** Whatever a dictionary holds under `history`, the decoded field is the same:
      the decoder never reads it. */
  lemma HistoryKeyIgnored(d: Dict, v: Value, decodeGeometry: Dict -> Result<GeoJSONGeometry>)
    ensures Decode(d["history" := v], decodeGeometry) == Decode(d, decodeGeometry)
  {
    DecodeIgnoresOtherKeys(d, "history", v, decodeGeometry);
  }

  /** What a successful decode holds: the identity (`_id` before `id`), the
      required strings, the decoded geometry and metadata, no history, and each
      optional nested record and yields element exactly as its own decoder reads it. */
  lemma DecodedValues(d: Dict, decodeGeometry: Dict -> Result<GeoJSONGeometry>)
    requires Decode(d, decodeGeometry).Ok?
    ensures var f := Decode(d, decodeGeometry).value;
            && f.id == Identity(d)
            && f.ownerId == d["ownerId"].stringValue
            && f.name == d["name"].stringValue
            && f.createdAt == d["createdAt"].stringValue
            && decodeGeometry(d["geometry"].dictValue) == Ok(f.geometry)
            && DecodeMeta(d["meta"].dictValue) == Ok(f.meta)
            && f.history == None
    ensures var f := Decode(d, decodeGeometry).value;
            && DecodedNested(d, "norm", FieldNorm.Decode, f.norm)
            && DecodedNested(d, "current", CurrentData.Decode, f.current)
            && DecodedNested(d, "forecast", ForecastData.Decode, f.forecast)
    ensures var f := Decode(d, decodeGeometry).value;
            && (f.yieldList.Some? <==> HasDictArray(d, "yields"))
            && (f.yieldList.Some? ==>
                  var items := d["yields"].arrayValue;
                  |f.yieldList.value| == |items| &&
                  forall i :: 0 <= i < |items| ==> YieldData.Decode(items[i].dictValue) == Ok(f.yieldList.value[i]))
  {
  }
}

/** Worked examples of the field geometry. */
module FieldExamples {
  import opened Wrappers
  import opened Geometry
  import opened Field

  const Square: seq<Position> :=
    [Position(0.0, 0.0), Position(1.0, 0.0), Position(1.0, 1.0), Position(0.0, 1.0), Position(0.0, 0.0)]

  /** A field over the closed unit square (0,0), (1,0), (1,1), (0,1), (0,0),
      built with `withPolygon`. */
  function UnitSquareField(meta: FieldMeta): (f: Field)
    ensures f.PolygonCoordinates() == Some(Square)
  {
    var f := BoxField(0.0, 0.0, 1.0, 1.0, meta);
    assert f.PolygonCoordinates().value == Square;
    f
  }

  /** A field built with `withPolygon` over the closed ring around an
      axis-aligned box. */
  function BoxField(x0: real, y0: real, x1: real, y1: real, meta: FieldMeta): Field {
    WithPolygon("f", "o", "Box", [(x0, y0), (x1, y0), (x1, y1), (x0, y1), (x0, y0)],
                "2025-10-01T20:30:00Z", meta, [], None, None, None, None)
  }

  /** A box field has the box's area, whatever the metadata override says: one
      square degree is 12100 hectares. */
  lemma BoxFieldArea(x0: real, y0: real, x1: real, y1: real, meta: FieldMeta)
    requires x0 <= x1 && y0 <= y1
    ensures BoxField(x0, y0, x1, y1, meta).AreaHectares() == (x1 - x0) * (y1 - y0) * 12100.0
  {
    var ring := [Position(x0, y0), Position(x1, y0), Position(x1, y1), Position(x0, y1), Position(x0, y0)];
    assert BoxField(x0, y0, x1, y1, meta).geometry.polygon.OuterRing() == ring;
    BoxArea(x0, y0, x1, y1);
  }

  /** The closed unit square gives 12100 hectares. */
  lemma UnitSquareArea(meta: FieldMeta)
    ensures UnitSquareField(meta).AreaHectares() == 12100.0
  {
    BoxFieldArea(0.0, 0.0, 1.0, 1.0, meta);
  }

  /** The centre of the square is inside; a point east of it is not. */
  lemma UnitSquareContainment(meta: FieldMeta)
    ensures UnitSquareField(meta).Encloses(Position(0.5, 0.5))
    ensures !UnitSquareField(meta).Encloses(Position(1.5, 0.5))
  {
    var ring := Square;
    var inner, outer := Position(0.5, 0.5), Position(1.5, 0.5);
    assert Crossings(ring, inner, 1) == 0;
    assert Crossings(ring, inner, 2) == 0;
    assert Crossings(ring, inner, 3) == 1;
    assert Crossings(ring, inner, 4) == 1;
    assert Crossings(ring, inner, 5) == 1;
    assert Crossings(ring, outer, 1) == 0;
    assert Crossings(ring, outer, 2) == 0;
    assert Crossings(ring, outer, 3) == 0;
    assert Crossings(ring, outer, 4) == 0;
    assert Crossings(ring, outer, 5) == 0;
  }

  /** The first ring of the fixture fields. */
  const NorthFieldA: seq<Position> :=
    [Position(36.121, 49.987), Position(36.128, 49.988), Position(36.127, 49.992),
     Position(36.120, 49.991), Position(36.121, 49.987)]

  /** A point in the middle of that ring is contained; a point on the same
      latitude but west of the whole ring meets two edges and is not. */
  lemma NorthFieldAContainment()
    ensures InsideRing(NorthFieldA, Position(36.124, 49.989))
    ensures !InsideRing(NorthFieldA, Position(36.110, 49.989))
  {
    var ring := NorthFieldA;
    var inner, outer := Position(36.124, 49.989), Position(36.110, 49.989);
    assert Crossings(ring, inner, 1) == 0;
    assert Crossings(ring, inner, 2) == 0;
    assert Crossings(ring, inner, 3) == 1;
    assert Crossings(ring, inner, 4) == 1;
    assert Crossings(ring, inner, 5) == 1;
    assert Crossings(ring, outer, 1) == 0;
    assert Crossings(ring, outer, 2) == 0;
    assert Crossings(ring, outer, 3) == 1;
    assert Crossings(ring, outer, 4) == 1;
    assert Crossings(ring, outer, 5) == 2;
  }

  /** A geometry other than a polygon contains nothing and takes its area from
      the metadata, or zero without one. */
  lemma NonPolygonField(f: Field, p: Position)
    requires f.geometry.OtherGeometry?
    ensures !f.Encloses(p)
    ensures f.AreaHectares() == (if f.meta.areaHa.Some? then f.meta.areaHa.value else 0.0)
  {
  }
}

/** DemeterEye/Model/FieldHistory.swift: one dated satellite observation of a field
    (the flat history record; Field.swift declares a different, per-year shape). */
module FieldHistory {
  import opened Wrappers
  import opened Dynamic

  /** The memberwise initializer is the constructor. */
  datatype FieldHistory = FieldHistory(
    date: string,
    ndvi: real,
    cloudCover: int,
    collection: string,
    temperatureDegC: real,
    humidityPct: real,
    cloudcoverPct: real,
    windSpeedMps: real,
    clarityPct: real)

  /** The `CodingKeys` enumeration: one case per stored property. */
  datatype CodingKey =
    | Date | Ndvi | CloudCover | Collection | TemperatureDegC
    | HumidityPct | CloudcoverPct | WindSpeedMps | ClarityPct

  /** A snake_case name: lower-case letters and underscores, starting with a letter. */
  predicate SnakeCase(s: string) {
    && |s| > 0 && 'a' <= s[0] <= 'z'
    && forall c | c in s :: 'a' <= c <= 'z' || c == '_'
  }

  /** The raw value of each coding key: the snake_case names of the payload. */
  function RawValue(k: CodingKey): (name: string)
    ensures SnakeCase(name)
  {
    match k
    case Date => "date"
    case Ndvi => "ndvi"
    case CloudCover => "cloud_cover"
    case Collection => "collection"
    case TemperatureDegC => "temperature_deg_c"
    case HumidityPct => "humidity_pct"
    case CloudcoverPct => "cloudcover_pct"
    case WindSpeedMps => "wind_speed_mps"
    case ClarityPct => "clarity_pct"
  }

  /** No two coding keys share a raw value, so the encoded payload has one
      entry per stored property. */
  lemma RawValueInjective(a: CodingKey, b: CodingKey)
    ensures RawValue(a) == RawValue(b) <==> a == b
  {
  }

  const Missing: string := "Missing required fields in FieldHistory dictionary"

  predicate HasRequired(d: Dict) {
    && HasString(d, "date") && HasDouble(d, "ndvi") && HasInt(d, "cloud_cover")
    && HasString(d, "collection") && HasDouble(d, "temperature_deg_c") && HasDouble(d, "humidity_pct")
    && HasDouble(d, "cloudcover_pct") && HasDouble(d, "wind_speed_mps") && HasDouble(d, "clarity_pct")
  }

  /** `init(from:)`: all nine keys are required; there is no optional field and no
      range check. */
  function Decode(d: Dict): (r: Result<FieldHistory>)
    ensures r.Ok? <==> HasRequired(d)
    ensures r.Err? ==> r.error == DataCorrupted(Missing)
    ensures r.Ok? ==> && r.value.date == d["date"].stringValue
                      && r.value.ndvi == d["ndvi"].doubleValue
                      && r.value.cloudCover == d["cloud_cover"].intValue
                      && r.value.collection == d["collection"].stringValue
                      && r.value.temperatureDegC == d["temperature_deg_c"].doubleValue
                      && r.value.humidityPct == d["humidity_pct"].doubleValue
                      && r.value.cloudcoverPct == d["cloudcover_pct"].doubleValue
                      && r.value.windSpeedMps == d["wind_speed_mps"].doubleValue
                      && r.value.clarityPct == d["clarity_pct"].doubleValue
  {
    if !HasRequired(d) then Err(DataCorrupted(Missing))
    else Ok(FieldHistory(d["date"].stringValue, d["ndvi"].doubleValue, d["cloud_cover"].intValue,
                         d["collection"].stringValue, d["temperature_deg_c"].doubleValue,
                         d["humidity_pct"].doubleValue, d["cloudcover_pct"].doubleValue,
                         d["wind_speed_mps"].doubleValue, d["clarity_pct"].doubleValue))
  }

  /** The payload a record is encoded to under its coding keys. */
  function ToDict(x: FieldHistory): Dict {
    map[RawValue(Date) := VString(x.date), RawValue(Ndvi) := VDouble(x.ndvi),
        RawValue(CloudCover) := VInt(x.cloudCover), RawValue(Collection) := VString(x.collection),
        RawValue(TemperatureDegC) := VDouble(x.temperatureDegC), RawValue(HumidityPct) := VDouble(x.humidityPct),
        RawValue(CloudcoverPct) := VDouble(x.cloudcoverPct), RawValue(WindSpeedMps) := VDouble(x.windSpeedMps),
        RawValue(ClarityPct) := VDouble(x.clarityPct)]
  }

  /** The dictionary decoder reads the very keys `CodingKeys` names: a record
      encoded under its coding keys decodes back unchanged, whatever its values
      (an NDVI outside [0, 1] included). */
  lemma DecodeToDict(x: FieldHistory)
    ensures Decode(ToDict(x)) == Ok(x)
  {
    var d := ToDict(x);
    assert d["date"] == VString(x.date) && d["ndvi"] == VDouble(x.ndvi);
    assert d["cloud_cover"] == VInt(x.cloudCover) && d["collection"] == VString(x.collection);
    assert d["temperature_deg_c"] == VDouble(x.temperatureDegC) && d["humidity_pct"] == VDouble(x.humidityPct);
    assert d["cloudcover_pct"] == VDouble(x.cloudcoverPct) && d["wind_speed_mps"] == VDouble(x.windSpeedMps);
    assert d["clarity_pct"] == VDouble(x.clarityPct);
  }

  /** Keys that are not the raw value of a coding key do not affect the result. */
  lemma DecodeIgnoresOtherKeys(d: Dict, key: string, v: Value)
    requires forall k: CodingKey :: key != RawValue(k)
    ensures Decode(d[key := v]) == Decode(d)
  {
    var e := d[key := v];
    forall k: CodingKey ensures RawValue(k) in e <==> RawValue(k) in d
      ensures RawValue(k) in d ==> e[RawValue(k)] == d[RawValue(k)]
    {
      assert key != RawValue(k);
    }
    KeyLookups(e, d);
  }

  /** Two dictionaries that agree on every coding key agree on every lookup the decoder makes. */
  lemma KeyLookups(e: Dict, d: Dict)
    requires forall k: CodingKey :: RawValue(k) in e <==> RawValue(k) in d
    requires forall k: CodingKey :: RawValue(k) in d ==> e[RawValue(k)] == d[RawValue(k)]
    ensures HasRequired(e) == HasRequired(d)
    ensures HasRequired(d) ==> Decode(e) == Decode(d)
  {
    assert RawValue(Date) == "date" && RawValue(Ndvi) == "ndvi" && RawValue(CloudCover) == "cloud_cover";
    assert RawValue(Collection) == "collection" && RawValue(TemperatureDegC) == "temperature_deg_c";
    assert RawValue(HumidityPct) == "humidity_pct" && RawValue(CloudcoverPct) == "cloudcover_pct";
    assert RawValue(WindSpeedMps) == "wind_speed_mps" && RawValue(ClarityPct) == "clarity_pct";
  }
}

/** DemeterEye/Model/Weather.swift: the weather aggregate of one season. */
module Weather {
  import opened Wrappers
  import opened Dynamic

  /** The memberwise initializer is the constructor. */
  datatype Weather = Weather(tminAvgC: real, tmaxAvgC: real, windAvgMs: real, sunHours: int, precipMm: real, gdd: int)

  const Missing: string := "Missing required fields in Weather dictionary"

  const Keys: set<string> := {"tminAvgC", "tmaxAvgC", "windAvgMs", "sunHours", "precipMm", "gdd"}

  predicate HasRequired(d: Dict) {
    HasDouble(d, "tminAvgC") && HasDouble(d, "tmaxAvgC") && HasDouble(d, "windAvgMs")
    && HasInt(d, "sunHours") && HasDouble(d, "precipMm") && HasInt(d, "gdd")
  }

  /** `init(from:)`: all six keys are required. */
  function Decode(d: Dict): (r: Result<Weather>)
    ensures r.Ok? <==> HasRequired(d)
    ensures r.Err? ==> r.error == DataCorrupted(Missing)
    ensures r.Ok? ==> && r.value.tminAvgC == d["tminAvgC"].doubleValue
                      && r.value.tmaxAvgC == d["tmaxAvgC"].doubleValue
                      && r.value.windAvgMs == d["windAvgMs"].doubleValue
                      && r.value.sunHours == d["sunHours"].intValue
                      && r.value.precipMm == d["precipMm"].doubleValue
                      && r.value.gdd == d["gdd"].intValue
  {
    if !HasRequired(d) then Err(DataCorrupted(Missing))
    else Ok(Weather(d["tminAvgC"].doubleValue, d["tmaxAvgC"].doubleValue, d["windAvgMs"].doubleValue,
                    d["sunHours"].intValue, d["precipMm"].doubleValue, d["gdd"].intValue))
  }

  function ToDict(x: Weather): Dict {
    map["tminAvgC" := VDouble(x.tminAvgC), "tmaxAvgC" := VDouble(x.tmaxAvgC), "windAvgMs" := VDouble(x.windAvgMs),
        "sunHours" := VInt(x.sunHours), "precipMm" := VDouble(x.precipMm), "gdd" := VInt(x.gdd)]
  }

  /** Every record is recovered unchanged from its dictionary, so a minimum
      temperature above the maximum decodes. */
  lemma DecodeToDict(x: Weather)
    ensures Decode(ToDict(x)) == Ok(x)
  {
  }

  lemma DecodeIgnoresOtherKeys(d: Dict, key: string, v: Value)
    requires key !in Keys
    ensures Decode(d[key := v]) == Decode(d)
  {
  }
}

/** DemeterEye/Model/ForecastData.swift: the yield forecast for the next harvest. */
module ForecastData {
  import opened Wrappers
  import opened Dynamic

  /** The memberwise initializer is the constructor. */
  datatype ForecastData = ForecastData(
    year: int,
    yieldTph: real,
    ndviPeak: real,
    ndviPeakAt: string,
    model: string,
    confidence: real,
    updatedAt: string)

  const Missing: string := "Missing required fields in ForecastData dictionary"

  const Keys: set<string> := {"year", "yieldTph", "ndviPeak", "ndviPeakAt", "model", "confidence", "updatedAt"}

  predicate HasRequired(d: Dict) {
    HasInt(d, "year") && HasDouble(d, "yieldTph") && HasDouble(d, "ndviPeak") && HasString(d, "ndviPeakAt")
    && HasString(d, "model") && HasDouble(d, "confidence") && HasString(d, "updatedAt")
  }

  /** `init(from:)`: all seven keys are required. */
  function Decode(d: Dict): (r: Result<ForecastData>)
    ensures r.Ok? <==> HasRequired(d)
    ensures r.Err? ==> r.error == DataCorrupted(Missing)
    ensures r.Ok? ==> && r.value.year == d["year"].intValue
                      && r.value.yieldTph == d["yieldTph"].doubleValue
                      && r.value.ndviPeak == d["ndviPeak"].doubleValue
                      && r.value.ndviPeakAt == d["ndviPeakAt"].stringValue
                      && r.value.model == d["model"].stringValue
                      && r.value.confidence == d["confidence"].doubleValue
                      && r.value.updatedAt == d["updatedAt"].stringValue
  {
    if !HasRequired(d) then Err(DataCorrupted(Missing))
    else Ok(ForecastData(d["year"].intValue, d["yieldTph"].doubleValue, d["ndviPeak"].doubleValue,
                         d["ndviPeakAt"].stringValue, d["model"].stringValue, d["confidence"].doubleValue,
                         d["updatedAt"].stringValue))
  }

  function ToDict(x: ForecastData): Dict {
    map["year" := VInt(x.year), "yieldTph" := VDouble(x.yieldTph), "ndviPeak" := VDouble(x.ndviPeak),
        "ndviPeakAt" := VString(x.ndviPeakAt), "model" := VString(x.model),
        "confidence" := VDouble(x.confidence), "updatedAt" := VString(x.updatedAt)]
  }

  /** Every record is recovered unchanged from its dictionary, so confidence and
      peak NDVI are not range-checked. */
  lemma DecodeToDict(x: ForecastData)
    ensures Decode(ToDict(x)) == Ok(x)
  {
  }

  lemma DecodeIgnoresOtherKeys(d: Dict, key: string, v: Value)
    requires key !in Keys
    ensures Decode(d[key := v]) == Decode(d)
  {
  }
}

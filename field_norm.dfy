/** DemeterEye/Model/FieldNorm.swift: the multi-year average phenology of a field. */
module FieldNorm {
  import opened Wrappers
  import opened Dynamic

  /** Average day of year of season start, peak and end, average season length,
      average peak NDVI. The memberwise initializer is the constructor. */
  datatype FieldNorm = FieldNorm(sosAvgDOY: int, peakAvgDOY: int, eosAvgDOY: int, losAvgDays: int, peakNdviAvg: real)

  const Missing: string := "Missing required fields in FieldNorm dictionary"

  const Keys: set<string> := {"sosAvgDOY", "peakAvgDOY", "eosAvgDOY", "losAvgDays", "peakNdviAvg"}

  predicate HasRequired(d: Dict) {
    HasInt(d, "sosAvgDOY") && HasInt(d, "peakAvgDOY") && HasInt(d, "eosAvgDOY")
    && HasInt(d, "losAvgDays") && HasDouble(d, "peakNdviAvg")
  }

  /** `init(from:)`: all five keys are required. */
  function Decode(d: Dict): (r: Result<FieldNorm>)
    ensures r.Ok? <==> HasRequired(d)
    ensures r.Err? ==> r.error == DataCorrupted(Missing)
    ensures r.Ok? ==> && r.value.sosAvgDOY == d["sosAvgDOY"].intValue
                      && r.value.peakAvgDOY == d["peakAvgDOY"].intValue
                      && r.value.eosAvgDOY == d["eosAvgDOY"].intValue
                      && r.value.losAvgDays == d["losAvgDays"].intValue
                      && r.value.peakNdviAvg == d["peakNdviAvg"].doubleValue
  {
    if !HasRequired(d) then Err(DataCorrupted(Missing))
    else Ok(FieldNorm(d["sosAvgDOY"].intValue, d["peakAvgDOY"].intValue, d["eosAvgDOY"].intValue,
                      d["losAvgDays"].intValue, d["peakNdviAvg"].doubleValue))
  }

  function ToDict(x: FieldNorm): Dict {
    map["sosAvgDOY" := VInt(x.sosAvgDOY), "peakAvgDOY" := VInt(x.peakAvgDOY), "eosAvgDOY" := VInt(x.eosAvgDOY),
        "losAvgDays" := VInt(x.losAvgDays), "peakNdviAvg" := VDouble(x.peakNdviAvg)]
  }

  /** Every record is recovered unchanged from its dictionary, so no range or
      ordering check is made: a start after the end, or a zero average, decodes. */
  lemma DecodeToDict(x: FieldNorm)
    ensures Decode(ToDict(x)) == Ok(x)
  {
  }

  lemma DecodeIgnoresOtherKeys(d: Dict, key: string, v: Value)
    requires key !in Keys
    ensures Decode(d[key := v]) == Decode(d)
  {
  }
}

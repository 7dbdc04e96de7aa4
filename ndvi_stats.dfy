/** DemeterEye/Model/NDVIStats.swift: NDVI statistics of one season. */
module NDVIStats {
  import opened Wrappers
  import opened Dynamic

  /** The memberwise initializer is the constructor. */
  datatype NDVIStats = NDVIStats(mean: real, max: real, auc: real, samples: int, source: string)

  const Missing: string := "Missing required fields in NDVIStats dictionary"

  const Keys: set<string> := {"mean", "max", "auc", "samples", "source"}

  predicate HasRequired(d: Dict) {
    HasDouble(d, "mean") && HasDouble(d, "max") && HasDouble(d, "auc")
    && HasInt(d, "samples") && HasString(d, "source")
  }

  /** `init(from:)`: all five keys are required. */
  function Decode(d: Dict): (r: Result<NDVIStats>)
    ensures r.Ok? <==> HasRequired(d)
    ensures r.Err? ==> r.error == DataCorrupted(Missing)
    ensures r.Ok? ==> && r.value.mean == d["mean"].doubleValue
                      && r.value.max == d["max"].doubleValue
                      && r.value.auc == d["auc"].doubleValue
                      && r.value.samples == d["samples"].intValue
                      && r.value.source == d["source"].stringValue
  {
    if !HasRequired(d) then Err(DataCorrupted(Missing))
    else Ok(NDVIStats(d["mean"].doubleValue, d["max"].doubleValue, d["auc"].doubleValue,
                      d["samples"].intValue, d["source"].stringValue))
  }

  function ToDict(x: NDVIStats): Dict {
    map["mean" := VDouble(x.mean), "max" := VDouble(x.max), "auc" := VDouble(x.auc),
        "samples" := VInt(x.samples), "source" := VString(x.source)]
  }

  /** Every record is recovered unchanged from its dictionary, so no cross-field
      check is made: a mean above the maximum, or a negative sample count, decodes. */
  lemma DecodeToDict(x: NDVIStats)
    ensures Decode(ToDict(x)) == Ok(x)
  {
  }

  lemma DecodeIgnoresOtherKeys(d: Dict, key: string, v: Value)
    requires key !in Keys
    ensures Decode(d[key := v]) == Decode(d)
  {
  }
}

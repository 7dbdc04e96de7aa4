/** DemeterEye/Model/Phenology.swift: the phenology of one completed season. */
module Phenology {
  import opened Wrappers
  import opened Dynamic
  import Deviation
  import CurrentData

  /** Unlike CurrentData, every marker of a completed season is mandatory.
      The memberwise initializer is the constructor. */
  datatype Phenology = Phenology(
    sos: string,
    peakDate: string,
    eos: string,
    los: int,
    peakNdvi: real,
    deviation: Deviation.Deviation)

  const Missing: string := "Missing required fields in Phenology dictionary"

  const Keys: set<string> := {"sos", "peakDate", "eos", "los", "peakNdvi", "deviation"}

  predicate HasRequired(d: Dict) {
    HasString(d, "sos") && HasString(d, "peakDate") && HasString(d, "eos")
    && HasInt(d, "los") && HasDouble(d, "peakNdvi") && HasDict(d, "deviation")
  }

  /** `init(from:)`: all six keys are required; a failure of the nested Deviation
      decoder is rethrown. */
  function Decode(d: Dict): (r: Result<Phenology>)
    ensures !HasRequired(d) ==> r == Err(DataCorrupted(Missing))
    ensures HasRequired(d) && Deviation.Decode(d["deviation"].dictValue).Err? ==>
              r == Err(Deviation.Decode(d["deviation"].dictValue).error)
    ensures r.Ok? <==> HasRequired(d) && Deviation.Decode(d["deviation"].dictValue).Ok?
    ensures r.Ok? ==> && r.value.sos == d["sos"].stringValue
                      && r.value.peakDate == d["peakDate"].stringValue
                      && r.value.eos == d["eos"].stringValue
                      && r.value.los == d["los"].intValue
                      && r.value.peakNdvi == d["peakNdvi"].doubleValue
                      && Deviation.Decode(d["deviation"].dictValue) == Ok(r.value.deviation)
  {
    if !HasRequired(d) then Err(DataCorrupted(Missing))
    else
      var deviation :- Deviation.Decode(d["deviation"].dictValue);
      Ok(Phenology(d["sos"].stringValue, d["peakDate"].stringValue, d["eos"].stringValue,
                   d["los"].intValue, d["peakNdvi"].doubleValue, deviation))
  }

  function ToDict(x: Phenology): Dict {
    map["sos" := VString(x.sos), "peakDate" := VString(x.peakDate), "eos" := VString(x.eos),
        "los" := VInt(x.los), "peakNdvi" := VDouble(x.peakNdvi),
        "deviation" := VDict(Deviation.ToDict(x.deviation))]
  }

  /** Every record, nested deviation included, is recovered unchanged from its dictionary. */
  lemma DecodeToDict(x: Phenology)
    ensures Decode(ToDict(x)) == Ok(x)
  {
    Deviation.DecodeToDict(x.deviation);
  }

  lemma DecodeIgnoresOtherKeys(d: Dict, key: string, v: Value)
    requires key !in Keys
    ensures Decode(d[key := v]) == Decode(d)
  {
  }

  /** Phenology is the stricter reading of the same keys: whatever it accepts,
      CurrentData accepts too, with the same values and the optional markers present. */
  lemma StricterThanCurrentData(d: Dict)
    requires Decode(d).Ok?
    ensures CurrentData.Decode(d).Ok?
    ensures var p, c := Decode(d).value, CurrentData.Decode(d).value;
            && c.sos == p.sos && c.peakDate == Some(p.peakDate) && c.eos == Some(p.eos)
            && c.los == Some(p.los) && c.peakNdvi == p.peakNdvi && c.deviation == p.deviation
  {
  }

  /** An in-season dictionary without a peak date: CurrentData accepts it, Phenology rejects it. */
  lemma InSeasonRecordRejected()
    ensures var d := map["sos" := VString("2025-04-02"), "peakNdvi" := VDouble(0.41),
                         "deviation" := VDict(map["peakNdvi" := VDouble(-0.05)])];
            CurrentData.Decode(d).Ok? && Decode(d) == Err(DataCorrupted(Missing))
  {
  }
}

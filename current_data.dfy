/** DemeterEye/Model/CurrentData.swift: this season's phenology so far. */
module CurrentData {
  import opened Wrappers
  import opened Dynamic
  import Deviation

  /** Season start is known; peak, end and length may not be observable yet.
      The memberwise initializer is the constructor. */
  datatype CurrentData = CurrentData(
    sos: string,
    peakDate: Option<string>,
    eos: Option<string>,
    los: Option<int>,
    peakNdvi: real,
    deviation: Deviation.Deviation)

  const Missing: string := "Missing required fields in CurrentData dictionary"

  const Keys: set<string> := {"sos", "peakDate", "eos", "los", "peakNdvi", "deviation"}

  predicate HasRequired(d: Dict) {
    HasString(d, "sos") && HasDouble(d, "peakNdvi") && HasDict(d, "deviation")
  }

  /** `init(from:)`: sos, peakNdvi and the nested deviation dictionary are
      required; peakDate, eos and los become nil when absent or mistyped; a
      failure of the nested Deviation decoder is rethrown. */
  function Decode(d: Dict): (r: Result<CurrentData>)
    ensures !HasRequired(d) ==> r == Err(DataCorrupted(Missing))
    ensures HasRequired(d) && Deviation.Decode(d["deviation"].dictValue).Err? ==>
              r == Err(Deviation.Decode(d["deviation"].dictValue).error)
    ensures r.Ok? <==> HasRequired(d) && Deviation.Decode(d["deviation"].dictValue).Ok?
    ensures r.Ok? ==> && r.value.sos == d["sos"].stringValue
                      && r.value.peakNdvi == d["peakNdvi"].doubleValue
                      && Deviation.Decode(d["deviation"].dictValue) == Ok(r.value.deviation)
    ensures r.Ok? ==> && CopiedString(d, "peakDate", r.value.peakDate)
                      && CopiedString(d, "eos", r.value.eos)
                      && CopiedInt(d, "los", r.value.los)
  {
    if !HasRequired(d) then Err(DataCorrupted(Missing))
    else
      var deviation :- Deviation.Decode(d["deviation"].dictValue);
      Ok(CurrentData(d["sos"].stringValue, StringAt(d, "peakDate"), StringAt(d, "eos"), IntAt(d, "los"),
                     d["peakNdvi"].doubleValue, deviation))
  }

  function ToDict(x: CurrentData): Dict {
    var d := map["sos" := VString(x.sos), "peakNdvi" := VDouble(x.peakNdvi),
                 "deviation" := VDict(Deviation.ToDict(x.deviation))];
    PutInt(PutString(PutString(d, "peakDate", x.peakDate), "eos", x.eos), "los", x.los)
  }

  /** Every record, nested deviation included, is recovered unchanged from its dictionary. */
  lemma DecodeToDict(x: CurrentData)
    ensures Decode(ToDict(x)) == Ok(x)
  {
    var d0 := map["sos" := VString(x.sos), "peakNdvi" := VDouble(x.peakNdvi),
                  "deviation" := VDict(Deviation.ToDict(x.deviation))];
    var d1 := PutString(d0, "peakDate", x.peakDate);
    var d2 := PutString(d1, "eos", x.eos);
    var d := PutInt(d2, "los", x.los);
    assert d == ToDict(x);
    assert d1["sos"] == d0["sos"] && d1["peakNdvi"] == d0["peakNdvi"] && d1["deviation"] == d0["deviation"];
    assert d["sos"] == VString(x.sos) && d["peakNdvi"] == VDouble(x.peakNdvi);
    assert d["deviation"] == VDict(Deviation.ToDict(x.deviation));
    assert StringAt(d, "peakDate") == x.peakDate && StringAt(d, "eos") == x.eos && IntAt(d, "los") == x.los;
    Deviation.DecodeToDict(x.deviation);
  }

  lemma DecodeIgnoresOtherKeys(d: Dict, key: string, v: Value)
    requires key !in Keys
    ensures Decode(d[key := v]) == Decode(d)
  {
  }

  /** A nested deviation dictionary without peakNdvi makes the whole decode throw
      the Deviation decoder's error, however complete the outer dictionary is. */
  lemma NestedDeviationFailurePropagates(d: Dict)
    requires HasRequired(d) && "peakNdvi" !in d["deviation"].dictValue
    ensures Decode(d) == Err(DataCorrupted(Deviation.Missing))
  {
  }
}

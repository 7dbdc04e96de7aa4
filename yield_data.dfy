/** DemeterEye/Model/YieldData.swift: one harvest yield of a field. */
module YieldData {
  import opened Wrappers
  import opened Dynamic

  /** The memberwise initializer is the constructor. */
  datatype YieldData = YieldData(year: int, valueTph: real, unit: string, source: Option<string>, notes: Option<string>)

  const Missing: string := "Missing required fields in YieldData dictionary"

  const Keys: set<string> := {"year", "valueTph", "unit", "source", "notes"}

  predicate HasRequired(d: Dict) {
    HasInt(d, "year") && HasDouble(d, "valueTph") && HasString(d, "unit")
  }

  /** `init(from:)`: year, valueTph and unit are required; source and notes are
      read with `as? String` and never make the decoder throw. */
  function Decode(d: Dict): (r: Result<YieldData>)
    ensures r.Ok? <==> HasRequired(d)
    ensures r.Err? ==> r.error == DataCorrupted(Missing)
    ensures r.Ok? ==> && r.value.year == d["year"].intValue
                      && r.value.valueTph == d["valueTph"].doubleValue
                      && r.value.unit == d["unit"].stringValue
    ensures r.Ok? ==> CopiedString(d, "source", r.value.source) && CopiedString(d, "notes", r.value.notes)
  {
    if !HasRequired(d) then Err(DataCorrupted(Missing))
    else Ok(YieldData(d["year"].intValue, d["valueTph"].doubleValue, d["unit"].stringValue,
                      StringAt(d, "source"), StringAt(d, "notes")))
  }

  function ToDict(x: YieldData): Dict {
    var d := map["year" := VInt(x.year), "valueTph" := VDouble(x.valueTph), "unit" := VString(x.unit)];
    PutString(PutString(d, "source", x.source), "notes", x.notes)
  }

  /** Every record is recovered unchanged from its dictionary. */
  lemma DecodeToDict(x: YieldData)
    ensures Decode(ToDict(x)) == Ok(x)
  {
  }

  lemma DecodeIgnoresOtherKeys(d: Dict, key: string, v: Value)
    requires key !in Keys
    ensures Decode(d[key := v]) == Decode(d)
  {
  }
}

/** DemeterEye/Model/Deviation.swift: the deviation of this season's phenology from the norm. */
module Deviation {
  import opened Wrappers
  import opened Dynamic

  /** Signed day offsets (positive = later than normal), each optional, and the
      mandatory peak-NDVI delta. The memberwise initializer is the constructor. */
  datatype Deviation = Deviation(
    daysSOS: Option<int>,
    daysPeak: Option<int>,
    daysEOS: Option<int>,
    daysLOS: Option<int>,
    peakNdvi: real)

  const Missing: string := "Missing peakNdvi in Deviation dictionary"

  /** The keys the decoder looks at. */
  const Keys: set<string> := {"daysSOS", "daysPeak", "daysEOS", "daysLOS", "peakNdvi"}

  /** `init(from:)`: `peakNdvi` is the one required key; the four day offsets are
      read with `as? Int` and never make the decoder throw. */
  function Decode(d: Dict): (r: Result<Deviation>)
    ensures r.Ok? <==> HasDouble(d, "peakNdvi")
    ensures r.Err? ==> r.error == DataCorrupted(Missing)
    ensures r.Ok? ==> r.value.peakNdvi == d["peakNdvi"].doubleValue
    ensures r.Ok? ==> CopiedInt(d, "daysSOS", r.value.daysSOS) && CopiedInt(d, "daysPeak", r.value.daysPeak)
    ensures r.Ok? ==> CopiedInt(d, "daysEOS", r.value.daysEOS) && CopiedInt(d, "daysLOS", r.value.daysLOS)
  {
    match DoubleAt(d, "peakNdvi")
    case None => Err(DataCorrupted(Missing))
    case Some(peakNdvi) =>
      Ok(Deviation(IntAt(d, "daysSOS"), IntAt(d, "daysPeak"), IntAt(d, "daysEOS"), IntAt(d, "daysLOS"), peakNdvi))
  }

  /** The dictionary a record is read from: the required key, plus each optional
      key whose value is present. */
  function ToDict(x: Deviation): Dict {
    var d := map["peakNdvi" := VDouble(x.peakNdvi)];
    PutInt(PutInt(PutInt(PutInt(d, "daysSOS", x.daysSOS), "daysPeak", x.daysPeak), "daysEOS", x.daysEOS), "daysLOS", x.daysLOS)
  }

  /** Every record, whatever its values, is recovered unchanged from its dictionary. */
  lemma DecodeToDict(x: Deviation)
    ensures Decode(ToDict(x)) == Ok(x)
  {
  }

  /** Keys other than the five the decoder reads do not affect the result. */
  lemma DecodeIgnoresOtherKeys(d: Dict, key: string, v: Value)
    requires key !in Keys
    ensures Decode(d[key := v]) == Decode(d)
  {
  }
}

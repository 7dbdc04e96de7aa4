/** The loosely typed `[String: Any]` dictionaries the decoders read, and Swift's
    conditional casts `dictionary[key] as? T` on them. A cast succeeds exactly when
    the key is present and its value carries the requested tag; numeric bridging
    between integers and doubles is not modelled. */
module Dynamic {
  import opened Wrappers

  datatype Value =
    | VInt(intValue: int)
    | VDouble(doubleValue: real)
    | VString(stringValue: string)
    | VDict(dictValue: map<string, Value>)
    | VArray(arrayValue: seq<Value>)

  /** `[String: Any]` */
  type Dict = map<string, Value>

  /** `dictionary[key] as? Int` succeeds */
  predicate HasInt(d: Dict, key: string) {
    key in d && d[key].VInt?
  }

  /** `dictionary[key] as? Double` succeeds */
  predicate HasDouble(d: Dict, key: string) {
    key in d && d[key].VDouble?
  }

  /** `dictionary[key] as? String` succeeds */
  predicate HasString(d: Dict, key: string) {
    key in d && d[key].VString?
  }

  /** `dictionary[key] as? [String: Any]` succeeds */
  predicate HasDict(d: Dict, key: string) {
    key in d && d[key].VDict?
  }

  /** `dictionary[key] as? [[String: Any]]` succeeds: an array whose every element is a dictionary */
  predicate HasDictArray(d: Dict, key: string) {
    key in d && d[key].VArray? &&
    forall i :: 0 <= i < |d[key].arrayValue| ==> d[key].arrayValue[i].VDict?
  }

  function IntAt(d: Dict, key: string): Option<int> {
    if HasInt(d, key) then Some(d[key].intValue) else None
  }

  function DoubleAt(d: Dict, key: string): Option<real> {
    if HasDouble(d, key) then Some(d[key].doubleValue) else None
  }

  function StringAt(d: Dict, key: string): Option<string> {
    if HasString(d, key) then Some(d[key].stringValue) else None
  }

  function DictArrayAt(d: Dict, key: string): Option<seq<Dict>> {
    if HasDictArray(d, key) then
      var items := d[key].arrayValue;
      Some(seq(|items|, i requires 0 <= i < |items| => items[i].dictValue))
    else None
  }

  /** An optional field decoded with `as? Int`: the present, well-typed value, else nil. */
  predicate CopiedInt(d: Dict, key: string, field: Option<int>) {
    if HasInt(d, key) then field == Some(d[key].intValue) else field == None
  }

  /** An optional field decoded with `as? Double`. */
  predicate CopiedDouble(d: Dict, key: string, field: Option<real>) {
    if HasDouble(d, key) then field == Some(d[key].doubleValue) else field == None
  }

  /** An optional field decoded with `as? String`. */
  predicate CopiedString(d: Dict, key: string, field: Option<string>) {
    if HasString(d, key) then field == Some(d[key].stringValue) else field == None
  }

  /** A dictionary extended with an optional integer field: unchanged when nil. */
  function PutInt(d: Dict, key: string, field: Option<int>): Dict {
    match field
    case Some(i) => d[key := VInt(i)]
    case None => d
  }

  /** A dictionary extended with an optional real field: unchanged when nil. */
  function PutDouble(d: Dict, key: string, field: Option<real>): Dict {
    match field
    case Some(x) => d[key := VDouble(x)]
    case None => d
  }

  /** A dictionary extended with an optional string field: unchanged when nil. */
  function PutString(d: Dict, key: string, field: Option<string>): Dict {
    match field
    case Some(s) => d[key := VString(s)]
    case None => d
  }
}

/**
 * The dict-shaped records the enrichment stages read from and write to JSON
 * files: one `Record` per stop, keyed by field name.
 */
module Json {
  import opened Wrappers

  /** A JSON scalar as it appears as a field value of a stop record. */
  datatype Value = Null | Str(s: string) | Int(i: int) | Num(r: real)

  type Record = map<string, Value>

  /** Python truthiness of a field value: null, "", 0 and 0.0 are false. */
  predicate Truthy(v: Value) {
    match v
    case Null => false
    case Str(s) => s != ""
    case Int(i) => i != 0
    case Num(r) => r != 0.0
  }

  /** A nullable string as a field value: None is written as JSON null. */
  function OfOption(o: Option<string>): (v: Value)
    ensures v == Null <==> o == None
  {
    match o
    case None => Null
    case Some(s) => Str(s)
  }
}

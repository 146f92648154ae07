/** The JSON values the database commands return to the front end.  Numbers are
    integers: the floating-point conversions are not part of this model.  Objects
    are maps from key to value, so a key occurs at most once. */
module Json {

  datatype Json =
    | JNull
    | JBool(b: bool)
    | JNumber(n: int)
    | JString(s: string)
    | JObject(fields: map<string, Json>)

  /** The JSON kind of a value, as a front end would test it. */
  datatype Kind = NullKind | BoolKind | NumberKind | StringKind | ObjectKind

  function KindOf(j: Json): Kind {
    match j
    case JNull => NullKind
    case JBool(_) => BoolKind
    case JNumber(_) => NumberKind
    case JString(_) => StringKind
    case JObject(_) => ObjectKind
  }
}

/** JSON values as table cells. */
module JsonValues {

  /** A JSON value; one that is neither scalar nor null is known by its serialised text only. */
  datatype Json =
    | Null
    | Bool(flag: bool)
    | Integer(number: int)
    | Real(negative: bool, digits: string)
    | Str(text: string)
    | Nested(json: string)

  type Record = map<string, Json>
}

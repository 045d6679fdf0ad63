/** JSON values as the configuration and token files use them. */
module Json {
  import opened Options

  datatype Json =
    | Null
    | Bool(flag: bool)
    | Num(number: int)
    | Float(literal: string)
    | Str(text: string)
    | Arr(items: seq<Json>)
    | Obj(fields: map<string, Json>)

  /** `find` on anything but an object finds nothing. */
  function Get(j: Json, key: string): Option<Json> {
    if j.Obj? && key in j.fields then Some(j.fields[key]) else None
  }
}

/**
 * A decoded JSON document, as Python's json module hands it to the tools.
 * Objects are maps from key to value; key order is not part of the model.
 * Python's json also accepts NaN and +/-Infinity as numbers.
 */
module JsonData {

  datatype Json =
    | JNull
    | JBool(b: bool)
    | JInt(i: int)
    | JFloat(f: real)
    | JNaN
    | JInf(negative: bool)
    | JStr(s: string)
    | JArr(items: seq<Json>)
    | JObj(fields: map<string, Json>)

  /** The text of a JSON string, or `default` for any other value. */
  function StrOr(j: Json, default: string): string {
    if j.JStr? then j.s else default
  }

  /** `obj.get(key, default)` on a decoded object. */
  function Get(fields: map<string, Json>, key: string, default: Json): Json {
    if key in fields then fields[key] else default
  }
}

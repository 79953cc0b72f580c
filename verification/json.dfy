/** The JSON values (RFC 8259) that the session store serialises.
    Objects are maps because Python dictionaries never repeat a key. */
module JsonValue {

  datatype Json =
    | JNull
    | JBool(b: bool)
    | JInt(n: int)
    | JStr(s: string)
    | JArr(items: seq<Json>)
    | JObj(fields: map<string, Json>)
}

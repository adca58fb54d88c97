/** Parsed JSON values and the Python exceptions the serial task can raise. */
module Json {

  /** A value as Python's `json.loads` returns it; numbers are kept as integers. */
  datatype Json =
    | JNull
    | JBool(b: bool)
    | JNum(n: int)
    | JStr(s: string)
    | JArr(items: seq<Json>)
    | JObj(fields: map<string, Json>)

  /** What the JSON parser makes of a text: a value, or a `JSONDecodeError`. */
  datatype Parsed = Parsed(value: Json) | DecodeError

  /** The exceptions of the serial task that the model distinguishes. */
  datatype Exception =
    | TimeoutError             // "Partner Timeout": the link went quiet during synchronisation
    | JsonDecodeError          // the only exception a handler catches (configuration messages)
    | KeyError(key: string)    // a dictionary lookup or deletion of a missing key
    | IndexError               // a list, string or bytes index past the end
    | WrongType                // a TypeError or AttributeError: a value of the wrong JSON kind

  datatype Result<T> = Ok(value: T) | Err(error: Exception)

  datatype Option<T> = None | Some(value: T)

  /** Python's `obj[key]` on a value that must be a dictionary holding `key`. */
  function Field(v: Json, key: string): Result<Json>
  {
    if !v.JObj? then Err(WrongType)
    else if key !in v.fields then Err(KeyError(key))
    else Ok(v.fields[key])
  }

  /** Python's `obj[key]` where the result is then used as a string. */
  function StringField(v: Json, key: string): (r: Result<string>)
    ensures r.Ok? <==> v.JObj? && key in v.fields && v.fields[key].JStr?
    ensures r.Ok? ==> v.fields[key] == JStr(r.value)
    ensures v.JObj? && key !in v.fields ==> r == Err(KeyError(key))
  {
    match Field(v, key)
    case Err(e) => Err(e)
    case Ok(f) => if f.JStr? then Ok(f.s) else Err(WrongType)
  }
}

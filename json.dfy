/** The decoded body of an API response, and the Python operations app.py applies to it:
    `value[key]`, `value[index]` and `key in value`. */
module Json {
  import opened Wrappers
  import opened Exceptions
  import opened Strings

  /** A value as Python's json module decodes it (numbers with a fraction become floats). */
  datatype Json =
    | JNull
    | JBool(b: bool)
    | JInt(i: int)
    | JReal(r: real)
    | JStr(s: string)
    | JArr(items: seq<Json>)
    | JObj(fields: map<string, Json>)

  /** `value[key]` with a string key: only an object with that key answers; any other kind of
      value raises TypeError. */
  function Lookup(value: Json, key: string): (r: Result<Json, Error>)
    ensures r.Ok? <==> value.JObj? && key in value.fields
    ensures r.Ok? ==> r.value == value.fields[key]
    ensures value.JObj? && key !in value.fields ==> r == Err(KeyError(key))
    ensures !value.JObj? ==> r == Err(TypeError)
  {
    match value
    case JObj(fields) => if key in fields then Ok(fields[key]) else Err(KeyError(key))
    case _ => Err(TypeError)
  }

  /** `value[index]` with an integer index: a list or a string answers when the index is in
      range; an object raises KeyError, since JSON object keys are strings; other values raise
      TypeError. */
  function Index(value: Json, index: nat): (r: Result<Json, Error>)
    ensures value.JArr? && index < |value.items| <==> r.Ok? && !value.JStr?
    ensures value.JArr? && index < |value.items| ==> r.value == value.items[index]
    ensures value.JArr? && index >= |value.items| ==> r == Err(IndexError)
  {
    match value
    case JArr(items) => if index < |items| then Ok(items[index]) else Err(IndexError)
    case JStr(s) => if index < |s| then Ok(JStr([s[index]])) else Err(IndexError)
    case JObj(_) => Err(KeyError(NatToString(index)))
    case _ => Err(TypeError)
  }

  /** `key in value`: membership among an object's keys, among a list's items, or as a
      substring; numbers and booleans raise TypeError. (The source tests for None first.) */
  function Contains(value: Json, key: string): (r: Result<bool, Error>)
    ensures value.JObj? ==> r == Ok(key in value.fields)
    ensures value.JNull? || value.JBool? || value.JInt? || value.JReal? ==> r.Err?
  {
    match value
    case JObj(fields) => Ok(key in fields)
    case JArr(items) => Ok(JStr(key) in items)
    case JStr(s) => Ok(IsSubstring(key, s))
    case _ => Err(TypeError)
  }
}

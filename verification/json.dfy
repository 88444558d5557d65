/** An already-parsed JSON document and the typed accessors of the JSON
    library the bridge calls (`Value<T>(key)`, `ContainsKey`, `ToString()`).
    Parsing text into this tree is the library's job and is not modelled. */
module Json {
  import opened Wrappers
  import opened Num

  datatype Json =
    | JNull
    | JBool(b: bool)
    | JNum(numeral: string)
    | JStr(s: string)
    | JArr(items: seq<Json>)
    | JObj(fields: map<string, Json>)

  type JObject = map<string, Json>

  const NullReference := "Object reference not set to an instance of an object."
  const InvalidCast := "Cannot cast JSON token to the requested type."

  /** Dereferencing what a `Value<…>` call returned: null throws. */
  function Deref<T>(o: Option<T>): (r: Result<T>)
    ensures r.Ok? <==> o.Some?
    ensures r.Ok? ==> r.value == o.value
  {
    match o
    case Some(v) => Ok(v)
    case None => Err(NullReference)
  }

  /** `o.Value<JObject>(key)`: a missing key or a JSON null reads as null. */
  function GetObject(o: JObject, key: string): (r: Result<Option<JObject>>)
    ensures key !in o ==> r == Ok(None)
    ensures key in o && o[key].JObj? ==> r == Ok(Some(o[key].fields))
  {
    if key !in o then Ok(None)
    else match o[key]
      case JObj(m) => Ok(Some(m))
      case JNull => Ok(None)
      case _ => Err(InvalidCast)
  }

  /** `o.Value<JArray>(key)`. */
  function GetArray(o: JObject, key: string): (r: Result<Option<seq<Json>>>)
    ensures key !in o ==> r == Ok(None)
    ensures key in o && o[key].JArr? ==> r == Ok(Some(o[key].items))
  {
    if key !in o then Ok(None)
    else match o[key]
      case JArr(a) => Ok(Some(a))
      case JNull => Ok(None)
      case _ => Err(InvalidCast)
  }

  /** `JToken.ToString()` of a scalar token; structured tokens would print
      as indented JSON text, which is not modelled. */
  function ScalarText(j: Json): (r: Result<string>)
    ensures r.Ok? <==> !j.JObj? && !j.JArr?
    ensures j.JStr? ==> r == Ok(j.s)
    ensures j.JNull? ==> r == Ok("")
  {
    match j
    case JNull => Ok("")
    case JBool(b) => Ok(if b then "True" else "False")
    case JNum(t) => Ok(t)
    case JStr(s) => Ok(s)
    case _ => Err("Structured JSON token: the runtime prints it as indented JSON text, which is not modelled.")
  }

  /** `token.Value<String>()` conversion of one token. */
  function AsString(j: Json): (r: Result<Option<string>>)
    ensures j.JStr? ==> r == Ok(Some(j.s))
  {
    match j
    case JNull => Ok(None)
    case JBool(b) => Ok(Some(if b then "True" else "False"))
    case JNum(t) => Ok(Some(t))
    case JStr(s) => Ok(Some(s))
    case _ => Err(InvalidCast)
  }

  /** `o.Value<String>(key)`. */
  function GetString(o: JObject, key: string): (r: Result<Option<string>>)
    ensures key !in o ==> r == Ok(None)
    ensures key in o && o[key].JStr? ==> r == Ok(Some(o[key].s))
  {
    if key !in o then Ok(None) else AsString(o[key])
  }

  /** `token.Value<Double>()` conversion of one token. */
  function AsDouble(j: Json): (r: Result<Double>)
    ensures j.JNum? ==> r == Ok(Finite(j.numeral))
  {
    match j
    case JNum(t) => Ok(Finite(t))
    case JStr(s) => Ok(ParseDouble(s))
    case JBool(b) => Ok(Finite(if b then "1" else "0"))
    case _ => Err(InvalidCast)
  }

  /** `o.Value<Double>(key)`: a missing key reads as the default 0. */
  function GetDouble(o: JObject, key: string): (r: Result<Double>)
    ensures key !in o ==> r == Ok(Zero)
    ensures key in o && o[key].JNum? ==> r == Ok(Finite(o[key].numeral))
  {
    if key !in o then Ok(Zero) else AsDouble(o[key])
  }

  const MalformedEntry := "Malformed entry in JSON object."

  /** Converts every member of an object.  The members of a JSON object are
      held as a map, so when several members fail the model reports one fixed
      message rather than the message of the first failing member. */
  function ConvertValues<V>(o: JObject, conv: Json -> Result<V>): (r: Result<map<string, V>>)
    ensures r.Ok? <==> forall k :: k in o ==> conv(o[k]).Ok?
    ensures r.Ok? ==> r.value.Keys == o.Keys
    ensures r.Ok? ==> forall k :: k in o ==> r.value[k] == conv(o[k]).value
  {
    if forall k :: k in o ==> conv(o[k]).Ok? then Ok(map k | k in o :: conv(o[k]).value)
    else Err(MalformedEntry)
  }

  /** Converts every item of an array in order; the first failing item's
      error is the result. */
  function ConvertItems<V>(items: seq<Json>, conv: Json -> Result<V>): (r: Result<seq<V>>)
    ensures r.Ok? <==> forall i :: 0 <= i < |items| ==> conv(items[i]).Ok?
    ensures r.Ok? ==> |r.value| == |items|
    ensures r.Ok? ==> forall i :: 0 <= i < |items| ==> r.value[i] == conv(items[i]).value
    ensures r.Err? ==> exists i :: 0 <= i < |items| && conv(items[i]) == Err(r.msg)
  {
    if |items| == 0 then Ok([])
    else
      var head :- conv(items[0]);
      var tail :- ConvertItems(items[1..], conv);
      Ok([head] + tail)
  }

  /** A top-level section read with `Value<JObject>(key)` and then used:
      absent is no section, a JSON null throws. */
  function ObjectSection(o: JObject, key: string): (r: Result<Option<JObject>>)
    ensures key !in o ==> r == Ok(None)
    ensures key in o ==> (r.Ok? <==> o[key].JObj?)
    ensures key in o && r.Ok? ==> r == Ok(Some(o[key].fields))
  {
    if key !in o then Ok(None)
    else
      var v :- GetObject(o, key);
      var m :- Deref(v);
      Ok(Some(m))
  }

  /** A top-level array read with `Value<JArray>(key)` and then iterated. */
  function ArraySection(o: JObject, key: string): (r: Result<Option<seq<Json>>>)
    ensures key !in o ==> r == Ok(None)
    ensures key in o ==> (r.Ok? <==> o[key].JArr?)
    ensures key in o && r.Ok? ==> r == Ok(Some(o[key].items))
  {
    if key !in o then Ok(None)
    else
      var v :- GetArray(o, key);
      var a :- Deref(v);
      Ok(Some(a))
  }
}

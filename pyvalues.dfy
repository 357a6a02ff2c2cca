/**
 * Values that cross the message bus: Python exceptions as error values, decoded
 * JSON, inbound messages and the records of what a client publishes.
 */
module PyValues {

  datatype Option<+T> = None | Some(value: T)

  /** The Python exceptions the modelled code can raise. */
  datatype PyError =
    | KeyError(key: string)
    | TypeError
    | IndexError
    | ValueError
    | ZeroDivisionError
    | AttributeError
    | UnicodeDecodeError

  /** A Python call either returns a value or raises. */
  datatype Result<+T> = Ok(value: T) | Err(error: PyError) {
    predicate IsFailure() {
      Err?
    }

    function PropagateFailure<U>(): Result<U>
      requires Err?
    {
      Err(error)
    }

    function Extract(): T
      requires Ok?
    {
      value
    }
  }

  /** A value produced by `json.loads` (numbers are integers here). */
  datatype JValue =
    | JNull
    | JBool(b: bool)
    | JInt(i: int)
    | JStr(s: string)
    | JList(items: seq<JValue>)
    | JObject(fields: map<string, JValue>)

  /** Python's `v[key]` on a decoded JSON value: a dict lookup, or an error. */
  function Subscript(v: JValue, key: string): (r: Result<JValue>)
    ensures r.Ok? <==> v.JObject? && key in v.fields
    ensures r.Ok? ==> r.value == v.fields[key] && r.value < v
    ensures r.Err? && v.JObject? ==> r.error == KeyError(key)
    ensures r.Err? && !v.JObject? ==> r.error == TypeError
  {
    match v
    case JObject(fields) => if key in fields then Ok(fields[key]) else Err(KeyError(key))
    case _ => Err(TypeError)
  }

  /** Python's `d.get(key)`: `None` (JSON `null`) for a missing key. */
  function Get(d: map<string, JValue>, key: string): JValue {
    if key in d then d[key] else JNull
  }

  /** `json.dumps` of an optional string: `None` becomes `null`. */
  function OptStr(s: Option<string>): JValue {
    match s
    case None => JNull
    case Some(x) => JStr(x)
  }

  /** Python's `v == s` between a decoded value and an optional string. */
  predicate EqualsOptStr(v: JValue, s: Option<string>) {
    v == OptStr(s)
  }

  /**
   * The payload of an inbound message: empty (falsy), bytes that are not
   * UTF-8 (audio), or a JSON object already decoded.
   */
  datatype Body = Empty | Binary(bytes: seq<bv8>) | Json(obj: map<string, JValue>)

  datatype Message = Message(topic: string, body: Body)

  /** What `client.publish(topic, payload)` sent. */
  datatype OutPayload = NoPayload | JsonPayload(value: JValue) | RawBytes(bytes: seq<bv8>)

  datatype Publish = Publish(topic: string, payload: OutPayload)

  /** A directory entry given to an evaluation loop: its name and the bytes `open(...).read()` returns. */
  datatype DirEntry = DirEntry(name: string, data: seq<bv8>)
}

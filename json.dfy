/**
 * JavaScript values as they arrive from `JSON.parse` and are sent by `JSON.stringify`,
 * with the operators the core applies to them: truthiness, `||`, property reads
 * and `String(v)`. Numbers are integers here.
 */
module Json {
  import opened Common
  import Text
  import Numerals

  datatype Value =
    | Null
    | Bool(b: bool)
    | Num(n: int)
    | Str(s: string)
    | Arr(items: seq<Value>)
    | Obj(fields: map<string, Value>)

  /**
   * `JSON.parse` (or `response.json()`): a value, or the message of the `SyntaxError` it throws.
   * The grammar itself is not modelled.
   */
  type Parser = string -> Result<Value, string>

  /** `String(err)` for a thrown error of the given class and message. */
  function ErrorString(name: string, message: string): (r: string)
    ensures r != ""
  {
    name + ": " + message
  }

  /** A JSON object `{error: message}`, the shape of every error reply. */
  function ErrorObject(message: string): (v: Value)
    ensures v.Obj? && v.fields.Keys == {"error"}
  {
    Obj(map["error" := Str(message)])
  }

  /** JavaScript truthiness of a defined value. */
  predicate Truthy(v: Value) {
    match v
    case Null => false
    case Bool(b) => b
    case Num(n) => n != 0
    case Str(s) => s != ""
    case _ => true
  }

  /** Truthiness of a value that may be `undefined` (None). */
  predicate Present(v: Option<Value>) {
    v.Some? && Truthy(v.value)
  }

  /** `v.key` or `v?.key` on a value that is not null: defined only on an object holding the key. */
  function Get(v: Value, key: string): (r: Option<Value>)
    ensures r.Some? <==> v.Obj? && key in v.fields
  {
    if v.Obj? && key in v.fields then Some(v.fields[key]) else None
  }

  /** `a || b`. */
  function Or(a: Option<Value>, b: Option<Value>): (r: Option<Value>)
    ensures Present(a) ==> r == a
    ensures !Present(a) ==> r == b
  {
    if Present(a) then a else b
  }

  /** `String(v)` for a defined value (arrays join their elements with ","). */
  function ToJsString(v: Value): string
    decreases v
  {
    match v
    case Null => "null"
    case Bool(b) => if b then "true" else "false"
    case Num(n) => Numerals.IntToString(n)
    case Str(s) => s
    case Arr(items) => Text.Join(ElementStrings(v, items), ",")
    case Obj(_) => "[object Object]"
  }

  /** Array elements as `Array.prototype.join` renders them: null becomes "". */
  function ElementStrings(v: Value, items: seq<Value>): (r: seq<string>)
    requires v.Arr? && items == v.items
    ensures |r| == |items|
    decreases v, 0
  {
    seq(|items|, i requires 0 <= i < |items| => if items[i] == Null then "" else ToJsString(items[i]))
  }

  /** `${x}` in a template literal, where `undefined` is rendered "undefined". */
  function Interpolate(v: Option<Value>): string {
    if v.None? then "undefined" else ToJsString(v.value)
  }


  /** The property `key: v` of an object literal, dropped by `JSON.stringify` when `v` is undefined. */
  function WithOptional(fields: map<string, Value>, key: string, v: Option<Value>): (r: map<string, Value>)
    ensures v.Some? ==> r == fields[key := v.value]
    ensures v.None? ==> r == fields - {key}
  {
    if v.Some? then fields[key := v.value] else fields - {key}
  }
}

/** The JSON-like value model the simulator works on: action trees, context
    values, HTTP bodies and headers are all values of this type. JavaScript's
    `undefined` is kept as a value of its own, because the source stores it in
    objects (`{ message: undefined }`) and tests for it. */
module Json {

  /** Numbers are integers here; see README, "Left out". */
  datatype Value =
    | Undefined
    | Null
    | Bool(b: bool)
    | Num(n: int)
    | Str(s: string)
    | Arr(items: seq<Value>)
    | Obj(fields: map<string, Value>)

  type Object = map<string, Value>

  /** `v == null || v == undefined`: the values whose properties cannot be read. */
  predicate Nullish(v: Value) {
    v.Undefined? || v.Null?
  }

  /** JavaScript truthiness: `undefined`, `null`, `false`, `0` and `""` are falsy. */
  predicate Truthy(v: Value) {
    match v
    case Undefined => false
    case Null => false
    case Bool(b) => b
    case Num(n) => n != 0
    case Str(s) => s != ""
    case Arr(_) => true
    case Obj(_) => true
  }

  /** Property read `v[key]` on a value that is not nullish: own fields of an
      object, `undefined` for a missing field and for every other kind of value. */
  function Get(v: Value, key: string): (r: Value)
  {
    if v.Obj? && key in v.fields then v.fields[key] else Undefined
  }

  /** A destructuring default: `{ x = d }` replaces only `undefined`. */
  function OrDefault(v: Value, d: Value): (r: Value)
  {
    if v.Undefined? then d else v
  }

  /** `v || d`: the value itself when truthy, the fallback otherwise. */
  function OrElse(v: Value, d: Value): (r: Value)
  {
    if Truthy(v) then v else d
  }

  function DigitChar(d: nat): (c: char)
    requires d < 10
  {
    "0123456789"[d]
  }

  function NatToString(n: nat): (r: string)
    ensures |r| > 0
    decreases n
  {
    if n < 10 then [DigitChar(n)] else NatToString(n / 10) + [DigitChar(n % 10)]
  }

  /** Decimal text of an integer, as `String(n)` writes it. */
  function IntToString(n: int): (r: string) {
    if n < 0 then "-" + NatToString(-n) else NatToString(n)
  }

  function Join(parts: seq<string>, sep: string): (r: string)
    decreases |parts|
  {
    if |parts| == 0 then ""
    else if |parts| == 1 then parts[0]
    else parts[0] + sep + Join(parts[1..], sep)
  }

  /** `String(v)`, which is also what a template literal `${v}` and a property
      key `obj[v]` turn a value into. Array elements that are nullish print as
      the empty string; every plain object prints as `[object Object]`. */
  function ToJsString(v: Value): (r: string)
    decreases v
  {
    match v
    case Undefined => "undefined"
    case Null => "null"
    case Bool(b) => if b then "true" else "false"
    case Num(n) => IntToString(n)
    case Str(s) => s
    case Arr(xs) =>
      Join(seq(|xs|, i requires 0 <= i < |xs| => if Nullish(xs[i]) then "" else ToJsString(xs[i])), ",")
    case Obj(_) => "[object Object]"
  }

  /** The message of the TypeError raised by reading a property of `null` or `undefined`. */
  function ReadError(v: Value, property: string): (r: Value)
    requires Nullish(v)
  {
    Str("Cannot read properties of " + ToJsString(v) + " (reading '" + property + "')")
  }
}

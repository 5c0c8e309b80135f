/** JavaScript values as the handler in api/generate.js observes them: the
    request body, the values JSON.parse produces and the Gemini response. */
module JsValues {

  datatype Option<+T> = None | Some(value: T)

  /** A JavaScript value. Numbers are reals: NaN cannot come out of
      JSON.parse, and an infinity (from "1e999") stands as any non-zero `Num`,
      since the handler looks at numbers only through truthiness and
      parseInt. Objects are maps from property names to values (JSON.parse
      keeps the last of duplicate keys). */
  datatype JsValue =
    | Undefined
    | Null
    | Bool(b: bool)
    | Num(x: real)
    | Str(s: string)
    | Arr(items: seq<JsValue>)
    | Obj(fields: map<string, JsValue>)

  /** An exception value: its `name` and its `message`. */
  datatype JsError = JsError(name: string, message: string)

  /** JSON.parse, taken as given: None stands for the SyntaxError it throws. */
  type Parser = string -> Option<JsValue>

  /** `!v` in JavaScript. */
  predicate Falsy(v: JsValue) {
    match v
    case Undefined => true
    case Null => true
    case Bool(b) => !b
    case Num(x) => x == 0.0
    case Str(s) => s == ""
    case _ => false
  }

  /** `typeof v === 'object'`, which holds of null, arrays and objects. */
  predicate IsTypeofObject(v: JsValue) {
    v.Null? || v.Arr? || v.Obj?
  }

  /** Reading a property named `key` from a value that is neither null nor
      undefined (reading from those throws a TypeError; callers decide).
      `key` is one of the handler's own names ("topic", "total", "slides",
      "candidates", ...), none of which is a built-in property of strings,
      numbers, booleans or arrays, so only objects can hold it. */
  function Get(v: JsValue, key: string): (r: JsValue)
    requires !v.Undefined? && !v.Null?
    ensures !v.Obj? ==> r == Undefined
    ensures v.Obj? ==> (r == if key in v.fields then v.fields[key] else Undefined)
  {
    if v.Obj? && key in v.fields then v.fields[key] else Undefined
  }

  /** `v?.[0]`: the first element of an array, the first character of a
      string, the property "0" of an object; undefined when there is none or
      when `v` is null or undefined. */
  function FirstOf(v: JsValue): (r: JsValue)
    ensures v.Arr? && |v.items| > 0 ==> r == v.items[0]
    ensures v.Str? && |v.s| > 0 ==> r == Str([v.s[0]])
    ensures (v.Arr? && |v.items| == 0) || (v.Str? && |v.s| == 0) ==> r == Undefined
    ensures v.Obj? ==> r == (if "0" in v.fields then v.fields["0"] else Undefined)
    ensures !v.Arr? && !v.Str? && !v.Obj? ==> r == Undefined
  {
    match v
    case Arr(items) => if |items| > 0 then items[0] else Undefined
    case Str(s) => if |s| > 0 then Str([s[0]]) else Undefined
    case Obj(fields) => if "0" in fields then fields["0"] else Undefined
    case _ => Undefined
  }

  /** `v?.key`: undefined when `v` is null or undefined, a property read otherwise. */
  function Member(v: JsValue, key: string): (r: JsValue)
    ensures v.Undefined? || v.Null? ==> r == Undefined
    ensures !v.Undefined? && !v.Null? ==> r == Get(v, key)
  {
    if v.Undefined? || v.Null? then Undefined else Get(v, key)
  }
}

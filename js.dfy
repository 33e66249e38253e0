/** Values as the JavaScript code sees them: the optional value, the untyped
    value that comes out of a JSON response, and the truthiness rules that the
    `||`, `??` and `!!` operators of the source rely on. */
module Js {

  datatype Option<+T> = None | Some(value: T) {
    function GetOr(default: T): T {
      match this
      case Some(v) => v
      case None => default
    }
  }

  /** A value decoded from JSON, plus `undefined` and the NaN number.
      `Num` holds a finite number; `NaN` is the one non-finite number the
      modelled code can meet. */
  datatype JsValue =
    | Undefined
    | Null
    | Bool(b: bool)
    | Num(n: real)
    | NaN
    | Str(s: string)
    | Arr(elems: seq<JsValue>)
    | Obj(fields: map<string, JsValue>)

  /** JavaScript truthiness: `undefined`, `null`, `false`, `0`, `NaN` and `""`
      are falsy; everything else, including every array and object, is truthy. */
  predicate Truthy(v: JsValue) {
    match v
    case Undefined => false
    case Null => false
    case Bool(b) => b
    case Num(n) => n != 0.0
    case NaN => false
    case Str(s) => s != ""
    case Arr(_) => true
    case Obj(_) => true
  }

  /** `a || b` */
  function Or(a: JsValue, b: JsValue): JsValue {
    if Truthy(a) then a else b
  }

  predicate IsNullish(v: JsValue) {
    v == Undefined || v == Null
  }

  /** `a ?? b` */
  function Coalesce(a: JsValue, b: JsValue): JsValue {
    if IsNullish(a) then b else a
  }

  /** A JavaScript object held as a key-to-value map: `m.key` is
      `Get(m, "key")`, `{ ...m, key: v }` is `m["key" := v]`, and
      `const { key, ...rest } = m` leaves `rest == m - {"key"}`. */
  type Record = map<string, JsValue>

  /** `obj.key` on a decoded value: a missing key, and any key of a non-object,
      reads as `undefined`. */
  function Prop(v: JsValue, key: string): JsValue {
    if v.Obj? && key in v.fields then v.fields[key] else Undefined
  }

  /** `m.key` */
  function Get(m: Record, key: string): JsValue {
    if key in m then m[key] else Undefined
  }

  /** `typeof v === 'number'` (true for NaN as well). */
  predicate IsNumber(v: JsValue) {
    v.Num? || v.NaN?
  }
}

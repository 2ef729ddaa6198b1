/**
 * JavaScript values as they appear in the properties of a decoded activity
 * record, with the parts of JavaScript's semantics the application relies on:
 * truthiness, `typeof x === "number"`, nullish coalescing, numeric coercion for
 * `-` and the relational operators, and `new Date(x).getTime()`.
 */
module JsValue {

  datatype Option<+T> = None | Some(value: T)

  /** A JavaScript number other than an infinity: a finite value, or NaN. */
  datatype Number = Finite(v: real) | NaN

  /** The time sentinels `Infinity` and `-Infinity` next to finite times. */
  datatype Extended = NegInfinity | Real(r: real) | PosInfinity

  /** A property value; `Date(t)` is a Date object whose time value is `t` milliseconds. */
  datatype Value =
    | Undefined
    | Null
    | Num(n: Number)
    | Str(s: string)
    | Date(time: Number)

  /** A record: property name to value. A name outside the map reads as `undefined`. */
  type Record = map<string, Value>

  /** `r[k]` */
  function Get(r: Record, k: string): Value
  {
    if k in r then r[k] else Undefined
  }

  /** JavaScript truthiness: `undefined`, `null`, `0`, `NaN` and `""` are falsy. */
  predicate Truthy(v: Value)
  {
    match v
    case Undefined => false
    case Null => false
    case Num(n) => n.Finite? && n.v != 0.0
    case Str(s) => s != ""
    case Date(_) => true
  }

  /** `typeof v === "number"`, which holds of NaN too. */
  predicate IsNumber(v: Value)
  {
    v.Num?
  }

  /** `typeof v === "number" && !isNaN(v)` */
  predicate IsValidNumber(v: Value)
  {
    v.Num? && v.n.Finite?
  }

  /** `v ?? d` */
  function OrElse(v: Value, d: Value): Value
  {
    if v.Undefined? || v.Null? then d else v
  }

  /**
   * The number an operand of `-`, `<` or `>=` turns into. A Date yields its
   * time value; string operands are not given a numeric reading (see README).
   */
  function ToNumber(v: Value): Number
  {
    match v
    case Undefined => NaN
    case Null => Finite(0.0)
    case Num(n) => n
    case Str(_) => NaN
    case Date(t) => t
  }

  /** `v || 0` read as a number */
  function OrZero(v: Value): Number
  {
    if Truthy(v) then ToNumber(v) else Finite(0.0)
  }

  function Add(a: Number, b: Number): Number
  {
    if a.Finite? && b.Finite? then Finite(a.v + b.v) else NaN
  }

  function Sub(a: Number, b: Number): Number
  {
    if a.Finite? && b.Finite? then Finite(a.v - b.v) else NaN
  }

  function Div(a: Number, d: real): Number
    requires d != 0.0
  {
    if a.Finite? then Finite(a.v / d) else NaN
  }

  /** `a <= b`; false whenever either side is NaN. */
  predicate Le(a: Number, b: Number)
  {
    a.Finite? && b.Finite? && a.v <= b.v
  }

  /** `lo <= t && t <= hi`, the inclusive range test used by every selection. */
  predicate InRange(t: Number, lo: Number, hi: Number)
  {
    Le(lo, t) && Le(t, hi)
  }

  /** `Math.trunc` */
  function Trunc(x: real): int
  {
    if x >= 0.0 then x.Floor else -((-x).Floor)
  }

  /** The largest time value a Date may hold, in milliseconds. */
  const MaxTimeValue: real := 8640000000000000.0

  /** TimeClip: out-of-range or NaN times become NaN, others are truncated to whole milliseconds. */
  function TimeClip(t: Number): Number
  {
    if t.NaN? || t.v > MaxTimeValue || t.v < -MaxTimeValue then NaN
    else Finite(Trunc(t.v) as real)
  }

  /** Parsing of a date string (`Date.parse`), which the model leaves uninterpreted. */
  type DateParser = string -> Number

  /** `new Date(v).getTime()` */
  function DateTime(v: Value, parseDate: DateParser): Number
  {
    match v
    case Undefined => NaN
    case Null => Finite(0.0)
    case Num(n) => TimeClip(n)
    case Str(s) => TimeClip(parseDate(s))
    case Date(t) => t
  }
}

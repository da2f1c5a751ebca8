/**
  The slice of JavaScript value semantics the request handlers depend on: truthiness, `||`,
  `??`, optional property access, object spread, `Number(v)` and `String(v)`.
  Parsing a numeric string, rendering a non-integral number and `JSON.parse` belong to the
  JavaScript engine; they are supplied as the fields of a `Runtime`.
 */
module JsValues {
  import opened Text

  /** An IEEE double as far as the handlers observe it: finite, NaN or an infinity. */
  datatype JsNumber = Finite(value: real) | NaN | Infinity(negative: bool)

  /** JSON-shaped JavaScript values. Arrays are not represented. */
  datatype JsVal =
    | Undefined
    | Null
    | Bool(b: bool)
    | Num(n: JsNumber)
    | Str(s: string)
    | Obj(fields: map<string, JsVal>)

  datatype ParseOutcome = Parsed(value: JsVal) | SyntaxError(message: string)

  /** Engine services the model does not re-implement. */
  datatype Runtime = Runtime(
    numberOfString: string -> JsNumber,   // `Number(s)` for a string
    fractionText: real -> string,         // `String(x)` for a non-integral or huge finite x
    parseJson: string -> ParseOutcome)    // `JSON.parse`

  predicate Truthy(v: JsVal) {
    match v
    case Undefined => false
    case Null => false
    case Bool(b) => b
    case Num(n) => n.Infinity? || (n.Finite? && n.value != 0.0)
    case Str(s) => s != ""
    case Obj(_) => true
  }

  predicate Nullish(v: JsVal) {
    v.Undefined? || v.Null?
  }

  /** `a || b`. */
  function Or(a: JsVal, b: JsVal): JsVal {
    if Truthy(a) then a else b
  }

  /** `vs[0] ?? vs[1] ?? ...`: the first value that is neither null nor undefined, else the last. */
  function Coalesce(vs: seq<JsVal>): (r: JsVal)
    requires |vs| > 0
    ensures r in vs
    ensures forall i :: 0 <= i < |vs| && !Nullish(vs[i]) && (forall j :: 0 <= j < i ==> Nullish(vs[j])) ==> r == vs[i]
    ensures (forall i :: 0 <= i < |vs| ==> Nullish(vs[i])) ==> r == vs[|vs| - 1]
  {
    if |vs| == 1 || !Nullish(vs[0]) then vs[0] else Coalesce(vs[1..])
  }

  /** `v?.key`: an own property of an object, `undefined` for everything else. */
  function Get(v: JsVal, key: string): JsVal {
    if v.Obj? && key in v.fields then v.fields[key] else Undefined
  }

  /** The properties `{...v}` copies. Spreading a string copies its index keys, which no
      handler reads, so they are left out. */
  function OwnFields(v: JsVal): map<string, JsVal> {
    if v.Obj? then v.fields else map[]
  }

  /** `{...a, ...b}`: the later object's keys win. */
  function Merge(a: JsVal, b: JsVal): (r: JsVal)
    ensures r.Obj?
    ensures forall k :: Get(r, k) == if k in OwnFields(b) then Get(b, k) else Get(a, k)
  {
    Obj(OwnFields(a) + OwnFields(b))
  }

  /** `Number(v)`. */
  function ToNumber(rt: Runtime, v: JsVal): JsNumber {
    match v
    case Undefined => NaN
    case Null => Finite(0.0)
    case Bool(b) => Finite(if b then 1.0 else 0.0)
    case Num(n) => n
    case Str(s) => rt.numberOfString(s)
    case Obj(_) => NaN
  }

  /** `Number.isFinite(n)`. */
  predicate IsFinite(n: JsNumber) {
    n.Finite?
  }

  /** `n > 0`; false for NaN. */
  predicate Positive(n: JsNumber) {
    (n.Finite? && n.value > 0.0) || n == Infinity(false)
  }

  /** `n < bound` and `n > bound` against a finite bound; both false for NaN. */
  predicate Below(n: JsNumber, bound: real) {
    (n.Finite? && n.value < bound) || n == Infinity(true)
  }

  predicate Above(n: JsNumber, bound: real) {
    (n.Finite? && n.value > bound) || n == Infinity(false)
  }

  /** Integral values below 10^21 in magnitude print as plain decimal integers. */
  predicate PrintsAsInteger(x: real) {
    x == x.Floor as real && -1_000_000_000_000_000_000_000.0 < x < 1_000_000_000_000_000_000_000.0
  }

  /** `String(n)` for a number. */
  function NumberText(rt: Runtime, n: JsNumber): string {
    match n
    case NaN => "NaN"
    case Infinity(negative) => if negative then "-Infinity" else "Infinity"
    case Finite(x) => if PrintsAsInteger(x) then IntText(x.Floor) else rt.fractionText(x)
  }

  /** `String(v)`. */
  function ToText(rt: Runtime, v: JsVal): string {
    match v
    case Undefined => "undefined"
    case Null => "null"
    case Bool(b) => if b then "true" else "false"
    case Num(n) => NumberText(rt, n)
    case Str(s) => s
    case Obj(_) => "[object Object]"
  }

  /** `String(v || '')`: what the normalisers read; every falsy value reads as "". */
  function TextOr(rt: Runtime, v: JsVal): (r: string)
    ensures !Truthy(v) ==> r == ""
    ensures Truthy(v) ==> r == ToText(rt, v)
    ensures v.Str? ==> r == v.s
  {
    ToText(rt, Or(v, Str("")))
  }
}

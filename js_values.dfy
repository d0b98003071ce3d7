/** Values as the JavaScript runtime and the document store hand them to the
    analytics code: optional values, schema fields that may be missing or
    explicitly null, dynamically typed property values, and IEEE numbers
    where a division by zero can yield NaN or an infinity. */
module JsValues {

  datatype Option<+T> = None | Some(value: T) {
    function GetOr(default: T): T {
      match this
      case Some(v) => v
      case None => default
    }
  }

  /** What schema validation makes of a submitted document: the document to
      store, or the validators' messages. */
  datatype Result<T> = Ok(value: T) | Invalid(messages: seq<string>)

  /** A document field that may be missing, stored as an explicit `null`, or hold a value.
      `$exists: true` keeps `Null` and `Present`; `$ne: null` keeps only `Present`. */
  datatype Field<+T> = Absent | Null | Present(value: T) {
    predicate Exists() { !Absent? }
    predicate NotNull() { Present? }
  }

  /** A dynamically typed value held in an open-ended object such as `properties`. */
  datatype Value =
    | Undefined
    | NullValue
    | Bool(b: bool)
    | Number(n: real)
    | Str(s: string)
    | Obj(fields: map<string, Value>)
  {
    /** Neither `null` nor `undefined`. */
    predicate IsPresent() { !Undefined? && !NullValue? }
  }

  /** A JavaScript number where it matters that it may be NaN or infinite. */
  datatype Num = Finite(r: real) | NaN | PosInf | NegInf

  /** The IEEE quotient `a / b`: finite unless the divisor is zero. */
  function Div(a: real, b: real): (q: Num)
    ensures b != 0.0 <==> q.Finite?
    ensures b != 0.0 ==> q.r * b == a
    ensures b == 0.0 && a == 0.0 <==> q.NaN?
    ensures b == 0.0 && a > 0.0 <==> q.PosInf?
  {
    if b != 0.0 then Finite(a / b)
    else if a > 0.0 then PosInf
    else if a < 0.0 then NegInf
    else NaN
  }

  /** The least integer not below `r` (`Math.ceil` on a finite number). */
  function CeilReal(r: real): (c: int)
    ensures c as real - 1.0 < r <= c as real
  {
    -((-r).Floor)
  }

  /** `Math.ceil` on a JavaScript number. */
  function Ceil(x: Num): (c: Num)
    ensures x.Finite? <==> c.Finite?
    ensures x.Finite? ==> c.r - 1.0 < x.r <= c.r && c.r == c.r.Floor as real
    ensures !x.Finite? ==> c == x
  {
    match x
    case Finite(r) => Finite(CeilReal(r) as real)
    case _ => x
  }

  /** The comparison `a < x` when `x` may be NaN or infinite. */
  predicate LessThan(a: real, x: Num) {
    match x
    case Finite(r) => a < r
    case PosInf => true
    case NegInf => false
    case NaN => false
  }
}

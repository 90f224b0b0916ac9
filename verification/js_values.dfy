/** The JavaScript values an options object can hold, and the pieces of
    JavaScript semantics the validator relies on: `typeof`, strict equality
    (as used by `===` and `Array.prototype.includes`), the numeric coercion
    behind `<=`/`>=`, and the upper-casing of a type name's first letter. */
module JsValues {
  import opened Outcomes

  /** A JSON-like JavaScript value. Numbers are integers. An object's
      properties are listed in enumeration (`for...in`) order; a JavaScript
      object never repeats a key. */
  datatype Value =
    | Undefined
    | Null
    | Bool(b: bool)
    | Num(n: int)
    | Str(s: string)
    | Arr(items: seq<Value>)
    | Obj(props: seq<Prop>)

  datatype Prop = Prop(key: string, val: Value)

  /** Values for which `typeof` answers "object": null, arrays and objects. */
  predicate IsObjectTyped(v: Value)
  {
    v.Null? || v.Arr? || v.Obj?
  }

  /** Values that JavaScript compares by identity rather than by content. */
  predicate IsReference(v: Value)
  {
    v.Arr? || v.Obj?
  }

  /** A value `typeof` does not classify as "object". */
  type Primitive = v: Value | !IsObjectTyped(v) witness Undefined

  /** JavaScript's `typeof` operator. */
  function TypeOf(v: Value): (r: string)
    ensures r == "object" <==> IsObjectTyped(v)
    ensures r in {"undefined", "object", "boolean", "number", "string"}
  {
    match v
    case Undefined => "undefined"
    case Null => "object"
    case Bool(_) => "boolean"
    case Num(_) => "number"
    case Str(_) => "string"
    case Arr(_) => "object"
    case Obj(_) => "object"
  }

  /** `a === b`, which is also the element test of `includes` (SameValueZero;
      the two differ only on NaN, which integers never are). Arrays and
      objects are equal only to themselves, and a template and an options
      value never share one, so two references are never equal here. */
  function StrictEquals(a: Value, b: Value): (r: bool)
    ensures r ==> a == b
    ensures !IsReference(a) ==> (r <==> a == b)
    ensures IsReference(a) || IsReference(b) ==> !r
  {
    !IsReference(a) && a == b
  }

  /** The ToNumber coercion a relational operator applies to its operand;
      `None` stands for NaN, which makes every comparison false. */
  function ToNumber(v: Value): (r: Option<int>)
    ensures v.Num? ==> r == Some(v.n)
    ensures v.Bool? ==> r == Some(if v.b then 1 else 0)
    ensures v.Null? ==> r == Some(0)
    ensures v.Undefined? || v.Str? || IsReference(v) ==> r.None?
  {
    match v
    case Num(n) => Some(n)
    case Bool(b) => Some(if b then 1 else 0)
    case Null => Some(0)
    case _ => None
  }

  /** `bound <= v` with `bound` a number. */
  predicate BoundAtMost(bound: int, v: Value)
  {
    ToNumber(v).Some? && bound <= ToNumber(v).value
  }

  /** `bound >= v` with `bound` a number. */
  predicate BoundAtLeast(bound: int, v: Value)
  {
    ToNumber(v).Some? && ToNumber(v).value <= bound
  }

  /** `c.toUpperCase()` for a single character (ASCII letters only). */
  function UpperChar(c: char): char
  {
    if 'a' <= c <= 'z' then (c as int - 32) as char else c
  }

  /** `s[0].toUpperCase() + s.slice(1)`, which needs a non-empty `s`
      (on "" the index yields undefined and the call throws). */
  function Capitalize(s: string): (r: string)
    requires |s| > 0
    ensures |r| == |s|
    ensures r[1..] == s[1..]
    ensures 'a' <= s[0] <= 'z' ==> 'A' <= r[0] <= 'Z' && r[0] as int == s[0] as int - 32
    ensures !('a' <= s[0] <= 'z') ==> r == s
  {
    [UpperChar(s[0])] + s[1..]
  }
}

/** JavaScript values as the modelled code observes them: JSON-like data (numbers are
    integers here), truthiness, the `||` operator, property access with `.` and `?.`,
    and the conversion a template literal applies to an interpolated value. */
module JsValues {
  import opened JsStrings

  datatype JsValue =
    | Undefined
    | Null
    | Bool(b: bool)
    | Num(n: int)
    | Str(s: string)
    | Obj(props: map<string, JsValue>)

  /** The falsy values of the modelled data: `undefined`, `null`, `false`, `0` and `''`. */
  const Falsy: set<JsValue> := {Undefined, Null, Bool(false), Num(0), Str("")}

  /** What `if (v)`, `!v` and `||` test: exactly the values outside `Falsy` are truthy. */
  predicate Truthy(v: JsValue)
    ensures Truthy(v) <==> v !in Falsy
  {
    match v
    case Undefined => false
    case Null => false
    case Bool(b) => b
    case Num(n) => n != 0
    case Str(s) => s != ""
    case Obj(_) => true
  }

  /** `a || b`. */
  function Or(a: JsValue, b: JsValue): (r: JsValue)
    ensures Truthy(a) ==> r == a
    ensures !Truthy(a) ==> r == b
    ensures Truthy(r) <==> Truthy(a) || Truthy(b)
  {
    if Truthy(a) then a else b
  }

  /** The outcome of a property read with `.`: reading from `undefined` or `null` throws a TypeError. */
  datatype Access = Value(v: JsValue) | TypeError

  /** `obj.key`. A primitive has none of the property names the modelled code reads. */
  function Prop(obj: JsValue, key: string): (r: Access)
    ensures r == TypeError <==> obj in {Undefined, Null}
    ensures obj.Obj? && key in obj.props ==> r == Value(obj.props[key])
    ensures obj.Obj? && key !in obj.props ==> r == Value(Undefined)
  {
    match obj
    case Undefined => TypeError
    case Null => TypeError
    case Obj(props) => Value(if key in props then props[key] else Undefined)
    case _ => Value(Undefined)
  }

  /** `obj?.key`: `undefined` instead of a TypeError. */
  function OptProp(obj: JsValue, key: string): (r: JsValue)
    ensures Prop(obj, key).Value? ==> r == Prop(obj, key).v
    ensures obj in {Undefined, Null} ==> r == Undefined
  {
    match Prop(obj, key)
    case TypeError => Undefined
    case Value(v) => v
  }

  /** The text a template literal `${v}` inserts for `v` (a plain object, not an array, for `Obj`). */
  function ToText(v: JsValue): (r: string)
    ensures v.Str? ==> r == v.s
    ensures !v.Str? ==> r != []
  {
    match v
    case Undefined => "undefined"
    case Null => "null"
    case Bool(b) => if b then "true" else "false"
    case Num(n) => IntText(n)
    case Str(s) => s
    case Obj(_) => "[object Object]"
  }
}

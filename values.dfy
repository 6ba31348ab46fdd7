/**
  The JavaScript values the helpers work on, and the recursive deep copy
  (`deepClone`) that the array helpers use to copy what they store.

  A value is a primitive, an array of values, or a plain object mapping its
  own enumerable string keys to values. The datatype is finite and acyclic
  by construction.
 */
module Values {

  /** JavaScript primitives. Numbers are modelled as mathematical integers. */
  datatype Prim =
    | Undefined
    | Null
    | Bool(b: bool)
    | Num(n: int)
    | Str(s: string)

  /** A JavaScript value: a primitive, an array, or a plain object. */
  datatype Value =
    | Scalar(p: Prim)
    | Arr(elems: seq<Value>)
    | Obj(props: map<string, Value>)

  const undefined: Value := Scalar(Undefined)

  /**
    ECMAScript ToBoolean: what `if (x)` and `x || y` test. The falsy values
    are exactly undefined, null, false, 0 and the empty string.
   */
  predicate Truthy(v: Value)
    ensures !Truthy(v) <==> v in {undefined, Scalar(Null), Scalar(Bool(false)), Scalar(Num(0)), Scalar(Str(""))}
  {
    match v
    case Scalar(Undefined) => false
    case Scalar(Null) => false
    case Scalar(Bool(b)) => b
    case Scalar(Num(n)) => n != 0
    case Scalar(Str(s)) => s != ""
    case Arr(_) => true
    case Obj(_) => true
  }

  /** The tag `Object.prototype.toString.call(v)` returns. */
  function ToStringTag(v: Value): (t: string)
    ensures t == "[object Array]" <==> v.Arr?
    ensures t == "[object Object]" <==> v.Obj?
  {
    match v
    case Scalar(Undefined) => "[object Undefined]"
    case Scalar(Null) => "[object Null]"
    case Scalar(Bool(_)) => "[object Boolean]"
    case Scalar(Num(_)) => "[object Number]"
    case Scalar(Str(_)) => "[object String]"
    case Arr(_) => "[object Array]"
    case Obj(_) => "[object Object]"
  }

  /**
    `deepClone`: a primitive (including null) is returned as it is; an array
    becomes a fresh array holding the clone of each element at the same
    index; any other object becomes a fresh plain object holding a clone of
    the value under each of its own keys. The clone is structurally equal to
    the input.
   */
  function DeepClone(v: Value): (r: Value)
    ensures r == v
  {
    match v
    case Scalar(_) => v
    case Arr(elems) =>
      var target := seq(|elems|, i requires 0 <= i < |elems| => DeepClone(elems[i]));
      assert target == elems;
      Arr(target)
    case Obj(props) =>
      var target := map k | k in props :: DeepClone(props[k]);
      assert target == props;
      Obj(target)
  }
}

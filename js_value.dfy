/** The JavaScript values that API records and template arguments carry, with the
    three language rules the view helpers lean on: truthiness (and so `a || b`),
    property reads that throw on `null` and `undefined`, and conversion to a
    string by `+`. Numbers are integral here. */
module JsValue {
  import opened Wrappers
  import Decimal

  datatype Value =
    | Undefined
    | Null
    | Bool(b: bool)
    | Num(n: int)
    | Str(s: string)
    | Arr(items: seq<Value>)
    | Obj(props: map<string, Value>)

  /** The one exception the modelled code can raise: reading a property of `null` or `undefined`. */
  datatype JsError = TypeError

  /** Whatever was thrown, it was a `TypeError`. */
  lemma OnlyTypeError(e: JsError)
    ensures e == TypeError
  {
    match e
    case TypeError =>
  }

  predicate Truthy(v: Value)
  {
    match v
    case Undefined => false
    case Null => false
    case Bool(b) => b
    case Num(n) => n != 0
    case Str(s) => s != ""
    case Arr(_) => true
    case Obj(_) => true
  }

  /** The falsy values are exactly `undefined`, `null`, `false`, `0` and `''`
      (NaN is not an integer here); every array and object is truthy, even an empty one. */
  lemma FalsyValues(v: Value)
    ensures !Truthy(v) <==> v in {Undefined, Null, Bool(false), Num(0), Str("")}
  {
  }

  /** `a || b` */
  function Or(a: Value, b: Value): Value
  {
    if Truthy(a) then a else b
  }

  /** `v.key`: own properties of objects, `length` of strings and arrays, `undefined` otherwise.
      Inherited properties (`constructor`, `toString`) and array indices are not modelled;
      the code modelled here never reads such keys. */
  function Get(v: Value, key: string): (r: Result<Value, JsError>)
    ensures r.Err? <==> v.Undefined? || v.Null?
    ensures v.Obj? && key in v.props ==> r == Ok(v.props[key])
    ensures r.Ok? && !(v.Obj? && key in v.props) && key != "length" ==> r == Ok(Undefined)
  {
    match v
    case Undefined => Err(TypeError)
    case Null => Err(TypeError)
    case Obj(props) => Ok(if key in props then props[key] else Undefined)
    case Str(s) => Ok(if key == "length" then Num(|s|) else Undefined)
    case Arr(items) => Ok(if key == "length" then Num(|items|) else Undefined)
    case _ => Ok(Undefined)
  }

  /** `v.key` for a value known to be neither null nor undefined. */
  function Prop(v: Value, key: string): Value
    requires !v.Undefined? && !v.Null?
  {
    Get(v, key).value
  }

  /** What `for (i = 0; i < v.length; i++) { v[i] ... }` visits: the items of an array,
      the one-character strings of a string, nothing for a value without a numeric
      `length`; reading `length` of `null` or `undefined` throws. */
  function Elements(v: Value): (r: Result<seq<Value>, JsError>)
    ensures r.Err? <==> v.Undefined? || v.Null?
    ensures v.Arr? ==> r == Ok(v.items)
    ensures v.Str? ==> r.Ok? && |r.value| == |v.s|
    ensures !v.Arr? && !v.Str? && r.Ok? ==> r.value == []
  {
    match v
    case Undefined => Err(TypeError)
    case Null => Err(TypeError)
    case Arr(items) => Ok(items)
    case Str(s) => Ok(seq(|s|, i requires 0 <= i < |s| => Str([s[i]])))
    case _ => Ok([])
  }

  /** `'' + v`: the string a value turns into when concatenated. */
  function ToJsString(v: Value): (r: string)
    ensures v.Str? ==> r == v.s
    ensures v.Num? ==> Decimal.ParseInt(r) == Some(v.n)
    ensures v.Undefined? ==> r == "undefined"
  {
    match v
    case Undefined => "undefined"
    case Null => "null"
    case Bool(b) => if b then "true" else "false"
    case Num(n) =>
      Decimal.ParseIntRoundTrip(n);
      Decimal.IntToString(n)
    case Str(s) => s
    case Arr(items) => JoinItems(items, v)
    case Obj(_) => "[object Object]"
  }

  /** `items.join(',')`, where `null` and `undefined` items print as nothing. */
  function JoinItems(items: seq<Value>, ghost whole: Value): string
    requires whole.Arr? && items <= whole.items
    decreases whole, |items|
  {
    if items == [] then ""
    else
      var last := items[|items| - 1];
      assert last in whole.items;
      var text := if last.Null? || last.Undefined? then "" else ToJsString(last);
      if |items| == 1 then text else JoinItems(items[..|items| - 1], whole) + "," + text
  }

  /** `v || ''`, the defaulting idiom of the view builders. */
  function OrBlank(v: Value): (r: Value)
    ensures r == v || r == Str("")
    ensures Truthy(r) || r == Str("")
    ensures Truthy(v) <==> r == v && r != Str("")
  {
    Or(v, Str(""))
  }
}

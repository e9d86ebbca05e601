/** The Python values a VLP message is made of (the JSON data model), and the
    built-ins the runtime applies to them: truthiness, dict.get, float() and
    whether str() of a value spells a capital letter. */
module Values {
  import opened Text

  datatype Value =
    | Null                          // None
    | Bool(b: bool)
    | Num(r: real)                  // an int or a float
    | Str(s: string)
    | List(items: seq<Value>)
    | Dict(entries: map<string, Value>)

  datatype Option<T> = None | Some(value: T)

  /** The exceptions the modelled code raises. */
  datatype Exception = ValueError(message: string) | TypeError(message: string)

  /** A return value, or the exception raised instead. */
  datatype Result<T> = Ok(value: T) | Raise(error: Exception)

  /** bool(v): None, False, zero and empty containers are falsy. */
  predicate Truthy(v: Value) {
    match v
    case Null => false
    case Bool(b) => b
    case Num(r) => r != 0.0
    case Str(s) => s != ""
    case List(items) => items != []
    case Dict(entries) => entries != map[]
  }

  /** d.get(k, default) */
  function GetOr(d: map<string, Value>, k: string, default: Value): Value {
    if k in d then d[k] else default
  }

  /** float(v): numbers convert to themselves and booleans to 1.0 and 0.0;
      None, lists and dicts raise TypeError. Strings raise ValueError: the
      parsing of numeric strings is not modelled. */
  function Float(v: Value): (r: Result<real>)
    ensures r.Ok? <==> v.Num? || v.Bool?
    ensures v.Num? ==> r == Ok(v.r)
  {
    match v
    case Num(x) => Ok(x)
    case Bool(b) => Ok(if b then 1.0 else 0.0)
    case Str(_) => Raise(ValueError("could not convert string to float"))
    case _ => Raise(TypeError("float() argument must be a string or a real number"))
  }

  /** Whether str(v) holds a capital letter. repr() of a nested value differs
      from str() only by the quotes around strings, so one definition serves
      both: None, True and False are spelled with a capital, numbers never
      are, strings and dict keys have one when their letters do. */
  predicate RendersUpper(v: Value)
    decreases v
  {
    match v
    case Null => true
    case Bool(_) => true
    case Num(_) => false
    case Str(s) => HasUpper(s)
    case List(items) => exists i :: 0 <= i < |items| && RendersUpper(items[i])
    case Dict(m) => exists k :: k in m && (HasUpper(k) || RendersUpper(m[k]))
  }

  /** A list of strings as a Python list value. */
  function StrList(ss: seq<string>): (v: Value)
    ensures v.List? && |v.items| == |ss|
    ensures forall i :: 0 <= i < |ss| ==> v.items[i] == Str(ss[i])
  {
    List(seq(|ss|, i requires 0 <= i < |ss| => Str(ss[i])))
  }
}

/** The decoded JSON body of a provider response, as the Python objects
    `response.json()` produces, together with the handful of Python
    operations the front-ends apply to it (`x['key']`, `x[0]`, `round(x)`,
    `x.title()`). Each operation either yields a value or the exception
    Python would raise, carrying that exception's `str(e)`. */
module JsonTree {
  import opened Outcomes
  import opened Text
  import opened Numeric

  /** JSON integers and fractions decode to distinct Python types (`int`
      and `float`); both are kept. Objects are `dict`s keyed by strings. */
  datatype Json =
    | JNull
    | JBool(b: bool)
    | JInt(i: int)
    | JFloat(x: real)
    | JStr(s: string)
    | JArr(items: seq<Json>)
    | JObj(fields: map<string, Json>)

  /** The Python type name of a decoded value, as error messages show it. */
  function TypeName(j: Json): string {
    match j
    case JNull => "NoneType"
    case JBool(_) => "bool"
    case JInt(_) => "int"
    case JFloat(_) => "float"
    case JStr(_) => "str"
    case JArr(_) => "list"
    case JObj(_) => "dict"
  }

  /** Python truthiness (`if value:`): the falsy values are exactly `None`,
      `False`, the zeros and the empty string, list and dict. */
  predicate Truthy(j: Json)
    ensures Truthy(j) <==>
      j !in {JNull, JBool(false), JInt(0), JFloat(0.0), JStr(""), JArr([]), JObj(map[])}
  {
    match j
    case JNull => false
    case JBool(b) => b
    case JInt(i) => i != 0
    case JFloat(x) => x != 0.0
    case JStr(s) => s != ""
    case JArr(items) => |items| > 0
    case JObj(fields) => |fields| > 0
  }

  /** An exception raised while reading the decoded body; `message` is its
      `str(e)`. */
  datatype Fault =
    | KeyError(message: string)
    | IndexError(message: string)
    | TypeError(message: string)
    | AttributeError(message: string)

  /** `j` is a dict holding `key`. */
  predicate Has(j: Json, key: string) {
    j.JObj? && key in j.fields
  }

  /** Python's `j[key]` for a string key. A missing key raises `KeyError`,
      whose text is the key in single quotes (its repr for a key without
      quotes, backslashes or unprintable characters, as every key read here);
      subscripting anything but a dict raises `TypeError`. */
  function Member(j: Json, key: string): (r: Result<Json, Fault>)
    ensures r.Success? <==> Has(j, key)
    ensures r.Success? ==> r.value == j.fields[key]
    ensures j.JObj? && key !in j.fields ==> r == Failure(KeyError("'" + key + "'"))
  {
    match j
    case JObj(fields) =>
      if key in fields then Success(fields[key]) else Failure(KeyError("'" + key + "'"))
    case JStr(_) => Failure(TypeError("string indices must be integers, not 'str'"))
    case JArr(_) => Failure(TypeError("list indices must be integers or slices, not str"))
    case _ => Failure(TypeError("'" + TypeName(j) + "' object is not subscriptable"))
  }

  /** Python's `j[0]`. A list or string yields its first element (for a
      string, a one-character string); an empty one raises `IndexError`; a
      dict has no integer keys, so it raises `KeyError(0)`. */
  function First(j: Json): (r: Result<Json, Fault>)
    ensures j.JArr? ==> (r.Success? <==> |j.items| > 0)
    ensures j.JArr? && |j.items| > 0 ==> r == Success(j.items[0])
    ensures r.Success? ==> j.JArr? || j.JStr?
  {
    match j
    case JArr(items) =>
      if |items| > 0 then Success(items[0]) else Failure(IndexError("list index out of range"))
    case JStr(s) =>
      if |s| > 0 then Success(JStr(s[..1])) else Failure(IndexError("string index out of range"))
    case JObj(_) => Failure(KeyError("0"))
    case _ => Failure(TypeError("'" + TypeName(j) + "' object is not subscriptable"))
  }

  /** The decoded value is a Python number (`bool` is a subclass of `int`). */
  predicate IsNumber(j: Json) {
    j.JInt? || j.JFloat? || j.JBool?
  }

  /** The numeric value of a Python number. */
  function NumberValue(j: Json): real
    requires IsNumber(j)
  {
    match j
    case JInt(i) => i as real
    case JFloat(x) => x
    case JBool(b) => if b then 1.0 else 0.0
  }

  /** Python's `round(j)`: an `int` (or `bool`) is returned as the integer it
      is, a `float` is rounded half to even, and anything else raises
      `TypeError`. */
  function Round(j: Json): (r: Result<int, Fault>)
    ensures r.Success? <==> IsNumber(j)
    ensures r.Success? ==> -0.5 <= NumberValue(j) - r.value as real <= 0.5
    ensures j.JInt? ==> r == Success(j.i)
  {
    match j
    case JInt(i) => Success(i)
    case JBool(b) => Success(if b then 1 else 0)
    case JFloat(x) => Success(RoundHalfEven(x))
    case _ => Failure(TypeError("type " + TypeName(j) + " doesn't define __round__ method"))
  }

  /** Python's `j.title()`: only strings have the method. */
  function TitleOf(j: Json): (r: Result<string, Fault>)
    ensures r.Success? <==> j.JStr?
    ensures r.Success? ==> r.value == Title(j.s)
    ensures r.Success? ==> |r.value| == |j.s| && Title(r.value) == r.value
  {
    match j
    case JStr(s) => TitleIdempotent(s); Success(Title(s))
    case _ => Failure(AttributeError("'" + TypeName(j) + "' object has no attribute 'title'"))
  }
}

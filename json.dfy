/** JSON values as Python's `json` module hands them to the request handlers,
    together with the two pieces of Python semantics the handlers rely on:
    truthiness (`bool(v)`, used by every `a or b` fallback) and loose equality
    against the integer 0 (`v == 0`, used by the upstream status check). */
module Json {

  /** A decoded JSON document. Numbers carry their exact decimal value. */
  datatype JValue =
    | JNull
    | JBool(b: bool)
    | JNum(n: real)
    | JString(s: string)
    | JArray(items: seq<JValue>)
    | JObject(fields: map<string, JValue>)

  /** Python's `bool(v)`: None, False, 0, 0.0, "", [] and {} are false. */
  predicate Truthy(v: JValue) {
    match v
    case JNull => false
    case JBool(b) => b
    case JNum(n) => n != 0.0
    case JString(s) => s != ""
    case JArray(items) => items != []
    case JObject(fields) => fields != map[]
  }

  /** Python's `v == 0`: holds for 0, 0.0 and False (bool is a subclass of int)
      and for nothing else; None, strings and containers never equal 0. */
  predicate EqualsZero(v: JValue) {
    v == JNum(0.0) || v == JBool(false)
  }

  /** `dict.get(key, default)`. */
  function GetOr(m: map<string, JValue>, key: string, default: JValue): JValue {
    if key in m then m[key] else default
  }

  /** `dict.get(key)`: a missing key reads as None. */
  function Get(m: map<string, JValue>, key: string): JValue {
    GetOr(m, key, JNull)
  }

  /** Python's `a or b`: the first operand when it is truthy, otherwise the
      second one, whatever it is. */
  function Or(a: JValue, b: JValue): (r: JValue)
    ensures r == a || r == b
    ensures Truthy(r) <==> Truthy(a) || Truthy(b)
    ensures Truthy(a) ==> r == a
    ensures !Truthy(a) ==> r == b
  {
    if Truthy(a) then a else b
  }

  /** A value that passes the `code` check is falsy: 0, 0.0 and False are
      exactly the values equal to 0, and each of them is false. */
  lemma ZeroIsFalsy(v: JValue)
    requires EqualsZero(v)
    ensures !Truthy(v)
    ensures v.JNum? || v.JBool?
  {
  }

  /** Only null, false, zero and the empty string, list and object are falsy;
      in particular a falsy string is the empty string. */
  lemma FalsyValues(v: JValue)
    ensures !Truthy(v) <==>
      v in {JNull, JBool(false), JNum(0.0), JString(""), JArray([]), JObject(map[])}
  {
  }
}

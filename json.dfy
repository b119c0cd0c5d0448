/** The values `json.load` produces, and Python's `type()` of each. */
module Json {

  /** A decoded JSON document. Python keeps `int` and `float` apart, so the model does too. */
  datatype JsonValue =
    | JNull
    | JBool(b: bool)
    | JInt(i: int)
    | JFloat(f: real)
    | JString(s: string)
    | JList(items: seq<JsonValue>)
    | JObject(fields: map<string, JsonValue>)

  /** The Python type of a decoded value (`NoneType`, `bool`, `int`, `float`, `str`, `list`, `dict`). */
  datatype PyType = NoneType | BoolType | IntType | FloatType | StrType | ListType | DictType

  function TypeOf(v: JsonValue): PyType {
    match v
    case JNull => NoneType
    case JBool(_) => BoolType
    case JInt(_) => IntType
    case JFloat(_) => FloatType
    case JString(_) => StrType
    case JList(_) => ListType
    case JObject(_) => DictType
  }

  /** True when `v` is a list every item of which is a `str`. */
  predicate IsStringList(v: JsonValue) {
    v.JList? && forall i :: 0 <= i < |v.items| ==> v.items[i].JString?
  }

  /** The Python list of strings `ks`, as `json.dump` writes it. */
  function StringList(ks: seq<string>): (v: JsonValue)
    ensures IsStringList(v) && |v.items| == |ks|
    ensures forall i :: 0 <= i < |ks| ==> v.items[i] == JString(ks[i])
  {
    JList(seq(|ks|, i requires 0 <= i < |ks| => JString(ks[i])))
  }

  /** The strings of a list of strings. */
  function Strings(v: JsonValue): (ks: seq<string>)
    requires IsStringList(v)
    ensures StringList(ks) == v
  {
    var ks := seq(|v.items|, i requires 0 <= i < |v.items| => v.items[i].s);
    assert StringList(ks).items == v.items;
    ks
  }

  /** Reading back a written list of strings gives the same strings. */
  lemma StringsOfStringList(ks: seq<string>)
    ensures Strings(StringList(ks)) == ks
  {
    var v := StringList(ks);
    assert Strings(v) == seq(|v.items|, i requires 0 <= i < |v.items| => v.items[i].s);
  }
}

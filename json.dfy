/** A parsed JSON value, as Python's json module hands it to the viewer:
    dict (insertion-ordered, string keys), list, str, int, float, bool, None. */
module Json {
  import opened Common

  datatype Value =
    | JObject(members: seq<(string, Value)>)
    | JArray(items: seq<Value>)
    | JStr(str: string)
    | JInt(num: int)
    | JFloat(repr: string)  // a float, kept as the text Python prints for it
    | JBool(truth: bool)
    | JNull

  predicate IsContainer(v: Value)
  {
    v.JObject? || v.JArray?
  }

  /** `type(v).__name__` */
  function PyTypeName(v: Value): string
  {
    match v
    case JObject(_) => "dict"
    case JArray(_) => "list"
    case JStr(_) => "str"
    case JInt(_) => "int"
    case JFloat(_) => "float"
    case JBool(_) => "bool"
    case JNull => "NoneType"
  }

  /** `key in d` then `d[key]`: the value stored under key, if any. */
  function Lookup(ms: seq<(string, Value)>, key: string): (r: Option<Value>)
    ensures r.Some? <==> exists i :: 0 <= i < |ms| && ms[i].0 == key
  {
    if |ms| == 0 then None
    else if ms[0].0 == key then Some(ms[0].1)
    else
      var r := Lookup(ms[1..], key);
      assert forall i :: 1 <= i < |ms| ==> ms[i] == ms[1..][i - 1];
      r
  }

  predicate UniqueKeys(ms: seq<(string, Value)>)
  {
    forall i, j :: 0 <= i < j < |ms| ==> ms[i].0 != ms[j].0
  }

  lemma {:induction false} LookupUnique(ms: seq<(string, Value)>, i: nat)
    requires UniqueKeys(ms) && i < |ms|
    ensures Lookup(ms, ms[i].0) == Some(ms[i].1)
  {
    if i > 0 {
      assert UniqueKeys(ms[1..]) by {
        forall a, b | 0 <= a < b < |ms[1..]| ensures ms[1..][a].0 != ms[1..][b].0 {
          assert ms[1..][a] == ms[a + 1] && ms[1..][b] == ms[b + 1];
        }
      }
      LookupUnique(ms[1..], i - 1);
      assert ms[1..][i - 1] == ms[i];
    }
  }

  /** Every object in the tree has distinct keys, as every dict does. */
  predicate WellFormed(v: Value)
  {
    match v
    case JObject(ms) => UniqueKeys(ms) && forall i :: 0 <= i < |ms| ==> WellFormed(ms[i].1)
    case JArray(xs) => forall i :: 0 <= i < |xs| ==> WellFormed(xs[i])
    case _ => true
  }
}

/**
 * The dynamically typed values the repository passes around: JSON-decoded
 * search results, memory entries, tool actions and observations.
 * Floating-point numbers are not part of this model.
 */
module PyValue {

  /** A Python value; a dict keeps its entries in insertion order. */
  datatype Value =
    | VNone
    | VBool(b: bool)
    | VInt(i: int)
    | VStr(s: string)
    | VList(items: seq<Value>)
    | VDict(entries: seq<(string, Value)>)

  /** Python truthiness: None, False, 0 and empty containers are falsy. */
  predicate Truthy(v: Value)
  {
    match v
    case VNone => false
    case VBool(b) => b
    case VInt(i) => i != 0
    case VStr(s) => s != ""
    case VList(xs) => xs != []
    case VDict(es) => es != []
  }

  /** The value of Python's `a or b`. */
  function Or(a: Value, b: Value): Value
  {
    if Truthy(a) then a else b
  }

  /** The reference reading of `a1 or a2 or ... or d`: the first truthy operand, else the last one. */
  function FirstTruthy(vs: seq<Value>, default: Value): (r: Value)
    ensures r in vs || r == default
    ensures Truthy(r) || r == default
  {
    if vs == [] then default
    else if Truthy(vs[0]) then vs[0]
    else FirstTruthy(vs[1..], default)
  }

  /** Python's `d.get(key)` on a dict: the value stored under `key`, or None. */
  function Get(entries: seq<(string, Value)>, key: string): (r: Value)
    ensures (exists k :: 0 <= k < |entries| && entries[k].0 == key) || r == VNone
  {
    if entries == [] then VNone
    else if entries[0].0 == key then entries[0].1
    else Get(entries[1..], key)
  }

  /** Python's `d.get(key, default)`. */
  function GetOr(entries: seq<(string, Value)>, key: string, default: Value): Value
  {
    if entries == [] then default
    else if entries[0].0 == key then entries[0].1
    else GetOr(entries[1..], key, default)
  }

  /** The keys of a dict, in insertion order. */
  function Keys(entries: seq<(string, Value)>): (ks: seq<string>)
    ensures |ks| == |entries|
    ensures forall k :: 0 <= k < |entries| ==> ks[k] == entries[k].0
  {
    if entries == [] then [] else [entries[0].0] + Keys(entries[1..])
  }

  /** A chained `or` of three operands and a default is the first truthy operand. */
  lemma OrChain(a: Value, b: Value, c: Value, d: Value)
    ensures Or(Or(Or(a, b), c), d) == FirstTruthy([a, b, c], d)
  {
    assert [a, b, c][1..] == [b, c];
    OrChain3(b, c, d);
    assert Or(Or(Or(a, b), c), d) == if Truthy(a) then a else Or(Or(b, c), d);
  }

  /** A chained `or` of three operands with no default is the first truthy one, else the last. */
  lemma OrChain3(a: Value, b: Value, c: Value)
    ensures Or(Or(a, b), c) == FirstTruthy([a, b], c)
  {
    assert [a, b][1..] == [b];
    assert [b][1..] == [];
  }
}

/** The JSON values `response.json()` hands to the parser, as Python sees
    them. An object is kept as its list of members in insertion order, since
    a Python dict iterates in that order. */
module Json {
  import opened Wrappers

  datatype Value =
    | Null
    | Bool(b: bool)
    | Int(i: int)
    | Float(f: real)
    | String(s: string)
    | Array(items: seq<Value>)
    | Object(members: seq<(string, Value)>)

  /** The keys of an object's member list. */
  function Keys(ms: seq<(string, Value)>): set<string> {
    set i | 0 <= i < |ms| :: ms[i].0
  }

  /** The keys of a non-empty member list: the first key and the rest's. */
  lemma KeysCons(ms: seq<(string, Value)>)
    requires ms != []
    ensures Keys(ms) == {ms[0].0} + Keys(ms[1..])
  {
    assert forall i | 1 <= i < |ms| :: ms[i] == ms[1..][i - 1];
  }

  predicate DistinctKeys(ms: seq<(string, Value)>) {
    forall i, j | 0 <= i < j < |ms| :: ms[i].0 != ms[j].0
  }

  lemma DistinctTail(ms: seq<(string, Value)>)
    requires ms != [] && DistinctKeys(ms)
    ensures DistinctKeys(ms[1..])
  {
    var tail := ms[1..];
    forall i, j | 0 <= i < j < |tail| ensures tail[i].0 != tail[j].0 {
      assert tail[i] == ms[i + 1] && tail[j] == ms[j + 1];
    }
  }

  /** A value as a parsed Python dict holds it: every object, at every depth,
      has distinct keys. */
  predicate Valid(v: Value) {
    match v
    case Array(items) => forall k | 0 <= k < |items| :: Valid(items[k])
    case Object(ms) => DistinctKeys(ms) && forall k | 0 <= k < |ms| :: Valid(ms[k].1)
    case _ => true
  }

  /** `d[key]` when present: the value of the first member named `key`. */
  function Lookup(ms: seq<(string, Value)>, key: string): Option<Value> {
    if ms == [] then None
    else if ms[0].0 == key then Some(ms[0].1)
    else Lookup(ms[1..], key)
  }

  /** A key is found exactly when some member has it, and what is found is
      that member's value. */
  lemma {:induction false} LookupFinds(ms: seq<(string, Value)>, key: string)
    ensures Lookup(ms, key).Some? <==> key in Keys(ms)
    ensures Lookup(ms, key).Some? ==> exists k | 0 <= k < |ms| :: ms[k] == (key, Lookup(ms, key).value)
  {
    if ms != [] {
      KeysCons(ms);
      if ms[0].0 != key {
        LookupFinds(ms[1..], key);
        if Lookup(ms, key).Some? {
          var k :| 0 <= k < |ms[1..]| && ms[1..][k] == (key, Lookup(ms, key).value);
          assert ms[k + 1] == ms[1..][k];
        }
      }
    }
  }

  /** In a member list with distinct keys, each member's key finds that
      member's value. */
  lemma {:induction false} LookupDistinct(ms: seq<(string, Value)>, k: nat)
    requires DistinctKeys(ms) && k < |ms|
    ensures Lookup(ms, ms[k].0) == Some(ms[k].1)
  {
    if k > 0 {
      var tail := ms[1..];
      DistinctTail(ms);
      assert ms[k] == tail[k - 1];
      LookupDistinct(tail, k - 1);
    }
  }

  /** `bool(v)`: Python's truth value of a JSON value. */
  predicate Truthy(v: Value)
    ensures v == Null || v == Object([]) || v == Array([]) || v == String([]) ==> !Truthy(v)
  {
    match v
    case Null => false
    case Bool(b) => b
    case Int(i) => i != 0
    case Float(f) => f != 0.0
    case String(s) => s != []
    case Array(items) => items != []
    case Object(ms) => ms != []
  }
}

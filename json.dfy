/**
  JSON values (RFC 8259) as the Python and JavaScript code of the application
  sees them once they are parsed. An object is an ordered sequence of members:
  Python dictionaries and JavaScript objects both remember insertion order, and
  the renderers depend on it.
*/
module Json {
  import opened Wrappers

  /** Only integral numbers are modelled. */
  datatype Json =
    | Null
    | Bool(b: bool)
    | Num(n: int)
    | Str(s: string)
    | Arr(items: seq<Json>)
    | Obj(members: seq<(string, Json)>)

  /** The outcome of `json.loads` / `JSON.parse` on a string. */
  datatype Parse = Malformed | Parsed(value: Json)

  function Keys(ms: seq<(string, Json)>): (ks: seq<string>)
    ensures |ks| == |ms|
    ensures forall i :: 0 <= i < |ms| ==> ks[i] == ms[i].0
  {
    if ms == [] then [] else [ms[0].0] + Keys(ms[1..])
  }

  predicate HasKey(ms: seq<(string, Json)>, k: string)
  {
    k in Keys(ms)
  }

  /** `d.get(k)`: the value stored under `k`. */
  function Get(ms: seq<(string, Json)>, k: string): (r: Option<Json>)
    ensures r.Some? <==> HasKey(ms, k)
  {
    if ms == [] then None
    else if ms[0].0 == k then Some(ms[0].1)
    else Get(ms[1..], k)
  }

  /** What `Get` finds is a member of the object. */
  lemma {:induction false} GetIn(ms: seq<(string, Json)>, k: string)
    ensures Get(ms, k).Some? ==> (k, Get(ms, k).value) in ms
  {
    if ms != [] && ms[0].0 != k {
      GetIn(ms[1..], k);
    }
  }

  /** `d.get(k, default)`. */
  function GetOr(ms: seq<(string, Json)>, k: string, default: Json): Json
  {
    match Get(ms, k)
    case Some(v) => v
    case None => default
  }

  /**
    `d[k] = v` on a dictionary: an existing key keeps its position and gets the
    new value; a new key goes to the end.
  */
  function Put(ms: seq<(string, Json)>, k: string, v: Json): (r: seq<(string, Json)>)
  {
    if ms == [] then [(k, v)]
    else if ms[0].0 == k then [(k, v)] + ms[1..]
    else [ms[0]] + Put(ms[1..], k, v)
  }

  lemma {:induction false} PutGet(ms: seq<(string, Json)>, k: string, v: Json, k': string)
    ensures Get(Put(ms, k, v), k') == if k' == k then Some(v) else Get(ms, k')
  {
    if ms != [] && ms[0].0 != k {
      PutGet(ms[1..], k, v, k');
    }
  }

  lemma {:induction false} PutKeys(ms: seq<(string, Json)>, k: string, v: Json)
    ensures Keys(Put(ms, k, v)) == if HasKey(ms, k) then Keys(ms) else Keys(ms) + [k]
  {
    if ms != [] && ms[0].0 != k {
      PutKeys(ms[1..], k, v);
      assert Keys(ms) == [ms[0].0] + Keys(ms[1..]);
    }
  }

  /** Python truthiness: `None`, `False`, `0`, `''`, `[]` and `{}` are false. */
  predicate PyTruthy(v: Json)
  {
    match v
    case Null => false
    case Bool(b) => b
    case Num(n) => n != 0
    case Str(s) => s != ""
    case Arr(xs) => xs != []
    case Obj(ms) => ms != []
  }

  predicate IsObj(v: Json) { v.Obj? }
}

/** The decoded-JSON values the tools receive: scalars, and dictionaries
    kept as association lists in insertion order (Python dicts iterate in
    insertion order, and the statement text depends on that order). */
module Values {
  import opened Strings

  datatype Option<+T> = None | Some(value: T)

  /** A JSON scalar after `json.loads` (None, bool, int or str). */
  datatype Scalar = Null | Bool(b: bool) | Int(i: int) | Text(s: string)

  /** A dict with string keys and scalar values, in insertion order. */
  type Dict = seq<(string, Scalar)>

  /** Python truthiness, as used by `if not x` / `if a and b`. */
  predicate Truthy(v: Scalar)
  {
    match v
    case Null => false
    case Bool(b) => b
    case Int(i) => i != 0
    case Text(s) => s != ""
  }

  /** Truthiness of an optional string argument (`str = None`). */
  predicate TruthyText(t: Option<string>)
  {
    t.Some? && t.value != ""
  }

  /** Python `str(v)`: the text an f-string interpolates. */
  function Render(v: Scalar): string
  {
    match v
    case Null => "None"
    case Bool(b) => if b then "True" else "False"
    case Int(i) => IntToString(i)
    case Text(s) => s
  }

  /** `d[k]`: the value under key `k`, or None where Python raises KeyError. */
  function Find(d: Dict, k: string): (r: Option<Scalar>)
    ensures r.Some? <==> exists j :: 0 <= j < |d| && d[j].0 == k
    ensures r.Some? ==> (k, r.value) in d
    decreases |d|
  {
    if |d| == 0 then None
    else if d[0].0 == k then Some(d[0].1)
    else
      var r := Find(d[1..], k);
      assert forall j :: 1 <= j < |d| ==> d[j] == d[1..][j - 1];
      r
  }

  /** `d.get(k)`: a missing key reads as None. */
  function Get(d: Dict, k: string): Scalar
  {
    match Find(d, k)
    case Some(v) => v
    case None => Null
  }

  /** The entries of `d` whose key is not `k`, in their original order
      (`[(x, v) for x, v in d.items() if x != k]`). */
  function WithoutKey(d: Dict, k: string): (r: Dict)
    ensures forall e :: e in r <==> e in d && e.0 != k
    ensures |r| <= |d|
    decreases |d|
  {
    if |d| == 0 then []
    else
      var rest := WithoutKey(d[1..], k);
      assert forall e :: e in d <==> e == d[0] || e in d[1..];
      if d[0].0 == k then rest else [d[0]] + rest
  }

  /** Filtering distributes over concatenation: the kept entries of `a + b`
      are those of `a` followed by those of `b`, each in their own order. */
  lemma {:induction false} WithoutKeyAppend(a: Dict, b: Dict, k: string)
    ensures WithoutKey(a + b, k) == WithoutKey(a, k) + WithoutKey(b, k)
    decreases |a|
  {
    if |a| == 0 {
      assert a + b == b;
    } else {
      assert (a + b)[1..] == a[1..] + b;
      WithoutKeyAppend(a[1..], b, k);
    }
  }

  /** One entry is kept exactly when its key differs from `k`. */
  lemma WithoutKeySingle(e: (string, Scalar), k: string)
    ensures WithoutKey([e], k) == if e.0 == k then [] else [e]
  {
    assert [e][1..] == [];
  }
}

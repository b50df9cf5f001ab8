/** Values shared by every part of the model: optional values, the outcome of
    an operation that may raise, and the JSON-like values the pipeline keeps in
    its dictionaries (checkpoint payloads, metadata, reports). */
module Common {

  datatype Option<T> = None | Some(value: T)

  /** An operation that either returns a value or raises an exception whose
      message (Python's `str(e)`) is kept. */
  datatype Result<T> = Ok(value: T) | Err(error: string)

  /** A JSON-compatible Python value. Object keys are strings, as in JSON. */
  datatype Value =
    | VNone
    | VBool(b: bool)
    | VInt(i: int)
    | VReal(r: real)
    | VStr(s: string)
    | VList(items: seq<Value>)
    | VMap(m: map<string, Value>)

  /** Python truthiness of a value. */
  predicate Truthy(v: Value)
  {
    match v
    case VNone => false
    case VBool(b) => b
    case VInt(i) => i != 0
    case VReal(r) => r != 0.0
    case VStr(s) => s != ""
    case VList(items) => items != []
    case VMap(m) => m != map[]
  }

  /** Python's `d.get(key, default)` on a dictionary. */
  function Get(m: map<string, Value>, key: string, default: Value): (v: Value)
    ensures key in m ==> v == m[key]
    ensures key !in m ==> v == default
  {
    if key in m then m[key] else default
  }

  /** Sum of a sequence of naturals. */
  function Sum(xs: seq<nat>): nat
  {
    if xs == [] then 0 else Sum(xs[..|xs| - 1]) + xs[|xs| - 1]
  }

  lemma SumAppend(xs: seq<nat>, x: nat)
    ensures Sum(xs + [x]) == Sum(xs) + x
  {
    assert (xs + [x])[..|xs + [x]| - 1] == xs;
  }

  /** Concatenation of a sequence of sequences, in order. */
  function Flatten<T>(xs: seq<seq<T>>): seq<T>
  {
    if xs == [] then [] else xs[0] + Flatten(xs[1..])
  }

  lemma {:induction false} FlattenAppend<T>(xs: seq<seq<T>>, x: seq<T>)
    ensures Flatten(xs + [x]) == Flatten(xs) + x
  {
    if xs != [] {
      assert (xs + [x])[1..] == xs[1..] + [x];
      FlattenAppend(xs[1..], x);
    }
  }

  function Min(a: int, b: int): int
  {
    if a <= b then a else b
  }

  function Max(a: int, b: int): int
  {
    if a >= b then a else b
  }

  /** The number of steps of size `b` from 0 that stay below `x`: the
      length of `range(0, x, b)`, which is the ceiling of x / b. */
  function RangeLen(x: int, b: int): (r: nat)
    requires b > 0
    ensures x <= 0 ==> r == 0
    ensures x > 0 ==> (r - 1) * b < x <= r * b
    decreases x
  {
    if x <= 0 then 0 else 1 + RangeLen(x - b, b)
  }

  /** The start index Python uses for `s[k:]` and the end index for
      `s[:k]`: a negative k counts from the end, and both are clamped. */
  function SliceIndex(n: nat, k: int): (i: nat)
    ensures i <= n
    ensures 0 <= k <= n ==> i == k
  {
    if k < 0 then (if n + k < 0 then 0 else n + k) else if k > n then n else k
  }

  /** Python's `s[k:]`. */
  function SliceFrom<T>(s: seq<T>, k: int): seq<T>
  {
    s[SliceIndex(|s|, k)..]
  }

  /** Python's `s[:k]`. */
  function SliceTo<T>(s: seq<T>, k: int): seq<T>
  {
    s[..SliceIndex(|s|, k)]
  }

  lemma SliceSplit<T>(s: seq<T>, k: int)
    ensures SliceTo(s, k) + SliceFrom(s, k) == s
  {
  }

  /** `int(x)`: truncation toward zero. */
  function Trunc(x: real): (i: int)
    ensures x >= 0.0 ==> i as real <= x < i as real + 1.0
    ensures x < 0.0 ==> i as real - 1.0 < x <= i as real
  {
    if x >= 0.0 then x.Floor else -((-x).Floor)
  }

  /** A Python dictionary with string keys: the values by key and the order
      in which the keys were first inserted. */
  datatype Dict<V> = Dict(keys: seq<string>, values: map<string, V>)

  ghost predicate DictValid<V>(d: Dict<V>)
  {
    (forall i, j :: 0 <= i < j < |d.keys| ==> d.keys[i] != d.keys[j]) &&
    (forall k :: k in d.values <==> k in d.keys)
  }

  function EmptyDict<V>(): (d: Dict<V>)
    ensures DictValid(d) && |d.keys| == 0
  {
    Dict([], map[])
  }

  /** `d[k] = v`: a new key goes to the end; an existing key keeps its place. */
  function Put<V>(d: Dict<V>, k: string, v: V): (r: Dict<V>)
    ensures DictValid(d) ==> DictValid(r)
    ensures r.values == d.values[k := v]
    ensures k in d.values ==> r.keys == d.keys
    ensures k !in d.values ==> r.keys == d.keys + [k]
  {
    if k in d.values then Dict(d.keys, d.values[k := v]) else Dict(d.keys + [k], d.values[k := v])
  }

  ghost predicate Distinct<T>(s: seq<T>)
  {
    forall i, j :: 0 <= i < j < |s| ==> s[i] != s[j]
  }

  lemma SameElements<T>(a: seq<T>, b: seq<T>)
    requires multiset(a) == multiset(b)
    ensures forall x :: x in a <==> x in b
  {
    forall x ensures x in a <==> x in b {
      assert x in a <==> x in multiset(a);
      assert x in b <==> x in multiset(b);
    }
  }

  lemma {:induction false} DistinctCount<T>(s: seq<T>, x: T)
    requires Distinct(s)
    ensures multiset(s)[x] <= 1
  {
    if s != [] {
      assert s == [s[0]] + s[1..];
      DistinctCount(s[1..], x);
      if s[0] == x {
        assert x !in s[1..];
      }
    }
  }

  lemma RepeatCount<T>(s: seq<T>, i: nat, j: nat)
    requires i < j < |s| && s[i] == s[j]
    ensures multiset(s)[s[i]] >= 2
  {
    assert s == s[..j] + s[j..];
    assert s[i] in s[..j];
    assert s[j] in s[j..];
    assert multiset(s) == multiset(s[..j]) + multiset(s[j..]);
  }

  /** A rearrangement of a sequence without repeats has none. */
  lemma DistinctPermutation<T>(a: seq<T>, b: seq<T>)
    requires Distinct(a) && multiset(a) == multiset(b)
    ensures Distinct(b)
  {
    forall i, j | 0 <= i < j < |b| ensures b[i] != b[j] {
      if b[i] == b[j] {
        RepeatCount(b, i, j);
        DistinctCount(a, b[i]);
      }
    }
  }
}

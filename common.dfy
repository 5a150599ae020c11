/** Shared value types: Python's `None`, validation outcomes, decoded JSON and
    the insertion-ordered dictionaries the service clients hold. */
module Common {

  datatype Option<+T> = None | Some(value: T)

  /** The two exception shapes the models raise from `clean()` and the validators:
      `ModelValidationError(detail, code, pointer)` and Django's field-keyed
      `ValidationError({field: message})`. */
  datatype ValidationError =
    | ModelError(detail: string, code: string, pointer: string)
    | FieldError(field: string, message: string)

  /** A validation step either accepts or raises one error. */
  datatype Outcome = Accepted | Rejected(error: ValidationError)

  /** A decoded JSON value, as `json.loads` produces it; objects keep key order. */
  datatype Json =
    | JNull
    | JBool(b: bool)
    | JNumber(n: int)
    | JString(s: string)
    | JArray(items: seq<Json>)
    | JObject(members: seq<(string, Json)>)

  /** Python truthiness of a decoded JSON value (`if policy.document:`). */
  predicate Truthy(j: Json)
  {
    match j
    case JNull => false
    case JBool(b) => b
    case JNumber(n) => n != 0
    case JString(s) => s != ""
    case JArray(items) => items != []
    case JObject(members) => members != []
  }

  /** A Python dict seen through `.items()`: its entries in insertion order. */
  type Items<K, V> = seq<(K, V)>

  /** `list(d.values())`. */
  function Values<K, V>(d: Items<K, V>): (vs: seq<V>)
    ensures |vs| == |d|
    ensures forall k :: 0 <= k < |d| ==> vs[k] == d[k].1
  {
    if d == [] then [] else [d[0].1] + Values(d[1..])
  }

  /** The elements of `s` that satisfy `p`, in their original order. */
  function Filter<T(!new)>(s: seq<T>, p: T -> bool): (r: seq<T>)
    ensures |r| <= |s|
    ensures forall x :: x in r <==> x in s && p(x)
  {
    if s == [] then []
    else if p(s[0]) then [s[0]] + Filter(s[1..], p)
    else Filter(s[1..], p)
  }

  /** Filtering a sequence built by appending one element at the end. */
  lemma {:induction false} FilterSnoc<T(!new)>(s: seq<T>, x: T, p: T -> bool)
    ensures Filter(s + [x], p) == Filter(s, p) + (if p(x) then [x] else [])
  {
    if s == [] {
      assert [x][1..] == [];
    } else {
      assert (s + [x])[0] == s[0];
      assert (s + [x])[1..] == s[1..] + [x];
      FilterSnoc(s[1..], x, p);
    }
  }

  /** Filters by two predicates that agree on the sequence give the same result. */
  lemma {:induction false} FilterCongruent<T(!new)>(s: seq<T>, p: T -> bool, q: T -> bool)
    requires forall k :: 0 <= k < |s| ==> p(s[k]) == q(s[k])
    ensures Filter(s, p) == Filter(s, q)
  {
    if s != [] {
      FilterCongruent(s[1..], p, q);
      assert p(s[0]) == q(s[0]);
    }
  }

  /** No element occurs twice. */
  predicate NoDuplicates<T(==)>(s: seq<T>)
  {
    forall i, j :: 0 <= i < j < |s| ==> s[i] != s[j]
  }

  /** `set(xs)`. */
  function ToSet<T(==,!new)>(xs: seq<T>): (r: set<T>)
    ensures forall x :: x in r <==> x in xs
  {
    set x | x in xs
  }
}

/**
 * The values a YAPickleDB holds, and the few Python operations on them that
 * the store relies on: `len`, `+`, `list.remove`, `del l[i]` and slicing.
 */
module Values {
  import opened Wrappers

  /**
   * A stored value: the JSON-representable objects the store is used with.
   * Nested dictionaries are keyed by strings, as JSON objects are.
   */
  datatype Value =
    | Null
    | Bool(b: bool)
    | Int(i: int)
    | Str(s: string)
    | List(items: seq<Value>)
    | Dict(entries: map<string, Value>)

  /** The kinds on which Python's `len` is defined. */
  predicate Sized(v: Value) {
    v.Str? || v.List? || v.Dict?
  }

  /** Python's `len(v)`: characters, elements or keys. */
  function Len(v: Value): (n: nat)
    requires Sized(v)
    ensures v.Str? ==> n == |v.s|
    ensures v.List? ==> n == |v.items|
    ensures v.Dict? ==> n == |v.entries.Keys|
  {
    match v
    case Str(s) => |s|
    case List(items) => |items|
    case Dict(entries) => |entries|
  }

  /** The pairs of kinds on which the model defines Python's `a + b`. */
  predicate Addable(a: Value, b: Value) {
    (a.Str? && b.Str?) || (a.Int? && b.Int?) || (a.List? && b.List?)
  }

  /**
   * Python's `a + b`: string and list concatenation, integer addition.
   * The result has the kind of `a`; `a` is its prefix and `b` the rest.
   */
  function Plus(a: Value, b: Value): (r: Value)
    requires Addable(a, b)
    ensures r.Str? == a.Str? && r.Int? == a.Int? && r.List? == a.List?
    ensures a.Str? ==> |r.s| == |a.s| + |b.s| && r.s[..|a.s|] == a.s && r.s[|a.s|..] == b.s
    ensures a.List? ==> |r.items| == |a.items| + |b.items|
                        && r.items[..|a.items|] == a.items && r.items[|a.items|..] == b.items
    ensures a.Int? ==> r.i - a.i == b.i
  {
    match a
    case Str(x) => Str(x + b.s)
    case Int(x) => Int(x + b.i)
    case List(x) => List(x + b.items)
  }

  /** Python's `s.index(x)`: the position of the first occurrence of `x`. */
  function IndexOf(s: seq<Value>, x: Value): (i: nat)
    requires x in s
    ensures i < |s| && s[i] == x
    ensures forall j :: 0 <= j < i ==> s[j] != x
  {
    if s[0] == x then 0 else 1 + IndexOf(s[1..], x)
  }

  /**
   * Python's `del s[i]`: the elements before `i` stay in place, those after
   * it move down by one, and exactly one copy of `s[i]` is gone.
   */
  function RemoveAt(s: seq<Value>, i: nat): (r: seq<Value>)
    requires i < |s|
    ensures |r| == |s| - 1
    ensures forall j :: 0 <= j < i ==> r[j] == s[j]
    ensures forall j :: i <= j < |r| ==> r[j] == s[j + 1]
    ensures multiset(r) + multiset{s[i]} == multiset(s)
  {
    assert s == s[..i] + [s[i]] + s[i + 1..];
    s[..i] + s[i + 1..]
  }

  /**
   * Python's `s.remove(x)`: the first occurrence of `x` is removed, every
   * other element keeps its relative order.
   */
  function RemoveFirst(s: seq<Value>, x: Value): (r: seq<Value>)
    requires x in s
    ensures |r| == |s| - 1
    ensures multiset(r) == multiset(s) - multiset{x}
    ensures forall j :: 0 <= j < IndexOf(s, x) ==> r[j] == s[j]
    ensures forall j :: IndexOf(s, x) <= j < |r| ==> r[j] == s[j + 1]
  {
    RemoveAt(s, IndexOf(s, x))
  }

  /** After `s.remove(x)`, `x` is still present exactly when it occurred twice or more. */
  lemma RemoveFirstKeepsDuplicates(s: seq<Value>, x: Value)
    requires x in s
    ensures x in RemoveFirst(s, x) <==> multiset(s)[x] >= 2
  {
    var r := RemoveFirst(s, x);
    assert multiset(r)[x] == multiset(s)[x] - 1;
  }

  /** A slice bound: omitted means `default`, past the end means the end. */
  function Bound(b: Option<nat>, default: nat, n: nat): (k: nat)
    requires default <= n
    ensures k <= n
  {
    match b
    case None => default
    case Some(k) => if k < n then k else n
  }

  /**
   * Python's `s[start:end]` for omitted or non-negative bounds: bounds past
   * the end are clamped, and a start at or after the end gives `[]`.
   */
  function Slice(s: seq<Value>, start: Option<nat>, end: Option<nat>): (r: seq<Value>)
    ensures |r| == if Bound(start, 0, |s|) < Bound(end, |s|, |s|)
                   then Bound(end, |s|, |s|) - Bound(start, 0, |s|) else 0
    ensures forall j :: 0 <= j < |r| ==> r[j] == s[Bound(start, 0, |s|) + j]
  {
    var lo, hi := Bound(start, 0, |s|), Bound(end, |s|, |s|);
    if lo < hi then s[lo..hi] else []
  }

  /** In-range bounds select exactly the elements `start .. end-1`. */
  lemma SliceInRange(s: seq<Value>, start: nat, end: nat)
    requires start <= end <= |s|
    ensures Slice(s, Some(start), Some(end)) == s[start..end]
  {
  }

  /** `s[:k] + s[k:] == s` for every non-negative `k`, even past the end. */
  lemma SliceSplit(s: seq<Value>, k: nat)
    ensures Slice(s, None, Some(k)) + Slice(s, Some(k), None) == s
  {
    var m := if k < |s| then k else |s|;
    assert Slice(s, None, Some(k)) == s[..m];
    assert Slice(s, Some(k), None) == s[m..];
    assert s[..m] + s[m..] == s;
  }
}

/** The slice of PHP's value model the mapper builds: ordered arrays whose
    keys are integers or strings, and `array_map` over one array. */
module Php {
  import opened Wrappers

  /** A PHP array key: PHP arrays are ordered maps keyed by integers or strings. */
  datatype Key = IntKey(i: int) | StrKey(s: string)

  /** One `key => value` pair of a PHP array; a PHP array is a sequence of them in insertion order. */
  datatype Slot<+T> = Slot(key: Key, value: T)

  /** The values the mapper emits: scalars, null and (nested) arrays. */
  datatype Value =
    | Null
    | Int(i: int)
    | Str(s: string)
    | Arr(slots: seq<Slot<Value>>)

  /** The keys of a PHP array, in order (`array_keys`). */
  function Keys<T>(a: seq<Slot<T>>): (ks: seq<Key>)
  {
    seq(|a|, i requires 0 <= i < |a| => a[i].key)
  }

  /** The values of a PHP array, in order (`array_values`). */
  function Values<T>(a: seq<Slot<T>>): (vs: seq<T>)
  {
    seq(|a|, i requires 0 <= i < |a| => a[i].value)
  }

  /** Literal arrays never repeat a key. */
  predicate DistinctKeys<T>(a: seq<Slot<T>>)
  {
    forall i, j :: 0 <= i < j < |a| ==> a[i].key != a[j].key
  }

  /** `$a[$k]`: the value stored under `k`, or None where PHP reads an
      undefined key (it yields null and raises a warning). */
  function Lookup<T>(a: seq<Slot<T>>, k: Key): (r: Option<T>)
    ensures r.None? <==> k !in Keys(a)
    ensures r.Some? ==> exists i :: 0 <= i < |a| && a[i].key == k && a[i].value == r.value
  {
    if a == [] then None
    else if a[0].key == k then assert Keys(a)[0] == k; Some(a[0].value)
    else
      assert Keys(a) == [a[0].key] + Keys(a[1..]);
      var r := Lookup(a[1..], k);
      assert r.Some? ==> exists i :: 0 <= i < |a| - 1 && a[1..][i].key == k && a[1..][i].value == r.value;
      r
  }

  /** In an array without repeated keys, looking up the key of slot `i` yields slot `i`'s value. */
  lemma {:induction false} LookupDistinct<T>(a: seq<Slot<T>>, i: nat)
    requires DistinctKeys(a)
    requires i < |a|
    ensures Lookup(a, a[i].key) == Some(a[i].value)
  {
    if i > 0 {
      assert a[0].key != a[i].key;
      assert a[1..][i - 1] == a[i];
      LookupDistinct(a[1..], i - 1);
    }
  }

  /** `$v[$k]` on a value that may not be an array (None when it is not one). */
  function Get(v: Value, k: string): (r: Option<Value>)
  {
    if v.Arr? then Lookup(v.slots, StrKey(k)) else None
  }

  /** PHP `array_map($f, $a)` with a single array: `f` is applied to every
      value, and every key and the order of the slots are kept. */
  function ArrayMap<A, B>(f: A -> B, a: seq<Slot<A>>): (r: seq<Slot<B>>)
    ensures |r| == |a|
    ensures forall i :: 0 <= i < |a| ==> r[i] == Slot(a[i].key, f(a[i].value))
  {
    if a == [] then [] else [Slot(a[0].key, f(a[0].value))] + ArrayMap(f, a[1..])
  }
}

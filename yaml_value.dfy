/**
 * The values a YAML document loads into: scalars, lists and string-keyed
 * mappings. A mapping keeps its entries in insertion order, as a Python
 * dict does; lookups find the first entry with the key.
 */
module Yaml {
  import opened Wrappers

  datatype Value =
    | VNull
    | VBool(b: bool)
    | VInt(i: int)
    | VFloat(x: real)
    | VStr(s: string)
    | VList(items: seq<Value>)
    | VMap(entries: Entries)

  type Entries = seq<(string, Value)>

  predicate HasKey(es: Entries, k: string) {
    exists i :: 0 <= i < |es| && es[i].0 == k
  }

  /** Position of the first entry stored under `k` (Python `k in d`). */
  function Find(es: Entries, k: string): (r: Option<nat>)
    ensures r.None? <==> !HasKey(es, k)
    ensures r.Some? ==> r.value < |es| && es[r.value].0 == k
    ensures r.Some? ==> forall j :: 0 <= j < r.value ==> es[j].0 != k
  {
    if es == [] then None
    else if es[0].0 == k then Some(0)
    else match Find(es[1..], k)
      case None => None
      case Some(i) => Some(i + 1)
  }

  /** Python `d[k]`: the value stored under `k`, or None where Python raises KeyError. */
  function Lookup(es: Entries, k: string): (r: Option<Value>)
    ensures r.None? <==> !HasKey(es, k)
  {
    match Find(es, k)
    case None => None
    case Some(i) => Some(es[i].1)
  }

  /** Appending an entry under another key changes no lookup. */
  lemma {:induction false} LookupAppendOther(es: Entries, k: string, extra: (string, Value))
    requires extra.0 != k
    ensures Lookup(es + [extra], k) == Lookup(es, k)
  {
    if es != [] {
      assert (es + [extra])[1..] == es[1..] + [extra];
      LookupAppendOther(es[1..], k, extra);
    }
  }

  /** Appending an entry under a key not yet present makes it visible. */
  lemma {:induction false} LookupAppendNew(es: Entries, k: string, v: Value)
    requires !HasKey(es, k)
    ensures Lookup(es + [(k, v)], k) == Some(v)
  {
    if es != [] {
      assert (es + [(k, v)])[1..] == es[1..] + [(k, v)];
      assert !HasKey(es[1..], k) by {
        forall i | 0 <= i < |es[1..]| ensures es[1..][i].0 != k {
          assert es[1..][i] == es[i + 1];
        }
      }
      LookupAppendNew(es[1..], k, v);
    }
  }

  /** Overwriting the value at a position, under the same key, moves no key. */
  lemma {:induction false} FindAfterValueUpdate(es: Entries, at: nat, v: Value, k: string)
    requires at < |es|
    ensures Find(es[at := (es[at].0, v)], k) == Find(es, k)
  {
    if at > 0 {
      assert es[at := (es[at].0, v)][1..] == es[1..][at - 1 := (es[at].0, v)];
      FindAfterValueUpdate(es[1..], at - 1, v, k);
    }
  }
}

/**
 * `java.util.LinkedHashMap` with string keys, as the swagger models use it for schema properties,
 * responses and media types: entries in insertion order, one entry per key.
 */
module LinkedMaps {
  import opened Wrappers

  datatype Entry<V> = Entry(key: string, value: V)

  /** The keys in iteration order. */
  function Keys<V>(es: seq<Entry<V>>): (r: seq<string>)
    ensures |r| == |es| && forall i :: 0 <= i < |es| ==> r[i] == es[i].key
  {
    if es == [] then [] else [es[0].key] + Keys(es[1..])
  }

  /** `map.get(k)`, `None` for a missing key. */
  function Get<V>(es: seq<Entry<V>>, k: string): (r: Option<V>)
    ensures r.None? <==> k !in Keys(es)
    ensures r.Some? ==> Entry(k, r.value) in es
  {
    if es == [] then None
    else if es[0].key == k then Some(es[0].value)
    else Get(es[1..], k)
  }

  /**
   * `map.put(k, v)`: an existing entry keeps its position and takes the new value; a new key is
   * appended at the end.
   */
  function Put<V>(es: seq<Entry<V>>, k: string, v: V): (r: seq<Entry<V>>)
    ensures Keys(r) == if k in Keys(es) then Keys(es) else Keys(es) + [k]
  {
    if es == [] then [Entry(k, v)]
    else if es[0].key == k then [Entry(k, v)] + es[1..]
    else [es[0]] + Put(es[1..], k, v)
  }

  /** Putting a key that is not there yet appends one entry. */
  lemma {:induction false} PutNew<V>(es: seq<Entry<V>>, k: string, v: V)
    requires k !in Keys(es)
    ensures Put(es, k, v) == es + [Entry(k, v)]
  {
    if es != [] {
      assert Keys(es[1..]) == Keys(es)[1..];
      PutNew(es[1..], k, v);
    }
  }

  /** After `put(k, v)`, `get(k)` is `v` and every other key reads as before. */
  lemma {:induction false} GetPut<V>(es: seq<Entry<V>>, k: string, v: V, k': string)
    ensures Get(Put(es, k, v), k') == if k' == k then Some(v) else Get(es, k')
  {
    if es != [] && es[0].key != k {
      GetPut(es[1..], k, v, k');
      assert Put(es, k, v)[1..] == Put(es[1..], k, v);
    }
  }

  /** `map.remove(k)`: the entry for `k`, if any, disappears and the others keep their order. */
  function Remove<V>(es: seq<Entry<V>>, k: string): (r: seq<Entry<V>>)
    ensures forall e :: e in r ==> e in es && e.key != k
    ensures k !in Keys(es) ==> r == es
  {
    if es == [] then []
    else if es[0].key == k then Remove(es[1..], k)
    else [es[0]] + Remove(es[1..], k)
  }

  /** After `remove(k)`, `get(k)` is null and every other key reads as before. */
  lemma {:induction false} GetRemove<V>(es: seq<Entry<V>>, k: string, k': string)
    ensures Get(Remove(es, k), k') == if k' == k then None else Get(es, k')
  {
    if es != [] {
      GetRemove(es[1..], k, k');
      if es[0].key != k {
        assert Remove(es, k)[1..] == Remove(es[1..], k);
      }
    }
  }

  /** Removing a key twice is the same as removing it once. */
  lemma RemoveIdempotent<V>(es: seq<Entry<V>>, k: string)
    ensures Remove(Remove(es, k), k) == Remove(es, k)
  {
  }

  /** A sequence of `put`s, in order. */
  function PutAll<V>(es: seq<Entry<V>>, more: seq<Entry<V>>): seq<Entry<V>>
    decreases |more|
  {
    if more == [] then es else PutAll(Put(es, more[0].key, more[0].value), more[1..])
  }

  /** Putting keys that are distinct and new appends their entries in order. */
  lemma {:induction false} PutAllNew<V>(es: seq<Entry<V>>, more: seq<Entry<V>>)
    requires forall i, j :: 0 <= i < j < |more| ==> more[i].key != more[j].key
    requires forall i, j :: 0 <= i < |more| && 0 <= j < |es| ==> more[i].key != es[j].key
    ensures PutAll(es, more) == es + more
    decreases |more|
  {
    if more != [] {
      PutAllStep(es, more);
      StillNew(es, more);
      PutAllNew(es + [more[0]], more[1..]);
      AppendFirst(es, more);
    }
  }

  /** Moving the first element of `more` to the end of `es` keeps the concatenation. */
  lemma AppendFirst<V>(es: seq<Entry<V>>, more: seq<Entry<V>>)
    requires more != []
    ensures (es + [more[0]]) + more[1..] == es + more
  {
    assert (es + [more[0]]) + more[1..] == es + ([more[0]] + more[1..]);
    assert [more[0]] + more[1..] == more;
  }

  /** The first `put` of a new key appends its entry. */
  lemma PutAllStep<V>(es: seq<Entry<V>>, more: seq<Entry<V>>)
    requires more != [] && forall j :: 0 <= j < |es| ==> es[j].key != more[0].key
    ensures PutAll(es, more) == PutAll(es + [more[0]], more[1..])
  {
    assert more[0].key !in Keys(es);
    PutNew(es, more[0].key, more[0].value);
  }

  /** After the first of distinct new keys is put, the remaining keys are still new. */
  lemma StillNew<V>(es: seq<Entry<V>>, more: seq<Entry<V>>)
    requires more != []
    requires forall i, j :: 0 <= i < j < |more| ==> more[i].key != more[j].key
    requires forall i, j :: 0 <= i < |more| && 0 <= j < |es| ==> more[i].key != es[j].key
    ensures forall i, j :: 0 <= i < j < |more[1..]| ==> more[1..][i].key != more[1..][j].key
    ensures forall i, j :: 0 <= i < |more[1..]| && 0 <= j < |es + [more[0]]| ==> more[1..][i].key != (es + [more[0]])[j].key
  {
    forall i, j | 0 <= i < |more| - 1 && 0 <= j < |es| + 1 ensures more[1..][i].key != (es + [more[0]])[j].key {
      assert more[1..][i] == more[i + 1];
      if j < |es| {
        assert (es + [more[0]])[j] == es[j];
      }
    }
  }
}

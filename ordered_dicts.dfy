/**
 * A Python `dict`: a finite map that also remembers the order in which its keys were
 * first inserted. Assigning to a present key replaces its value and keeps its position;
 * assigning to a new key appends it. Iteration follows `keys`.
 */
module OrderedDicts {

  datatype Dict<K(==), V> = Dict(keys: seq<K>, items: map<K, V>)

  predicate NoDuplicates<K(==)>(s: seq<K>) {
    forall i, j :: 0 <= i < j < |s| ==> s[i] != s[j]
  }

  predicate Valid<K(==), V>(d: Dict<K, V>) {
    && NoDuplicates(d.keys)
    && (forall k :: k in d.items ==> k in d.keys)
    && (forall i :: 0 <= i < |d.keys| ==> d.keys[i] in d.items)
  }

  type PyDict<K(==), V> = d: Dict<K, V> | Valid(d) witness Dict([], map[])

  function Empty<K(==), V>(): PyDict<K, V> {
    Dict([], map[])
  }

  /** A key of a dict does not occur before its own position. */
  lemma KeyNotEarlier<K, V>(d: PyDict<K, V>, i: nat)
    requires i < |d.keys|
    ensures d.keys[i] !in d.keys[..i]
  {
    assert forall j :: 0 <= j < i ==> d.keys[..i][j] == d.keys[j];
  }

  /** `d[k] = v` */
  function Put<K(==), V>(d: PyDict<K, V>, k: K, v: V): PyDict<K, V> {
    if k in d.items then Dict(d.keys, d.items[k := v])
    else Dict(d.keys + [k], d.items[k := v])
  }

  /** `for (k, v) in es: d[k] = v` */
  function PutAll<K(==), V>(d: PyDict<K, V>, es: seq<(K, V)>): PyDict<K, V> {
    if es == [] then d
    else Put(PutAll(d, es[..|es| - 1]), es[|es| - 1].0, es[|es| - 1].1)
  }

  lemma PutAllAppend<K, V>(d: PyDict<K, V>, es: seq<(K, V)>, e: (K, V))
    ensures PutAll(d, es + [e]) == Put(PutAll(d, es), e.0, e.1)
  {
    assert (es + [e])[..|es|] == es;
  }

  lemma PrefixStep<T>(s: seq<T>, i: nat)
    requires i < |s|
    ensures s[..i + 1] == s[..i] + [s[i]]
  {
  }

  /** One more assignment from the same run. */
  lemma PutAllPrefix<K, V>(d: PyDict<K, V>, es: seq<(K, V)>, i: nat)
    requires i < |es|
    ensures PutAll(d, es[..i + 1]) == Put(PutAll(d, es[..i]), es[i].0, es[i].1)
  {
    PrefixStep(es, i);
    PutAllAppend(d, es[..i], es[i]);
  }

  /** The position of the last entry of `es` with key `k`, or -1 when there is none. */
  function LastKeyIndex<K(==), V>(es: seq<(K, V)>, k: K): (i: int)
    ensures -1 <= i < |es|
    ensures i >= 0 ==> es[i].0 == k
    ensures forall j :: i < j < |es| ==> es[j].0 != k
  {
    if es == [] then -1
    else if es[|es| - 1].0 == k then |es| - 1
    else LastKeyIndex(es[..|es| - 1], k)
  }

  lemma LastKeyIndexAt<K, V>(es: seq<(K, V)>, k: K, i: nat)
    requires i < |es| && es[i].0 == k
    requires forall j :: i < j < |es| ==> es[j].0 != k
    ensures LastKeyIndex(es, k) == i
  {
    var r := LastKeyIndex(es, k);
    if r < i {
      assert es[i].0 == k;
    }
  }

  /** Assigning two runs one after the other is assigning their concatenation. */
  lemma {:induction false} PutAllConcat<K, V>(d: PyDict<K, V>, a: seq<(K, V)>, b: seq<(K, V)>)
    ensures PutAll(d, a + b) == PutAll(PutAll(d, a), b)
  {
    if b == [] {
      assert a + b == a;
    } else {
      var init := b[..|b| - 1];
      PutAllConcat(d, a, init);
      assert (a + b)[..|a + b| - 1] == a + init;
    }
  }

  /**
   * After a run of assignments, a key holds the value of its last assignment; a key the
   * run never assigned keeps its old presence and value.
   */
  lemma {:induction false} PutAllValue<K, V>(d: PyDict<K, V>, es: seq<(K, V)>, k: K)
    ensures LastKeyIndex(es, k) >= 0 ==>
      k in PutAll(d, es).items && PutAll(d, es).items[k] == es[LastKeyIndex(es, k)].1
    ensures LastKeyIndex(es, k) < 0 ==>
      (k in PutAll(d, es).items <==> k in d.items) &&
      (k in d.items ==> PutAll(d, es).items[k] == d.items[k])
  {
    if es != [] {
      var init := es[..|es| - 1];
      PutAllValue(d, init, k);
      if es[|es| - 1].0 != k {
        assert LastKeyIndex(es, k) == LastKeyIndex(init, k);
        var i := LastKeyIndex(init, k);
        if i >= 0 {
          assert es[i] == init[i];
        }
      }
    }
  }

  /** After a run of assignments, the keys are the old ones and the assigned ones. */
  lemma PutAllKeys<K, V>(d: PyDict<K, V>, es: seq<(K, V)>, k: K)
    ensures k in PutAll(d, es).items <==> k in d.items || exists i :: 0 <= i < |es| && es[i].0 == k
  {
    PutAllValue(d, es, k);
  }
}

/**
 * Insertion-ordered, string-keyed mappings: the model of a Python dict.
 * An `OMap` is a sequence of (key, value) pairs; a real dict has distinct
 * keys (`IsDict`). Lookup, assignment and `pop` follow dict semantics, and
 * `Merge` is the `|` operator: left keys keep their positions and take the
 * right operand's values, new right keys are appended in the right operand's order.
 */
module OrderedMaps {

  datatype Option<T> = None | Some(value: T)

  type OMap<V> = seq<(string, V)>

  /** The keys, in insertion order. */
  function Keys<V>(m: OMap<V>): (ks: seq<string>)
    ensures |ks| == |m|
    ensures forall i :: 0 <= i < |m| ==> ks[i] == m[i].0
  {
    seq(|m|, i requires 0 <= i < |m| => m[i].0)
  }

  /** A Python dict never holds the same key twice. */
  ghost predicate IsDict<V>(m: OMap<V>) {
    forall i, j :: 0 <= i < j < |m| ==> m[i].0 != m[j].0
  }

  /** Position of the first occurrence of `k` in `ks`. */
  function FirstIndex(ks: seq<string>, k: string): (i: nat)
    requires k in ks
    ensures i < |ks| && ks[i] == k
    ensures forall j :: 0 <= j < i ==> ks[j] != k
  {
    if ks[0] == k then 0 else 1 + FirstIndex(ks[1..], k)
  }

  function IndexOf<V>(m: OMap<V>, k: string): (i: nat)
    requires k in Keys(m)
    ensures i < |m| && m[i].0 == k
  {
    FirstIndex(Keys(m), k)
  }

  /** `m.get(k)` */
  function Get<V>(m: OMap<V>, k: string): Option<V> {
    if k in Keys(m) then Some(m[IndexOf(m, k)].1) else None
  }

  /** `m[k] = v`: an existing key keeps its position, a new key is appended. */
  function Set<V>(m: OMap<V>, k: string, v: V): OMap<V> {
    if k in Keys(m) then m[IndexOf(m, k) := (k, v)] else m + [(k, v)]
  }

  /** `m.pop(k)` on a dict (every pair with key `k` goes; a dict has at most one). */
  function Remove<V>(m: OMap<V>, k: string): OMap<V>
    decreases |m|
  {
    if m == [] then []
    else (if m[0].0 == k then [] else [m[0]]) + Remove(m[1..], k)
  }

  /** `a | b`: `a` updated with the pairs of `b`, in `b`'s order. */
  function Merge<V>(a: OMap<V>, b: OMap<V>): OMap<V>
    decreases |b|
  {
    if b == [] then a else Set(Merge(a, b[..|b| - 1]), b[|b| - 1].0, b[|b| - 1].1)
  }

  /** The keys of `kb` that are not in `ka`, in `kb`'s order. */
  function NewKeys(ka: seq<string>, kb: seq<string>): seq<string>
    decreases |kb|
  {
    if kb == [] then []
    else NewKeys(ka, kb[..|kb| - 1]) + (if kb[|kb| - 1] in ka then [] else [kb[|kb| - 1]])
  }

  lemma KeysAppend<V>(a: OMap<V>, b: OMap<V>)
    ensures Keys(a + b) == Keys(a) + Keys(b)
  {
  }

  lemma NewKeysMembers(ka: seq<string>, kb: seq<string>)
    ensures forall k :: k in NewKeys(ka, kb) <==> k in kb && k !in ka
    decreases |kb|
  {
    if kb != [] {
      NewKeysMembers(ka, kb[..|kb| - 1]);
      assert kb == kb[..|kb| - 1] + [kb[|kb| - 1]];
    }
  }

  /** Assignment changes the key order only by appending a new key. */
  lemma SetKeys<V>(m: OMap<V>, k: string, v: V)
    ensures Keys(Set(m, k, v)) == if k in Keys(m) then Keys(m) else Keys(m) + [k]
  {
    if k !in Keys(m) {
      KeysAppend(m, [(k, v)]);
    }
  }

  /** Assignment: the assigned key reads back, every other key reads as before. */
  lemma SetGet<V>(m: OMap<V>, k: string, v: V, j: string)
    ensures Get(Set(m, k, v), j) == if j == k then Some(v) else Get(m, j)
  {
    var r := Set(m, k, v);
    SetKeys(m, k, v);
    if k !in Keys(m) {
      if j == k {
        assert Keys(r)[|m|] == k;
        assert IndexOf(r, k) == |m|;
      } else if j in Keys(m) {
        assert Keys(r)[..|m|] == Keys(m);
        assert FirstIndex(Keys(r), j) == IndexOf(m, j);
      }
    }
  }

  /** Assigning to a dict keeps its keys distinct. */
  lemma SetDict<V>(m: OMap<V>, k: string, v: V)
    requires IsDict(m)
    ensures IsDict(Set(m, k, v))
  {
    SetKeys(m, k, v);
  }

  /** Assignment: the assigned key reads back, every other key is unaffected,
      and the key order changes only by appending a new key. */
  lemma SetSpec<V>(m: OMap<V>, k: string, v: V)
    ensures Keys(Set(m, k, v)) == if k in Keys(m) then Keys(m) else Keys(m) + [k]
    ensures Get(Set(m, k, v), k) == Some(v)
    ensures forall j :: j != k ==> Get(Set(m, k, v), j) == Get(m, j)
    ensures IsDict(m) ==> IsDict(Set(m, k, v))
  {
    SetKeys(m, k, v);
    SetGet(m, k, v, k);
    if IsDict(m) {
      SetDict(m, k, v);
    }
    forall j | j != k
      ensures Get(Set(m, k, v), j) == Get(m, j)
    {
      SetGet(m, k, v, j);
    }
  }

  /** Assigning a key the value it already holds changes nothing. */
  lemma SetSame<V>(m: OMap<V>, k: string, v: V)
    requires Get(m, k) == Some(v)
    ensures Set(m, k, v) == m
  {
    var i := IndexOf(m, k);
    assert m[i] == (k, v);
  }

  /** Appending a new key to a dict gives a dict. */
  lemma AppendNew<V>(m: OMap<V>, k: string, v: V)
    requires IsDict(m) && k !in Keys(m)
    ensures IsDict(m + [(k, v)])
  {
    forall i | 0 <= i < |m|
      ensures m[i].0 != k
    {
      assert Keys(m)[i] == m[i].0;
    }
  }

  /** With distinct keys, the value stored at position `i` is what `Get` finds. */
  lemma GetAt<V>(m: OMap<V>, i: nat)
    requires IsDict(m) && i < |m|
    ensures m[i].0 in Keys(m) && IndexOf(m, m[i].0) == i
    ensures Get(m, m[i].0) == Some(m[i].1)
  {
    assert Keys(m)[i] == m[i].0;
  }

  /** With distinct keys, assigning to the key stored at position `i`
      replaces exactly that position. */
  lemma SetAt<V>(m: OMap<V>, i: nat, v: V)
    requires IsDict(m) && i < |m|
    ensures Set(m, m[i].0, v) == m[i := (m[i].0, v)]
  {
    GetAt(m, i);
  }

  /** `pop`: the key is gone, every other key is unaffected. */
  lemma {:induction false} RemoveSpec<V>(m: OMap<V>, k: string)
    ensures Get(Remove(m, k), k) == None
    ensures forall j :: j != k ==> Get(Remove(m, k), j) == Get(m, j)
    ensures forall j :: j in Keys(Remove(m, k)) <==> j in Keys(m) && j != k
    decreases |m|
  {
    if m != [] {
      var t := Remove(m[1..], k);
      RemoveSpec(m[1..], k);
      var r := Remove(m, k);
      assert r == (if m[0].0 == k then [] else [m[0]]) + t;
      assert Keys(m) == [m[0].0] + Keys(m[1..]);
      forall j
        ensures j in Keys(r) <==> j in Keys(m) && j != k
      {
        KeysAppend(if m[0].0 == k then [] else [m[0]], t);
      }
      forall j | j != k
        ensures Get(r, j) == Get(m, j)
      {
        if m[0].0 == k {
          assert r == t;
          GetCons(m, j);
        } else {
          assert r == [m[0]] + t;
          assert r[1..] == t;
          GetCons(r, j);
          GetCons(m, j);
        }
      }
    }
  }

  /** `Get` on a non-empty map looks at the head, then the tail. */
  lemma GetCons<V>(m: OMap<V>, j: string)
    requires m != []
    ensures Get(m, j) == if m[0].0 == j then Some(m[0].1) else Get(m[1..], j)
  {
    assert Keys(m) == [m[0].0] + Keys(m[1..]);
    if m[0].0 != j && j in Keys(m) {
      assert FirstIndex(Keys(m), j) == 1 + FirstIndex(Keys(m[1..]), j);
    }
  }

  /** A key found in a prefix is found there first. */
  lemma GetPrefix<V>(b: OMap<V>, n: nat, k: string)
    requires n <= |b| && k in Keys(b[..n])
    ensures k in Keys(b) && Get(b, k) == Get(b[..n], k)
  {
    var i := IndexOf(b[..n], k);
    assert Keys(b)[i] == k;
  }

  /** The last pair of a dict holds a key that no earlier pair holds. */
  lemma LastIsNew<V>(b: OMap<V>)
    requires IsDict(b) && b != []
    ensures b[|b| - 1].0 !in Keys(b[..|b| - 1])
  {
    var n := |b| - 1;
    if b[n].0 in Keys(b[..n]) {
      var i := IndexOf(b[..n], b[n].0);
    }
  }

  /** The keys of a non-empty map: those of all but its last pair, then the last key. */
  lemma KeysSnoc<V>(b: OMap<V>)
    requires b != []
    ensures Keys(b) == Keys(b[..|b| - 1]) + [b[|b| - 1].0]
  {
  }

  /** In a dict, the last pair answers for its key and the earlier pairs for every other key. */
  lemma GetSnoc<V>(b: OMap<V>, k: string)
    requires IsDict(b) && b != []
    ensures Get(b, k) == if k == b[|b| - 1].0 then Some(b[|b| - 1].1) else Get(b[..|b| - 1], k)
  {
    var n := |b| - 1;
    if k == b[n].0 {
      GetAt(b, n);
    } else if k in Keys(b[..n]) {
      GetPrefix(b, n, k);
    } else {
      KeysSnoc(b);
    }
  }

  /** `a | b` keeps the keys of `a` in place and appends the new keys of `b` in order. */
  lemma {:induction false} MergeKeys<V>(a: OMap<V>, b: OMap<V>)
    requires IsDict(b)
    ensures Keys(Merge(a, b)) == Keys(a) + NewKeys(Keys(a), Keys(b))
    decreases |b|
  {
    if b != [] {
      var n := |b| - 1;
      var init := b[..n];
      assert IsDict(init);
      MergeKeys(a, init);
      SetKeys(Merge(a, init), b[n].0, b[n].1);
      LastIsNew(b);
      NewKeysMembers(Keys(a), Keys(init));
      KeysSnoc(b);
    }
  }

  /** `a | b` reads the right operand's value on a collision, the left one's otherwise. */
  lemma {:induction false} MergeGet<V>(a: OMap<V>, b: OMap<V>, k: string)
    requires IsDict(b)
    ensures Get(Merge(a, b), k) == if k in Keys(b) then Get(b, k) else Get(a, k)
    decreases |b|
  {
    if b != [] {
      var n := |b| - 1;
      var init := b[..n];
      assert IsDict(init);
      MergeGet(a, init, k);
      SetGet(Merge(a, init), b[n].0, b[n].1, k);
      KeysSnoc(b);
      GetSnoc(b, k);
    }
  }

  /** `a | b` of two dicts is a dict. */
  lemma {:induction false} MergeDict<V>(a: OMap<V>, b: OMap<V>)
    requires IsDict(a) && IsDict(b)
    ensures IsDict(Merge(a, b))
    decreases |b|
  {
    if b != [] {
      var n := |b| - 1;
      assert IsDict(b[..n]);
      MergeDict(a, b[..n]);
      SetSpec(Merge(a, b[..n]), b[n].0, b[n].1);
    }
  }

  /** Lemma for a one-pair right operand: `a | {k: v}` is `a[k] = v`. */
  lemma MergeSingle<V>(a: OMap<V>, k: string, v: V)
    ensures Merge(a, [(k, v)]) == Set(a, k, v)
  {
    assert [(k, v)][..0] == [];
  }
}

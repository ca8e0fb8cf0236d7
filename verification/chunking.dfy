/**
 * Splitting a sequence of exported entities into files of at most `m`
 * entities each: consecutive groups of `m`, the last one possibly shorter.
 */
module Chunking {

  function Chunks<T>(s: seq<T>, m: nat): seq<seq<T>>
    requires m > 0
    decreases |s|
  {
    if |s| <= m then (if s == [] then [] else [s])
    else [s[..m]] + Chunks(s[m..], m)
  }

  /** The chunks laid end to end. */
  function Concat<T>(cs: seq<seq<T>>): seq<T>
    decreases |cs|
  {
    if cs == [] then [] else cs[0] + Concat(cs[1..])
  }

  /** The total size of the chunks. */
  function SumSizes<T>(cs: seq<seq<T>>): nat
    decreases |cs|
  {
    if cs == [] then 0 else |cs[0]| + SumSizes(cs[1..])
  }

  /** Chunking `k` full chunks followed by more entities gives the full
      chunks followed by the chunks of the rest. */
  lemma {:induction false} ChunksAppend<T>(a: seq<T>, b: seq<T>, m: nat, k: nat)
    requires m > 0 && |a| == k * m
    ensures Chunks(a + b, m) == Chunks(a, m) + Chunks(b, m)
    decreases k
  {
    if k == 0 {
      assert a == [];
      assert a + b == b;
    } else {
      assert |a| == (k - 1) * m + m;
      assert (a + b)[..m] == a[..m];
      assert (a + b)[m..] == a[m..] + b;
      ChunksAppend(a[m..], b, m, k - 1);
      if k == 1 {
        assert a[m..] == [];
        assert a[m..] + b == b;
        if b == [] {
          assert a + b == a;
        }
      }
    }
  }

  lemma SmallMultiple(d: int, m: nat)
    requires m > 0 && -(m as int) < d * m < m
    ensures d == 0
  {
  }

  lemma DivStep(x: nat, m: nat)
    requires m > 0
    ensures (x + m) / m == x / m + 1
  {
    var q, r := x / m, x % m;
    var q', r' := (x + m) / m, (x + m) % m;
    assert x == q * m + r && 0 <= r < m;
    assert x + m == q' * m + r' && 0 <= r' < m;
    assert (q' - q - 1) * m == r - r';
    SmallMultiple(q' - q - 1, m);
  }

  /** ceil(K / m) chunks: none for K = 0. */
  lemma {:induction false} ChunkCount<T>(s: seq<T>, m: nat)
    requires m > 0
    ensures |Chunks(s, m)| == (|s| + m - 1) / m
    decreases |s|
  {
    if |s| > m {
      ChunkCount(s[m..], m);
      DivStep(|s[m..]| + m - 1, m);
      assert |s| + m - 1 == (|s[m..]| + m - 1) + m;
    } else if s != [] {
      DivStep(|s| - 1, m);
      assert (|s| - 1) / m == 0;
    }
  }

  /** Every chunk holds between 1 and `m` entities, and every chunk but the last exactly `m`. */
  lemma {:induction false} ChunkSizes<T>(s: seq<T>, m: nat)
    requires m > 0
    ensures forall i :: 0 <= i < |Chunks(s, m)| ==> 0 < |Chunks(s, m)[i]| <= m
    ensures forall i :: 0 <= i < |Chunks(s, m)| - 1 ==> |Chunks(s, m)[i]| == m
    decreases |s|
  {
    if |s| > m {
      ChunkSizes(s[m..], m);
      var cs := Chunks(s, m);
      assert cs == [s[..m]] + Chunks(s[m..], m);
      forall i | 1 <= i < |cs|
        ensures cs[i] == Chunks(s[m..], m)[i - 1]
      {
      }
    }
  }

  /** The chunks hold exactly the entities, each once, in their order. */
  lemma {:induction false} ChunksConcat<T>(s: seq<T>, m: nat)
    requires m > 0
    ensures Concat(Chunks(s, m)) == s
    decreases |s|
  {
    if |s| > m {
      ChunksConcat(s[m..], m);
      var cs := Chunks(s, m);
      assert cs[1..] == Chunks(s[m..], m);
      assert s == s[..m] + s[m..];
    } else if s != [] {
      assert Chunks(s, m)[1..] == [];
    }
  }

  /** The sizes of the chunks add up to the number of entities. */
  lemma {:induction false} ChunkSizesSum<T>(s: seq<T>, m: nat)
    requires m > 0
    ensures SumSizes(Chunks(s, m)) == |s|
    decreases |s|
  {
    if |s| > m {
      ChunkSizesSum(s[m..], m);
      var cs := Chunks(s, m);
      assert cs[1..] == Chunks(s[m..], m);
    } else if s != [] {
      assert Chunks(s, m)[1..] == [];
    }
  }

  /** Every chunk holds exactly `m` entities. */
  ghost predicate AllOfSize<T>(cs: seq<seq<T>>, m: nat) {
    forall i :: 0 <= i < |cs| ==> |cs[i]| == m
  }

  lemma {:induction false} ConcatSnoc<T>(cs: seq<seq<T>>, c: seq<T>)
    ensures Concat(cs + [c]) == Concat(cs) + c
    decreases |cs|
  {
    if cs == [] {
      assert [c][1..] == [];
    } else {
      ConcatSnoc(cs[1..], c);
      assert (cs + [c])[1..] == cs[1..] + [c];
    }
  }

  /** Full chunks followed by a non-empty tail of at most `m` entities are chunked back into
      those chunks and the tail. */
  lemma {:induction false} ChunksOfFull<T>(cs: seq<seq<T>>, rest: seq<T>, m: nat)
    requires m > 0 && AllOfSize(cs, m) && 0 < |rest| <= m
    ensures Chunks(Concat(cs) + rest, m) == cs + [rest]
    decreases |cs|
  {
    if cs == [] {
      assert Concat(cs) + rest == rest;
    } else {
      ChunksOfFull(cs[1..], rest, m);
      var s := Concat(cs) + rest;
      assert s == cs[0] + (Concat(cs[1..]) + rest);
      assert s[..m] == cs[0] && s[m..] == Concat(cs[1..]) + rest;
      assert cs == [cs[0]] + cs[1..];
    }
  }
}

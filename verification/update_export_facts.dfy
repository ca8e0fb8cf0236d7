/**
 * What `export_update_config` promises about its results: which entries are
 * exported or reported, what each exported entry holds, and how the exported
 * entries are spread over the `_pt<n>` files.
 */
module UpdateExportFacts {
  import opened OrderedMaps
  import opened Values
  import opened Paths
  import opened Documents
  import opened Chunking
  import opened UpdateExport

  /** `{k: v}.get(j)` */
  lemma GetSingle<V>(k: string, v: V, j: string)
    ensures Get([(k, v)], j) == if j == k then Some(v) else None
  {
    assert Keys([(k, v)]) == [k];
  }

  /** The forced directives: `operation` and `update_mask` are set, nothing else changes. */
  lemma DirectivesSpec(val: Entity)
    requires IsDict(val)
    ensures var r := WithUpdateDirectives(val);
      && IsDict(r)
      && Get(r, OperationField) == Some(Text(UpdateOp))
      && Get(r, UpdateMaskField) == Some(UpdateMask)
      && (forall k :: k != OperationField && k != UpdateMaskField ==> Get(r, k) == Get(val, k))
      && (forall k :: k in Keys(r) <==> k in Keys(val) || k == OperationField || k == UpdateMaskField)
  {
    var v1 := Set(val, OperationField, Text(UpdateOp));
    SetDict(val, OperationField, Text(UpdateOp));
    SetDict(v1, UpdateMaskField, UpdateMask);
    DirectivesKeys(val);
    DirectivesGet(val, OperationField);
    DirectivesGet(val, UpdateMaskField);
    forall k | k != OperationField && k != UpdateMaskField
      ensures Get(WithUpdateDirectives(val), k) == Get(val, k)
    {
      DirectivesGet(val, k);
    }
  }

  lemma DirectivesGet(val: Entity, k: string)
    ensures Get(WithUpdateDirectives(val), k) ==
      if k == UpdateMaskField then Some(UpdateMask) else if k == OperationField then Some(Text(UpdateOp)) else Get(val, k)
  {
    SetGet(val, OperationField, Text(UpdateOp), k);
    SetGet(Set(val, OperationField, Text(UpdateOp)), UpdateMaskField, UpdateMask, k);
  }

  lemma DirectivesKeys(val: Entity)
    ensures forall k :: k in Keys(WithUpdateDirectives(val)) <==> k in Keys(val) || k == OperationField || k == UpdateMaskField
  {
    var v1 := Set(val, OperationField, Text(UpdateOp));
    SetKeys(val, OperationField, Text(UpdateOp));
    SetKeys(v1, UpdateMaskField, UpdateMask);
  }

  /** Lines 52-61: an exported entry is `{'etag': e} | val`. Its etag is the change entry's own
      when it has one (the right operand of `|` wins), else the building etag stringified, else
      the missing-etag sentinel; unless `abel_flags` the directives are forced; every other field
      is the change entry's; and `etag` is the first key. */
  lemma PreparedEntry(val: Entity, be: Entity, abelFlags: bool)
    requires IsDict(val)
    ensures var r := Prepared(val, be, abelFlags);
      && IsDict(r)
      && Keys(r)[0] == EtagField
      && Get(r, EtagField) == (if EtagField in Keys(val) then Get(val, EtagField)
                               else if Truthy(Field(be, EtagField)) then Some(Text(ToStr(Field(be, EtagField))))
                               else Some(Text(MissingEtag)))
      && (!abelFlags ==> Get(r, OperationField) == Some(Text(UpdateOp)) && Get(r, UpdateMaskField) == Some(UpdateMask))
      && (forall k :: k != EtagField && (abelFlags || (k != OperationField && k != UpdateMaskField)) ==>
            Get(r, k) == Get(val, k))
  {
    var d := Directed(val, abelFlags);
    var e := [(EtagField, Text(EtagFor(be)))];
    if !abelFlags {
      DirectivesSpec(val);
    }
    assert IsDict(d);
    assert IsDict(e);
    MergeDict(e, d);
    MergeKeys(e, d);
    assert Keys(e) == [EtagField];
    forall k
      ensures Get(Merge(e, d), k) == if k in Keys(d) then Get(d, k) else Get(e, k)
    {
      MergeGet(e, d, k);
    }
    GetSingle(EtagField, Text(EtagFor(be)), EtagField);
    forall k | k != EtagField && (abelFlags || (k != OperationField && k != UpdateMaskField))
      ensures Get(Merge(e, d), k) == Get(val, k)
    {
      GetSingle(EtagField, Text(EtagFor(be)), k);
    }
  }

  /** Lines 48-64: exactly the translated change entries whose key the building document has are
      added, each once and in document order. */
  lemma {:induction false} AddedKeysSpec(w: Doc, b: Doc)
    requires IsDict(w)
    ensures forall i :: 0 <= i < |w| ==> (w[i].0 in AddedKeys(w, b) <==> Exported(w[i], b))
    ensures forall k :: k in AddedKeys(w, b) ==> k in Keys(w)
    ensures forall i, j :: 0 <= i < j < |AddedKeys(w, b)| ==> AddedKeys(w, b)[i] != AddedKeys(w, b)[j]
    decreases |w|
  {
    if w != [] {
      var n := |w| - 1;
      assert IsDict(w[..n]);
      AddedKeysSpec(w[..n], b);
      LastIsNew(w);
      var a := AddedKeys(w[..n], b);
      assert AddedKeys(w, b) == a + (if Exported(w[n], b) then [w[n].0] else []);
      forall i | 0 <= i < n
        ensures w[i].0 in AddedKeys(w, b) <==> Exported(w[i], b)
      {
        assert w[..n][i] == w[i];
      }
    }
  }

  /** Lines 48-66: a translated entry the building document lacks is reported, and only those are. */
  lemma MissingErrorsSpec(w: Doc, b: Doc)
    requires IsDict(w)
    ensures forall i :: 0 <= i < |w| ==>
      (NotInBuilding(w[i].0) in MissingErrors(w, b) <==> Translated(w[i].1) && w[i].0 !in Keys(b))
    ensures forall k :: NotInBuilding(k) in MissingErrors(w, b) ==> k in Keys(w)
  {
    forall i | 0 <= i < |w|
      ensures NotInBuilding(w[i].0) in MissingErrors(w, b) <==> Translated(w[i].1) && w[i].0 !in Keys(b)
    {
      if Translated(w[i].1) && w[i].0 !in Keys(b) {
        MissingReported(w, b, i);
      }
      if NotInBuilding(w[i].0) in MissingErrors(w, b) {
        var j := MissingSource(w, b, w[i].0);
      }
    }
    forall k | NotInBuilding(k) in MissingErrors(w, b)
      ensures k in Keys(w)
    {
      var i := MissingSource(w, b, k);
      assert Keys(w)[i] == k;
    }
  }

  /** Every error message names a translated entry that was walked and that the building
      document lacks. */
  lemma {:induction false} MissingSource(w: Doc, b: Doc, k: string) returns (i: nat)
    requires NotInBuilding(k) in MissingErrors(w, b)
    ensures i < |w| && w[i].0 == k && Translated(w[i].1) && k !in Keys(b)
    decreases |w|
  {
    var n := |w| - 1;
    var m := MissingErrors(w[..n], b);
    assert MissingErrors(w, b) == m + (if Translated(w[n].1) && w[n].0 !in Keys(b) then [NotInBuilding(w[n].0)] else []);
    if NotInBuilding(k) in m {
      i := MissingSource(w[..n], b, k);
      assert w[..n][i] == w[i];
    } else {
      NotInBuildingInjective(k, w[n].0);
      i := n;
    }
  }

  /** A walked translated entry that the building document lacks is reported. */
  lemma {:induction false} MissingReported(w: Doc, b: Doc, i: nat)
    requires i < |w| && Translated(w[i].1) && w[i].0 !in Keys(b)
    ensures NotInBuilding(w[i].0) in MissingErrors(w, b)
    decreases |w|
  {
    var n := |w| - 1;
    var m := MissingErrors(w[..n], b);
    assert MissingErrors(w, b) == m + (if Translated(w[n].1) && w[n].0 !in Keys(b) then [NotInBuilding(w[n].0)] else []);
    if i < n {
      assert w[..n][i] == w[i];
      MissingReported(w[..n], b, i);
    }
  }

  lemma NotInBuildingInjective(a: string, b: string)
    requires NotInBuilding(a) == NotInBuilding(b)
    ensures a == b
  {
    var p := |NotInBuildingText|;
    assert a == NotInBuilding(a)[p..];
    assert b == NotInBuilding(b)[p..];
  }

  /** The j-th chunk file (from 1) is `_pt<j>` holding `config_top | chunk`, and its message
      counts the chunk's entities. */
  lemma {:induction false} ChunkFilesAt(dumpPath: string, top: Doc, cs: seq<Doc>, j: nat)
    requires j < |cs|
    ensures ChunkFiles(dumpPath, top, cs)[j] == (ChunkName(dumpPath, j + 1), Merge(top, cs[j]))
    ensures ChunkMessages(dumpPath, cs)[j] == SavedMessage(|cs[j]|, ChunkName(dumpPath, j + 1))
    decreases |cs|
  {
    var n := |cs| - 1;
    if j < n {
      ChunkFilesAt(dumpPath, top, cs[..n], j);
    }
  }

  /** Lines 44-82 with `max_items` M != 0 and K exported entities: ceil(K / |M|) files named
      `_pt1`, `_pt2`, ..., each holding between 1 and |M| entities (exactly |M| but for the
      last), that hold every exported entity once and in order, and whose counts sum to K. */
  lemma ExportedFiles(work: Doc, b: Doc, abelFlags: bool, dumpPath: string, top: Doc, maxItems: int)
    requires maxItems != 0
    ensures var m := Abs(maxItems);
      var cs := Chunks(Outputs(work, b, abelFlags), m);
      var files := ChunkFiles(dumpPath, top, cs);
      var k := |AddedKeys(work, b)|;
      && |files| == (k + m - 1) / m
      && (forall j :: 0 <= j < |files| ==>
            && files[j] == (ChunkName(dumpPath, j + 1), Merge(top, cs[j]))
            && ChunkMessages(dumpPath, cs)[j] == SavedMessage(|cs[j]|, ChunkName(dumpPath, j + 1))
            && 0 < |cs[j]| <= m
            && (j < |files| - 1 ==> |cs[j]| == m))
      && Concat(cs) == Outputs(work, b, abelFlags)
      && SumSizes(cs) == k
  {
    var m := Abs(maxItems);
    var s := Outputs(work, b, abelFlags);
    OutputsKeys(work, b, abelFlags);
    assert |s| == |AddedKeys(work, b)|;
    ChunkCount(s, m);
    ChunkSizes(s, m);
    ChunksConcat(s, m);
    ChunkSizesSum(s, m);
    var cs := Chunks(s, m);
    forall j | 0 <= j < |cs|
      ensures ChunkFiles(dumpPath, top, cs)[j] == (ChunkName(dumpPath, j + 1), Merge(top, cs[j]))
      ensures ChunkMessages(dumpPath, cs)[j] == SavedMessage(|cs[j]|, ChunkName(dumpPath, j + 1))
    {
      ChunkFilesAt(dumpPath, top, cs, j);
    }
  }

  /** Line 70: for a path `stem.yaml` with no other `.yaml` in it, the n-th file is `stem_pt<n>.yaml`. */
  lemma ChunkNameShape(stem: string, n: nat)
    requires !Occurs(Yaml, stem)
    ensures ChunkName(stem + Yaml, n) == stem + PartText + NatToString(n) + Yaml
  {
    ReplaceYamlSuffix(stem, PartText + IntToString(n) + Yaml);
  }

  /** So distinct chunks go to distinct files. */
  lemma ChunkNamesDistinct(stem: string, i: nat, j: nat)
    requires !Occurs(Yaml, stem) && i != j
    ensures ChunkName(stem + Yaml, i) != ChunkName(stem + Yaml, j)
  {
    ChunkNameShape(stem, i);
    ChunkNameShape(stem, j);
    if ChunkName(stem + Yaml, i) == ChunkName(stem + Yaml, j) {
      var p := |stem + PartText|;
      var x, y := stem + PartText + NatToString(i) + Yaml, stem + PartText + NatToString(j) + Yaml;
      assert x[p..|x| - |Yaml|] == NatToString(i);
      assert y[p..|y| - |Yaml|] == NatToString(j);
      NatToStringInjective(i, j);
    }
  }

  /** Lines 26-29 and 71: every chunk file holds CONFIG_METADATA first, then the building root
      (unless its key is CONFIG_METADATA), then the chunk's new entities in processing order,
      each with the chunk's value. */
  lemma ChunkFileShape(d: Doc, root: nat, c: Doc)
    requires root < |d| && IsDict(c)
    ensures var top := ConfigTop(d, root);
      var f := Merge(top, c);
      && Keys(f) == Keys(top) + NewKeys(Keys(top), Keys(c))
      && Keys(f)[0] == MetadataKey
      && (d[root].0 != MetadataKey ==> Keys(f)[1] == d[root].0)
      && (forall k :: k in Keys(c) ==> Get(f, k) == Get(c, k))
  {
    var top := ConfigTop(d, root);
    ConfigTopShape(d, root);
    MergeKeys(top, c);
    forall k | k in Keys(c)
      ensures Get(Merge(top, c), k) == Get(c, k)
    {
      MergeGet(top, c, k);
    }
  }
}

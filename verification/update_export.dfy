/**
 * `export_update_config`: walks the change ("ABEL") document, exports every
 * translated entity that the building document knows, with the change entry's
 * own etag when it has an `etag` field and the building etag otherwise (and,
 * unless the change document's own flags are used, forced
 * `operation`/`update_mask` directives), and writes the result in files of at
 * most `max_items` entities, each prefixed by the config top.
 */
module UpdateExport {
  import opened OrderedMaps
  import opened Values
  import opened Paths
  import opened Documents
  import opened Chunking

  // ---------------------------------------------------------------------------
  // Selecting the change entries (`entity_list`)
  // ---------------------------------------------------------------------------

  /** The entries whose key is listed, in document order. */
  function Filtered(entries: Doc, entityList: seq<string>): Doc
    decreases |entries|
  {
    if entries == [] then []
    else
      var last := entries[|entries| - 1];
      Filtered(entries[..|entries| - 1], entityList) + (if last.0 in entityList then [last] else [])
  }

  /** The change entries the export walks: all of them when `entity_list` is None or empty. */
  function Restrict(entries: Doc, entityList: seq<string>): Doc {
    if entityList == [] then entries else Filtered(entries, entityList)
  }

  /** Filtering distributes over concatenation, so it keeps document order. */
  lemma {:induction false} FilteredAppend(a: Doc, b: Doc, entityList: seq<string>)
    ensures Filtered(a + b, entityList) == Filtered(a, entityList) + Filtered(b, entityList)
    decreases |b|
  {
    if b == [] {
      assert a + b == a;
    } else {
      var n := |b| - 1;
      assert (a + b)[..|a + b| - 1] == a + b[..n];
      FilteredAppend(a, b[..n], entityList);
    }
  }

  /** An entry is kept exactly when it is in the document and its key is listed. */
  lemma {:induction false} FilteredMembers(entries: Doc, entityList: seq<string>)
    ensures forall kv :: kv in Filtered(entries, entityList) <==> kv in entries && kv.0 in entityList
    decreases |entries|
  {
    if entries != [] {
      var n := |entries| - 1;
      FilteredMembers(entries[..n], entityList);
      assert entries == entries[..n] + [entries[n]];
    }
  }

  /** Selecting from a dict gives a dict whose pairs all come from the document. */
  lemma {:induction false} FilteredDict(entries: Doc, entityList: seq<string>)
    requires IsDict(entries)
    ensures IsDict(Filtered(entries, entityList))
    decreases |entries|
  {
    if entries != [] {
      var n := |entries| - 1;
      assert IsDict(entries[..n]);
      FilteredDict(entries[..n], entityList);
      FilteredMembers(entries[..n], entityList);
      var f := Filtered(entries[..n], entityList);
      forall i | 0 <= i < |f|
        ensures f[i].0 != entries[n].0
      {
        assert f[i] in entries[..n];
      }
    }
  }

  lemma RestrictFacts(entries: Doc, entityList: seq<string>)
    requires IsDict(entries)
    ensures IsDict(Restrict(entries, entityList))
    ensures forall kv :: kv in Restrict(entries, entityList) ==> kv in entries
  {
    if entityList != [] {
      FilteredDict(entries, entityList);
      FilteredMembers(entries, entityList);
    }
  }

  /** Where a selected entry sits in the change document. */
  lemma RestrictIndex(entries: Doc, entityList: seq<string>, i: nat) returns (p: nat)
    requires IsDict(entries) && i < |Restrict(entries, entityList)|
    ensures p < |entries| && entries[p] == Restrict(entries, entityList)[i]
  {
    RestrictFacts(entries, entityList);
    var kv := Restrict(entries, entityList)[i];
    assert kv in entries;
    p :| p < |entries| && entries[p] == kv;
  }

  /** Lines 19-24: `new_abel_config[key] = val` for every listed key, in document order. */
  method SelectEntries(entries: Doc, entityList: seq<string>) returns (selected: Doc)
    ensures selected == Restrict(entries, entityList)
  {
    if entityList == [] {
      return entries;
    }
    selected := [];
    var i := 0;
    while i < |entries|
      invariant 0 <= i <= |entries|
      invariant selected == Filtered(entries[..i], entityList)
    {
      assert entries[..i + 1][..i] == entries[..i];
      if entries[i].0 in entityList {
        selected := selected + [entries[i]];
      }
      i := i + 1;
    }
    assert entries[..i] == entries;
  }

  // ---------------------------------------------------------------------------
  // What one change entry contributes
  // ---------------------------------------------------------------------------

  const MissingEtag: string := "MISSING ETAG"
  const NotInBuildingText: string := "Not in building config: "
  const PartText: string := "_pt"
  const SavedText: string := " entities saved in "
  const Period: string := "."

  /** `val.get('translation')` is truthy. */
  predicate Translated(val: Entity) {
    Truthy(Field(val, TranslationField))
  }

  /** A change entry that is exported: translated, and its key is in the building document. */
  predicate Exported(kv: (string, Entity), building: Doc) {
    Translated(kv.1) && kv.0 in Keys(building)
  }

  /** The building entity's etag, stringified, or the missing-etag sentinel when it is falsy. */
  function EtagFor(b: Entity): string {
    if Truthy(Field(b, EtagField)) then ToStr(Field(b, EtagField)) else MissingEtag
  }

  const UpdateMask: Value := List([Text(TypeField), Text(TranslationField)])

  /** `val['operation'] = 'UPDATE'; val['update_mask'] = ['type', 'translation']` */
  function WithUpdateDirectives(val: Entity): Entity {
    Set(Set(val, OperationField, Text(UpdateOp)), UpdateMaskField, UpdateMask)
  }

  function Directed(val: Entity, abelFlags: bool): Entity {
    if abelFlags then val else WithUpdateDirectives(val)
  }

  /** `{'etag': etag} | val`, `val` after the directives were (or were not) forced. */
  function Prepared(val: Entity, b: Entity, abelFlags: bool): Entity {
    Merge([(EtagField, Text(EtagFor(b)))], Directed(val, abelFlags))
  }

  function NotInBuilding(key: string): string {
    NotInBuildingText + key
  }

  /** What one change entry adds to the exported entries: itself, prepared, or nothing. */
  function Output(kv: (string, Entity), building: Doc, abelFlags: bool): Doc {
    if Exported(kv, building) then [(kv.0, Prepared(kv.1, EntityOf(building, kv.0), abelFlags))] else []
  }

  /** The exported entries, in processing order. */
  function Outputs(w: Doc, building: Doc, abelFlags: bool): Doc
    decreases |w|
  {
    if w == [] then [] else Outputs(w[..|w| - 1], building, abelFlags) + Output(w[|w| - 1], building, abelFlags)
  }

  /** `status['added_entities']`: the keys of the exported entries. */
  function AddedKeys(w: Doc, building: Doc): seq<string>
    decreases |w|
  {
    if w == [] then []
    else
      var last := w[|w| - 1];
      AddedKeys(w[..|w| - 1], building) + (if Exported(last, building) then [last.0] else [])
  }

  /** `status['errors']`: one message per translated entry missing from the building document. */
  function MissingErrors(w: Doc, building: Doc): seq<string>
    decreases |w|
  {
    if w == [] then []
    else
      var last := w[|w| - 1];
      MissingErrors(w[..|w| - 1], building) +
        (if Translated(last.1) && last.0 !in Keys(building) then [NotInBuilding(last.0)] else [])
  }

  /** The change document after the run: the exported entries carry the forced directives. */
  function WithDirectivesOn(d: Doc, keys: seq<string>): Doc {
    seq(|d|, i requires 0 <= i < |d| => if d[i].0 in keys then (d[i].0, WithUpdateDirectives(d[i].1)) else d[i])
  }

  // ---------------------------------------------------------------------------
  // Chunk files
  // ---------------------------------------------------------------------------

  /** `dump_path.replace('.yaml', f'_pt{n}.yaml')` */
  function ChunkName(dumpPath: string, n: nat): string {
    ReplaceAll(dumpPath, Yaml, PartText + IntToString(n) + Yaml)
  }

  function SavedMessage(count: int, fileName: string): string {
    IntToString(count) + SavedText + fileName + Period
  }

  /** The files written for the chunks: the j-th (from 1) is `_pt<j>` and holds `config_top | chunk`. */
  function ChunkFiles(dumpPath: string, top: Doc, cs: seq<Doc>): (r: seq<(string, Doc)>)
    ensures |r| == |cs|
    decreases |cs|
  {
    if cs == [] then []
    else ChunkFiles(dumpPath, top, cs[..|cs| - 1]) + [(ChunkName(dumpPath, |cs|), Merge(top, cs[|cs| - 1]))]
  }

  /** `status['saved_files']` for the chunks. */
  function ChunkMessages(dumpPath: string, cs: seq<Doc>): (r: seq<string>)
    ensures |r| == |cs|
    decreases |cs|
  {
    if cs == [] then []
    else ChunkMessages(dumpPath, cs[..|cs| - 1]) + [SavedMessage(|cs[|cs| - 1]|, ChunkName(dumpPath, |cs|))]
  }

  function Abs(n: int): nat {
    if n < 0 then -n else n
  }

  // ---------------------------------------------------------------------------
  // Facts the loop proof uses
  // ---------------------------------------------------------------------------

  lemma StepFacts(w: Doc, i: nat, building: Doc, abelFlags: bool)
    requires i < |w|
    ensures Outputs(w[..i + 1], building, abelFlags) == Outputs(w[..i], building, abelFlags) + Output(w[i], building, abelFlags)
    ensures AddedKeys(w[..i + 1], building) == AddedKeys(w[..i], building) + (if Exported(w[i], building) then [w[i].0] else [])
    ensures MissingErrors(w[..i + 1], building) == MissingErrors(w[..i], building) +
      (if Translated(w[i].1) && w[i].0 !in Keys(building) then [NotInBuilding(w[i].0)] else [])
  {
    assert w[..i + 1][..i] == w[..i];
  }

  /** The added keys of a document are those of a prefix followed by those of the rest. */
  lemma {:induction false} AddedSplit(w: Doc, j: nat, building: Doc)
    requires j <= |w|
    ensures AddedKeys(w, building) == AddedKeys(w[..j], building) + AddedKeys(w[j..], building)
    decreases |w|
  {
    if j == |w| {
      assert w[..j] == w;
    } else {
      var n := |w| - 1;
      AddedSplit(w[..n], j, building);
      assert w[..n][..j] == w[..j];
      var t := w[j..];
      assert t[..|t| - 1] == w[..n][j..] && t[|t| - 1] == w[n];
    }
  }

  /** The exported entries are keyed by the added keys, which are keys of the walked entries. */
  lemma {:induction false} OutputsKeys(w: Doc, building: Doc, abelFlags: bool)
    ensures Keys(Outputs(w, building, abelFlags)) == AddedKeys(w, building)
    ensures forall k :: k in AddedKeys(w, building) ==> k in Keys(w)
    decreases |w|
  {
    if w != [] {
      var n := |w| - 1;
      OutputsKeys(w[..n], building, abelFlags);
      KeysAppend(Outputs(w[..n], building, abelFlags), Output(w[n], building, abelFlags));
    }
    AddedInWalk(w, building);
  }

  lemma {:induction false} AddedInWalk(w: Doc, building: Doc)
    ensures forall k :: k in AddedKeys(w, building) ==> k in Keys(w)
    decreases |w|
  {
    if w != [] {
      var n := |w| - 1;
      AddedInWalk(w[..n], building);
      assert Keys(w) == Keys(w[..n]) + [w[n].0];
    }
  }

  lemma DirectivesNone(d: Doc)
    ensures WithDirectivesOn(d, []) == d
  {
  }

  /** Forcing the directives on one more entry of a dict. */
  lemma DirectivesStep(d: Doc, keys: seq<string>, p: nat)
    requires IsDict(d) && p < |d| && d[p].0 !in keys
    ensures Set(WithDirectivesOn(d, keys), d[p].0, WithUpdateDirectives(d[p].1)) == WithDirectivesOn(d, keys + [d[p].0])
  {
    var dd := WithDirectivesOn(d, keys);
    assert IsDict(dd);
    SetAt(dd, p, WithUpdateDirectives(d[p].1));
  }

  lemma ChunkFilesSnoc(dumpPath: string, top: Doc, cs: seq<Doc>, c: Doc)
    ensures ChunkFiles(dumpPath, top, cs + [c]) ==
      ChunkFiles(dumpPath, top, cs) + [(ChunkName(dumpPath, |cs| + 1), Merge(top, c))]
    ensures ChunkMessages(dumpPath, cs + [c]) ==
      ChunkMessages(dumpPath, cs) + [SavedMessage(|c|, ChunkName(dumpPath, |cs| + 1))]
  {
    assert (cs + [c])[..|cs|] == cs;
  }

  /** `count % max_items == 0` for a count in 1..|max_items| holds only at |max_items|. */
  lemma ModFacts(c: nat, d: int)
    requires d != 0 && 0 < c <= Abs(d)
    ensures c % d == 0 <==> c == Abs(d)
  {
    if c < Abs(d) {
      assert c % d == c;
    }
  }

  /** What the walk has produced after the first `n` change entries: the exported entries,
      the error messages and the added keys. */
  ghost predicate Walked(work: Doc, b: Doc, abelFlags: bool, n: nat, exported: Doc, errors: seq<string>, added: seq<string>) {
    && n <= |work|
    && exported == Outputs(work[..n], b, abelFlags)
    && errors == MissingErrors(work[..n], b)
    && added == AddedKeys(work[..n], b)
  }

  /** The exported entries so far are the written chunks followed by the pending ones; with
      `max_items` zero nothing has been exported yet, otherwise every written chunk is full
      until the last entry has been walked, and after it nothing is pending. */
  ghost predicate Batched(cs: seq<Doc>, pending: Doc, maxItems: int, last: bool) {
    if maxItems == 0 then cs == [] && pending == []
    else
      && |pending| < Abs(maxItems)
      && cs == Chunks(Concat(cs), Abs(maxItems))
      && (last ==> pending == [])
      && (!last ==> AllOfSize(cs, Abs(maxItems)))
  }

  /** One more entry walked: the walk's bookkeeping for `n + 1` entries, given what the entry contributed. */
  lemma WalkStep(work: Doc, b: Doc, abelFlags: bool, n: nat, cs: seq<Doc>,
                 pending: Doc, errors: seq<string>, added: seq<string>,
                 pending': Doc, errors': seq<string>, added': seq<string>)
    requires n < |work| && Walked(work, b, abelFlags, n, Concat(cs) + pending, errors, added)
    requires Exported(work[n], b) ==>
      && pending' == pending + [(work[n].0, Prepared(work[n].1, EntityOf(b, work[n].0), abelFlags))]
      && added' == added + [work[n].0] && errors' == errors
    requires !Exported(work[n], b) ==>
      && pending' == pending && added' == added
      && errors' == errors + (if Translated(work[n].1) then [NotInBuilding(work[n].0)] else [])
    ensures Walked(work, b, abelFlags, n + 1, Concat(cs) + pending', errors', added')
  {
    StepFacts(work, n, b, abelFlags);
    if Exported(work[n], b) {
      assert Concat(cs) + pending' == (Concat(cs) + pending) + [(work[n].0, Prepared(work[n].1, EntityOf(b, work[n].0), abelFlags))];
    }
  }

  /** The entry about to be walked is new to the pending chunk and to the added keys. */
  lemma FreshKey(work: Doc, b: Doc, abelFlags: bool, n: nat, cs: seq<Doc>, pending: Doc, errors: seq<string>, added: seq<string>)
    requires IsDict(work) && n < |work| && Walked(work, b, abelFlags, n, Concat(cs) + pending, errors, added)
    ensures work[n].0 !in added && work[n].0 !in Keys(pending)
  {
    OutputsKeys(work[..n], b, abelFlags);
    KeysAppend(Concat(cs), pending);
    assert work[n].0 !in Keys(work[..n]);
  }

  /** Writing the pending chunk: full, or the last one. */
  lemma FlushStep(cs: seq<Doc>, pending: Doc, maxItems: int, last: bool)
    requires maxItems != 0 && 0 < |pending| <= Abs(maxItems) && (last || |pending| == Abs(maxItems))
    requires AllOfSize(cs, Abs(maxItems)) && cs == Chunks(Concat(cs), Abs(maxItems))
    ensures Batched(cs + [pending], [], maxItems, last)
    ensures Concat(cs + [pending]) == Concat(cs) + pending
  {
    ChunksOfFull(cs, pending, Abs(maxItems));
    ConcatSnoc(cs, pending);
  }

  /** With `max_items` zero the first exported entry raises, and it is the first added key. */
  lemma FirstAdded(work: Doc, b: Doc, abelFlags: bool, n: nat)
    requires n < |work| && Outputs(work[..n], b, abelFlags) == [] && Outputs(work[..n + 1], b, abelFlags) != []
    ensures AddedKeys(work, b) != [] && AddedKeys(work, b)[..1] == AddedKeys(work[..n + 1], b)
  {
    OutputsKeys(work[..n], b, abelFlags);
    OutputsKeys(work[..n + 1], b, abelFlags);
    StepFacts(work, n, b, abelFlags);
    AddedSplit(work, n + 1, b);
  }

  // ---------------------------------------------------------------------------
  // The export
  // ---------------------------------------------------------------------------

  /** Lines 48-66, one change entry: a translated entry the building document knows is exported
      (after its directives are forced in the change document itself unless `abel_flags`); a
      translated entry it does not know is reported. `d0[p]` is the entry in the change document. */
  method ExportEntry(abel: Document, ghost d0: Doc, ghost p: nat, b: Doc, abelFlags: bool, work: Doc, idx: nat, ghost cs: seq<Doc>,
                     updateConfig: Doc, added: seq<string>, errors: seq<string>, entityCounter: nat)
    returns (updateConfig': Doc, added': seq<string>, errors': seq<string>, entityCounter': nat, ghost exported': Doc)
    requires IsDict(d0) && IsDict(work) && idx < |work| && p < |d0| && d0[p] == work[idx]
    requires Walked(work, b, abelFlags, idx, Concat(cs) + updateConfig, errors, added) && entityCounter == |updateConfig|
    requires abel.entries == WithDirectivesOn(d0, if abelFlags then [] else added)
    modifies abel
    ensures exported' == Concat(cs) + updateConfig'
    ensures Walked(work, b, abelFlags, idx + 1, exported', errors', added') && entityCounter' == |updateConfig'|
    ensures updateConfig' == updateConfig || (|updateConfig'| == |updateConfig| + 1 && updateConfig'[..|updateConfig|] == updateConfig)
    ensures abel.entries == WithDirectivesOn(d0, if abelFlags then [] else added')
  {
    FreshKey(work, b, abelFlags, idx, cs, updateConfig, errors, added);
    var key, val := work[idx].0, work[idx].1;
    updateConfig', added', errors', entityCounter' := updateConfig, added, errors, entityCounter;
    if Translated(val) {
      if key in Keys(b) {
        var etag := EtagFor(EntityOf(b, key));
        if !abelFlags {
          DirectivesStep(d0, added, p);
          val := WithUpdateDirectives(val);
          abel.entries := Set(abel.entries, key, val);
        }
        updateConfig' := Set(updateConfig, key, Merge([(EtagField, Text(etag))], val));
        added' := added + [key];
        entityCounter' := entityCounter + 1;
      } else {
        errors' := errors + [NotInBuilding(key)];
      }
    }
    WalkStep(work, b, abelFlags, idx, cs, updateConfig, errors, added, updateConfig', errors', added');
    exported' := Concat(cs) + updateConfig';
  }

  /** Lines 68-82: the pending chunk is written, prefixed by the config top, to the `_pt<n>` file,
      and the file is reported in `saved_files`. */
  method WriteChunk(files: FileLog, dumpPath: string, top: Doc, chunkCounter: nat, updateConfig: Doc, entityCounter: nat,
                    saved: seq<string>, ghost written0: seq<(string, Doc)>, ghost cs: seq<Doc>)
    returns (saved': seq<string>)
    requires chunkCounter == |cs| + 1 && entityCounter == |updateConfig|
    requires files.written == written0 + ChunkFiles(dumpPath, top, cs) && saved == ChunkMessages(dumpPath, cs)
    modifies files
    ensures files.written == old(files.written) + [(ChunkName(dumpPath, chunkCounter), Merge(top, updateConfig))]
    ensures saved' == saved + [SavedMessage(entityCounter, ChunkName(dumpPath, chunkCounter))]
    ensures files.written == written0 + ChunkFiles(dumpPath, top, cs + [updateConfig])
    ensures saved' == ChunkMessages(dumpPath, cs + [updateConfig])
  {
    var newFileName := ReplaceAll(dumpPath, Yaml, PartText + IntToString(chunkCounter) + Yaml);
    files.Write(newFileName, Merge(top, updateConfig));
    saved' := saved + [SavedMessage(entityCounter, newFileName)];
    ChunkFilesSnoc(dumpPath, top, cs, updateConfig);
  }

  /** Lines 68-84 after an exported entry: the pending chunk is written when it is full
      (`entity_counter % max_items == 0`) or when the walked entry was the last one (`last`). */
  method FlushIfDue(files: FileLog, dumpPath: string, top: Doc, maxItems: int, last: bool,
                    updateConfig: Doc, entityCounter: nat, chunkCounter: nat, saved: seq<string>,
                    ghost written0: seq<(string, Doc)>, ghost cs: seq<Doc>)
    returns (updateConfig': Doc, entityCounter': nat, chunkCounter': nat, saved': seq<string>, ghost cs': seq<Doc>)
    requires maxItems != 0 && 0 < entityCounter <= Abs(maxItems) && entityCounter == |updateConfig|
    requires AllOfSize(cs, Abs(maxItems)) && cs == Chunks(Concat(cs), Abs(maxItems)) && chunkCounter == |cs| + 1
    requires files.written == written0 + ChunkFiles(dumpPath, top, cs) && saved == ChunkMessages(dumpPath, cs)
    modifies files
    ensures Batched(cs', updateConfig', maxItems, last) && Concat(cs') + updateConfig' == Concat(cs) + updateConfig
    ensures entityCounter' == |updateConfig'| && chunkCounter' == |cs'| + 1
    ensures files.written == written0 + ChunkFiles(dumpPath, top, cs') && saved' == ChunkMessages(dumpPath, cs')
  {
    ModFacts(entityCounter, maxItems);
    if entityCounter % maxItems == 0 || last {
      FlushStep(cs, updateConfig, maxItems, last);
      saved' := WriteChunk(files, dumpPath, top, chunkCounter, updateConfig, entityCounter, saved, written0, cs);
      cs' := cs + [updateConfig];
      updateConfig', entityCounter', chunkCounter' := [], 0, chunkCounter + 1;
    } else {
      updateConfig', entityCounter', chunkCounter', saved', cs' := updateConfig, entityCounter, chunkCounter, saved, cs;
    }
  }

  /** The state of the walk after the first `idx` entries of `work`: what the walk produced, the
      change document `abelEntries` with the directives forced so far, the chunks `cs` written
      (as files appended to `written0`) and the pending chunk. */
  ghost predicate Progress(d0: Doc, work: Doc, b: Doc, abelFlags: bool, maxItems: int, dumpPath: string, top: Doc,
                           written0: seq<(string, Doc)>, idx: nat, cs: seq<Doc>, updateConfig: Doc,
                           entityCounter: nat, chunkCounter: nat, errors: seq<string>, added: seq<string>,
                           saved: seq<string>, abelEntries: Doc, written: seq<(string, Doc)>)
  {
    && Walked(work, b, abelFlags, idx, Concat(cs) + updateConfig, errors, added)
    && abelEntries == WithDirectivesOn(d0, if abelFlags then [] else added)
    && Batched(cs, updateConfig, maxItems, idx == |work|)
    && entityCounter == |updateConfig| && chunkCounter == |cs| + 1
    && written == written0 + ChunkFiles(dumpPath, top, cs)
    && saved == ChunkMessages(dumpPath, cs)
  }

  /** Lines 48-84 for the change entry at `idx`: the entry is exported or reported, and the pending
      chunk is written when it is due; `raised` is `entity_counter % 0` failing. */
  method Visit(abel: Document, files: FileLog, ghost d0: Doc, ghost entityList: seq<string>, b: Doc, top: Doc,
               abelFlags: bool, dumpPath: string, work: Doc, maxItems: int, idx: nat, ghost written0: seq<(string, Doc)>,
               ghost cs: seq<Doc>, updateConfig: Doc, entityCounter: nat, chunkCounter: nat,
               errors: seq<string>, added: seq<string>, saved: seq<string>)
    returns (raised: bool, updateConfig': Doc, entityCounter': nat, chunkCounter': nat,
             errors': seq<string>, added': seq<string>, saved': seq<string>, ghost cs': seq<Doc>)
    requires IsDict(d0) && work == Restrict(d0, entityList) && idx < |work|
    requires Progress(d0, work, b, abelFlags, maxItems, dumpPath, top, written0, idx, cs, updateConfig,
                      entityCounter, chunkCounter, errors, added, saved, abel.entries, files.written)
    modifies abel, files
    ensures !raised ==> Progress(d0, work, b, abelFlags, maxItems, dumpPath, top, written0, idx + 1, cs', updateConfig',
                                 entityCounter', chunkCounter', errors', added', saved', abel.entries, files.written)
    ensures raised ==>
      && maxItems == 0 && files.written == written0 && AddedKeys(work, b) != []
      && abel.entries == WithDirectivesOn(d0, if abelFlags then [] else AddedKeys(work, b)[..1])
  {
    RestrictFacts(d0, entityList);
    ghost var p := RestrictIndex(d0, entityList, idx);
    ghost var exported;
    updateConfig', added', errors', entityCounter', exported :=
      ExportEntry(abel, d0, p, b, abelFlags, work, idx, cs, updateConfig, added, errors, entityCounter);
    raised, chunkCounter', saved', cs' := false, chunkCounter, saved, cs;
    if entityCounter' != 0 {
      if maxItems == 0 {
        FirstAdded(work, b, abelFlags, idx);
        raised := true;
        return;
      }
      updateConfig', entityCounter', chunkCounter', saved', cs' :=
        FlushIfDue(files, dumpPath, top, maxItems, idx == |work| - 1, updateConfig', entityCounter', chunkCounter', saved',
                   written0, cs);
    }
  }

  /** Once every entry is walked, the walk's state is the one the export promises. */
  lemma Finished(d0: Doc, work: Doc, b: Doc, abelFlags: bool, maxItems: int, dumpPath: string, top: Doc,
                 written0: seq<(string, Doc)>, cs: seq<Doc>, updateConfig: Doc,
                 entityCounter: nat, chunkCounter: nat, errors: seq<string>, added: seq<string>,
                 saved: seq<string>, abelEntries: Doc, written: seq<(string, Doc)>)
    requires Progress(d0, work, b, abelFlags, maxItems, dumpPath, top, written0, |work|, cs, updateConfig,
                      entityCounter, chunkCounter, errors, added, saved, abelEntries, written)
    ensures maxItems != 0 ==>
      var cs := Chunks(Outputs(work, b, abelFlags), Abs(maxItems));
      && Status(errors, added, saved) == Status(MissingErrors(work, b), AddedKeys(work, b), ChunkMessages(dumpPath, cs))
      && written == written0 + ChunkFiles(dumpPath, top, cs)
      && abelEntries == WithDirectivesOn(d0, if abelFlags then [] else AddedKeys(work, b))
    ensures maxItems == 0 ==>
      && written == written0 && AddedKeys(work, b) == []
      && Status(errors, added, saved) == Status(MissingErrors(work, b), [], [])
      && abelEntries == WithDirectivesOn(d0, if abelFlags then [] else AddedKeys(work, b)[..0])
  {
    assert work[..|work|] == work;
    OutputsKeys(work, b, abelFlags);
    if maxItems != 0 {
      assert updateConfig == [] && Concat(cs) + updateConfig == Concat(cs);
      assert Outputs(work, b, abelFlags) == Concat(cs);
    } else {
      assert Concat(cs) + updateConfig == [];
    }
  }

  /** Lines 44-84: the walk over the selected change entries `work`, with the config top `top`. */
  method ExportEntries(abel: Document, ghost d0: Doc, ghost entityList: seq<string>, b: Doc, top: Doc, abelFlags: bool,
                       dumpPath: string, work: Doc, maxItems: int, files: FileLog) returns (out: Outcome)
    requires IsDict(d0) && work == Restrict(d0, entityList) && abel.entries == d0
    modifies abel, files
    ensures maxItems != 0 ==>
      var cs := Chunks(Outputs(work, b, abelFlags), Abs(maxItems));
      && out == Done(Status(MissingErrors(work, b), AddedKeys(work, b), ChunkMessages(dumpPath, cs)))
      && files.written == old(files.written) + ChunkFiles(dumpPath, top, cs)
      && abel.entries == WithDirectivesOn(d0, if abelFlags then [] else AddedKeys(work, b))
    ensures maxItems == 0 ==>
      var added := AddedKeys(work, b);
      && files.written == old(files.written)
      && (added == [] ==> out == Done(Status(MissingErrors(work, b), [], [])))
      && (added != [] ==> out == Raised(ZeroDivisionError))
      && abel.entries == WithDirectivesOn(d0, if abelFlags then [] else added[..if added == [] then 0 else 1])
  {
    var updateConfig: Doc := [];
    var entityCounter: nat := 0;
    var chunkCounter: nat := 1;
    var errors: seq<string> := [];
    var added: seq<string> := [];
    var saved: seq<string> := [];
    ghost var cs: seq<Doc> := [];
    ghost var written0 := files.written;
    DirectivesNone(d0);
    assert Concat(cs) + updateConfig == [];

    var idx := 0;
    while idx < |work|
      invariant idx <= |work|
      invariant Progress(d0, work, b, abelFlags, maxItems, dumpPath, top, written0, idx, cs, updateConfig,
                         entityCounter, chunkCounter, errors, added, saved, abel.entries, files.written)
    {
      var raised;
      raised, updateConfig, entityCounter, chunkCounter, errors, added, saved, cs :=
        Visit(abel, files, d0, entityList, b, top, abelFlags, dumpPath, work, maxItems, idx, written0,
              cs, updateConfig, entityCounter, chunkCounter, errors, added, saved);
      if raised {
        return Raised(ZeroDivisionError);
      }
      idx := idx + 1;
    }
    Finished(d0, work, b, abelFlags, maxItems, dumpPath, top, written0, cs, updateConfig,
             entityCounter, chunkCounter, errors, added, saved, abel.entries, files.written);
    return Done(Status(errors, added, saved));
  }

  /** Lines 8-84. `entityList` empty stands for `entity_list=None`. */
  method ExportUpdateConfig(building: Document, abel: Document, abelFlags: bool, dumpPath: string,
                            entityList: seq<string>, maxItems: int, files: FileLog) returns (out: Outcome)
    requires abel != building && IsDict(abel.entries)
    modifies abel, files
    ensures BuildingRoot(building.entries).None? ==>
      out == Raised(IndexError) && abel.entries == old(abel.entries) && files.written == old(files.written)
    ensures BuildingRoot(building.entries).Some? && maxItems != 0 ==>
      var w := Restrict(old(abel.entries), entityList);
      var cs := Chunks(Outputs(w, building.entries, abelFlags), Abs(maxItems));
      var top := ConfigTop(building.entries, BuildingRoot(building.entries).value);
      && out == Done(Status(MissingErrors(w, building.entries), AddedKeys(w, building.entries), ChunkMessages(dumpPath, cs)))
      && files.written == old(files.written) + ChunkFiles(dumpPath, top, cs)
      && abel.entries == WithDirectivesOn(old(abel.entries), if abelFlags then [] else AddedKeys(w, building.entries))
    ensures BuildingRoot(building.entries).Some? && maxItems == 0 ==>
      var w := Restrict(old(abel.entries), entityList);
      var added := AddedKeys(w, building.entries);
      && files.written == old(files.written)
      && (added == [] ==> out == Done(Status(MissingErrors(w, building.entries), [], [])))
      && (added != [] ==> out == Raised(ZeroDivisionError))
      && abel.entries == WithDirectivesOn(old(abel.entries), if abelFlags then [] else added[..if added == [] then 0 else 1])
  {
    var work := SelectEntries(abel.entries, entityList);
    var root := BuildingRoot(building.entries);
    if root.None? {
      return Raised(IndexError);
    }
    var top := ConfigTop(building.entries, root.value);
    out := ExportEntries(abel, abel.entries, entityList, building.entries, top, abelFlags, dumpPath, work, maxItems, files);
  }
}

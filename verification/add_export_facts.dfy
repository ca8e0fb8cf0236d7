/**
 * What `export_add_config` promises, proved about its walk of the change
 * document:
 * - cleaning a link target touches only its operation, update mask and etag,
 *   and cleaning twice is cleaning once;
 * - the walk keeps every key of both documents and the links and codes it reads,
 *   so its errors and its crash are those of a reference definition over the
 *   original documents;
 * - without `abel_flags` nothing is classified UPDATE;
 * - the reporting dicts only grow, so the first target stored under an id stays;
 * - `add_config` starts with the config top, and the virtual entities win over
 *   the reported targets, which win over the top.
 * Where the stored targets point, when a target is stored and which entries
 * join the virtual sets with `abel_flags` are proved in AddExportTargets.
 */
module AddExportFacts {
  import opened OrderedMaps
  import opened Values
  import opened Documents
  import opened AddExport

  // ---------------------------------------------------------------------------
  // Cleaning a target
  // ---------------------------------------------------------------------------

  /** A cleaned target has no truthy operation or update mask (falsy ones are kept as they
      were), its truthy etag is a string, and every other field is as it was. */
  lemma CleanSpec(e: Entity)
    ensures var c := Clean(e);
      && !Truthy(Field(c, OperationField)) && !Truthy(Field(c, UpdateMaskField))
      && (!Truthy(Field(e, OperationField)) ==> Get(c, OperationField) == Get(e, OperationField))
      && (!Truthy(Field(e, UpdateMaskField)) ==> Get(c, UpdateMaskField) == Get(e, UpdateMaskField))
      && Field(c, EtagField) == (if Truthy(Field(e, EtagField)) then Text(ToStr(Field(e, EtagField))) else Field(e, EtagField))
      && forall k :: k != OperationField && k != UpdateMaskField && k != EtagField ==> Get(c, k) == Get(e, k)
  {
    var e1 := if Truthy(Field(e, OperationField)) then Remove(e, OperationField) else e;
    var e2 := if Truthy(Field(e1, UpdateMaskField)) then Remove(e1, UpdateMaskField) else e1;
    RemoveSpec(e, OperationField);
    RemoveSpec(e1, UpdateMaskField);
    var v := Field(e2, EtagField);
    if Truthy(v) {
      SetSpec(e2, EtagField, Text(ToStr(v)));
    }
  }

  /** A target linked from two entries is cleaned twice; the second time changes nothing. */
  lemma CleanIdempotent(e: Entity)
    ensures Clean(Clean(e)) == Clean(e)
  {
    var c := Clean(e);
    CleanSpec(e);
    var v := Field(c, EtagField);
    if Truthy(v) {
      ToStrText(Field(e, EtagField));
      assert Get(c, EtagField) == Some(v);
      SetSame(c, EtagField, Text(ToStr(v)));
    }
  }

  // ---------------------------------------------------------------------------
  // What the walk keeps
  // ---------------------------------------------------------------------------

  /** The `links` of the entities, position by position. */
  function LinksOf(d: Doc): seq<Value> {
    seq(|d|, i requires 0 <= i < |d| => Field(d[i].1, LinksField))
  }

  /** The `code` of the entities, position by position. */
  function CodesOf(d: Doc): seq<Value> {
    seq(|d|, i requires 0 <= i < |d| => Field(d[i].1, CodeField))
  }

  /** `st` has the keys of `st0` in both documents, and the same `links` and `code` in
      every entity of the change document. */
  ghost predicate Keeps(st0: AddState, st: AddState) {
    && Keys(st.abel) == Keys(st0.abel) && Keys(st.building) == Keys(st0.building)
    && LinksOf(st.abel) == LinksOf(st0.abel) && CodesOf(st.abel) == CodesOf(st0.abel)
  }

  /** Documents with the same keys, links and codes read the same links and code under every key. */
  lemma FieldsAt(d: Doc, d0: Doc, k: string)
    requires Keys(d) == Keys(d0) && LinksOf(d) == LinksOf(d0) && CodesOf(d) == CodesOf(d0)
    ensures Field(EntityOf(d, k), LinksField) == Field(EntityOf(d0, k), LinksField)
    ensures Field(EntityOf(d, k), CodeField) == Field(EntityOf(d0, k), CodeField)
  {
    if k in Keys(d) {
      var i := IndexOf(d, k);
      assert i == IndexOf(d0, k);
      assert LinksOf(d)[i] == Field(d[i].1, LinksField);
      assert CodesOf(d)[i] == Field(d[i].1, CodeField);
    }
  }

  /** Replacing an entity by one with the same links and code keeps the keys, links and codes. */
  lemma SetFields(d: Doc, k: string, e: Entity)
    requires k in Keys(d)
    requires Field(e, LinksField) == Field(EntityOf(d, k), LinksField)
    requires Field(e, CodeField) == Field(EntityOf(d, k), CodeField)
    ensures Keys(Set(d, k, e)) == Keys(d) && LinksOf(Set(d, k, e)) == LinksOf(d) && CodesOf(Set(d, k, e)) == CodesOf(d)
  {
    var i := IndexOf(d, k);
    var d' := Set(d, k, e);
    assert d' == d[i := (k, e)];
    assert LinksOf(d') == LinksOf(d);
    assert CodesOf(d') == CodesOf(d);
  }

  lemma EntityOfSet(d: Doc, k: string, e: Entity, j: string)
    ensures EntityOf(Set(d, k, e), j) == if j == k then e else EntityOf(d, j)
  {
    SetGet(d, k, e, j);
  }

  /** Cleaning a target keeps its links and code. */
  lemma CleanFields(e: Entity)
    ensures Field(Clean(e), LinksField) == Field(e, LinksField)
    ensures Field(Clean(e), CodeField) == Field(e, CodeField)
  {
    CleanSpec(e);
    assert Get(Clean(e), LinksField) == Get(e, LinksField);
    assert Get(Clean(e), CodeField) == Get(e, CodeField);
  }

  /** The error one link adds: none when either document holds the target. */
  function Missing(abelKeys: seq<string>, buildingKeys: seq<string>, code: Value, key: string, link: string): seq<string> {
    if link in abelKeys || link in buildingKeys then [] else [LinkError(link, code, key)]
  }

  /** The errors of the links of the entry `key`, in order. */
  function Unresolved(abelKeys: seq<string>, buildingKeys: seq<string>, code: Value, key: string, links: seq<string>): seq<string>
    decreases |links|
  {
    if links == [] then []
    else Unresolved(abelKeys, buildingKeys, code, key, links[..|links| - 1]) +
         Missing(abelKeys, buildingKeys, code, key, links[|links| - 1])
  }

  lemma LocateFrame(st: AddState, key: string, link: string)
    ensures var r := Locate(st, key, link);
      && Keeps(st, r)
      && r.reportAdd == st.reportAdd && r.reportUpdate == st.reportUpdate
      && r.crashed == st.crashed && r.addVirtual == st.addVirtual && r.updateVirtual == st.updateVirtual
      && r.errors == st.errors + Missing(Keys(st.abel), Keys(st.building), Field(EntityOf(st.abel, key), CodeField), key, link)
  {
    if link in Keys(st.abel) {
      CleanFields(EntityOf(st.abel, link));
      SetFields(st.abel, link, Clean(EntityOf(st.abel, link)));
    } else if link in Keys(st.building) {
      SetKeys(st.building, link, Clean(EntityOf(st.building, link)));
    }
  }

  /** Storing touches the reporting dicts only: they grow by appending a new id, and an entry
      whose operation is not UPDATE stores nothing in the UPDATE dict. */
  lemma StoreFacts(st: AddState, key: string, link: string, ref: Ref)
    ensures var r := Store(st, key, link, ref);
      && r.(reportAdd := st.reportAdd, reportUpdate := st.reportUpdate) == st
      && st.reportAdd <= r.reportAdd && st.reportUpdate <= r.reportUpdate
      && (IsDict(st.reportAdd) ==> IsDict(r.reportAdd))
      && (IsDict(st.reportUpdate) ==> IsDict(r.reportUpdate))
      && (Field(EntityOf(st.abel, key), OperationField) != Text(UpdateOp) ==> r.reportUpdate == st.reportUpdate)
  {
    if link !in Keys(st.reportAdd) && IsDict(st.reportAdd) {
      AppendNew(st.reportAdd, link, ref);
    }
    if link !in Keys(st.reportUpdate) && IsDict(st.reportUpdate) {
      AppendNew(st.reportUpdate, link, ref);
    }
  }

  lemma ResolveFrame(st: AddState, key: string, link: string)
    ensures var r := Resolve(st, key, link);
      && Keeps(st, r)
      && r.crashed == st.crashed && r.addVirtual == st.addVirtual && r.updateVirtual == st.updateVirtual
      && r.errors == st.errors + Missing(Keys(st.abel), Keys(st.building), Field(EntityOf(st.abel, key), CodeField), key, link)
  {
    LocateFrame(st, key, link);
    StoreFacts(Locate(st, key, link), key, link, RefTo(st.abel, st.building, link));
  }

  /** The reporting dicts grow by appending a new id only. */
  lemma ResolveReports(st: AddState, key: string, link: string)
    ensures var r := Resolve(st, key, link);
      && st.reportAdd <= r.reportAdd && st.reportUpdate <= r.reportUpdate
      && (IsDict(st.reportAdd) ==> IsDict(r.reportAdd))
      && (IsDict(st.reportUpdate) ==> IsDict(r.reportUpdate))
  {
    LocateFrame(st, key, link);
    StoreFacts(Locate(st, key, link), key, link, RefTo(st.abel, st.building, link));
  }

  /** An entry whose operation is not UPDATE stores nothing in the UPDATE dict, and cleaning a
      target (possibly the entry itself) does not make it UPDATE. */
  lemma ResolveNoUpdate(st: AddState, key: string, link: string)
    requires Field(EntityOf(st.abel, key), OperationField) != Text(UpdateOp)
    ensures var r := Resolve(st, key, link);
      r.reportUpdate == st.reportUpdate && Field(EntityOf(r.abel, key), OperationField) != Text(UpdateOp)
  {
    var st1 := Locate(st, key, link);
    if link in Keys(st.abel) {
      EntityOfSet(st.abel, link, Clean(EntityOf(st.abel, link)), key);
      CleanSpec(EntityOf(st.abel, link));
    }
    assert Field(EntityOf(st1.abel, key), OperationField) != Text(UpdateOp);
    StoreFacts(st1, key, link, RefTo(st.abel, st.building, link));
  }

  lemma {:induction false} ResolveAllFrame(st: AddState, key: string, links: seq<string>)
    ensures var r := ResolveAll(st, key, links);
      && Keeps(st, r)
      && r.crashed == st.crashed && r.addVirtual == st.addVirtual && r.updateVirtual == st.updateVirtual
      && r.errors == st.errors + Unresolved(Keys(st.abel), Keys(st.building), Field(EntityOf(st.abel, key), CodeField), key, links)
    decreases |links|
  {
    if links != [] {
      var init := links[..|links| - 1];
      var mid := ResolveAll(st, key, init);
      ResolveAllFrame(st, key, init);
      ResolveFrame(mid, key, links[|links| - 1]);
      FieldsAt(mid.abel, st.abel, key);
    }
  }

  lemma {:induction false} ResolveAllReports(st: AddState, key: string, links: seq<string>)
    ensures var r := ResolveAll(st, key, links);
      && st.reportAdd <= r.reportAdd && st.reportUpdate <= r.reportUpdate
      && (IsDict(st.reportAdd) ==> IsDict(r.reportAdd))
      && (IsDict(st.reportUpdate) ==> IsDict(r.reportUpdate))
    decreases |links|
  {
    if links != [] {
      var init := links[..|links| - 1];
      ResolveAllReports(st, key, init);
      ResolveReports(ResolveAll(st, key, init), key, links[|links| - 1]);
    }
  }

  lemma {:induction false} ResolveAllNoUpdate(st: AddState, key: string, links: seq<string>)
    requires Field(EntityOf(st.abel, key), OperationField) != Text(UpdateOp)
    ensures var r := ResolveAll(st, key, links);
      r.reportUpdate == st.reportUpdate && Field(EntityOf(r.abel, key), OperationField) != Text(UpdateOp)
    decreases |links|
  {
    if links != [] {
      var init := links[..|links| - 1];
      ResolveAllNoUpdate(st, key, init);
      ResolveNoUpdate(ResolveAll(st, key, init), key, links[|links| - 1]);
    }
  }

  lemma ClassifyFacts(st: AddState, key: string, abelFlags: bool)
    requires key in Keys(st.abel)
    ensures var r := Classify(st, key, abelFlags);
      var op := Field(EntityOf(st.abel, key), OperationField);
      && Keeps(st, r)
      && r.building == st.building && r.reportAdd == st.reportAdd && r.reportUpdate == st.reportUpdate
      && r.errors == st.errors && r.crashed == st.crashed
      && r.addVirtual == st.addVirtual + (if !abelFlags || op == Text(AddOp) then [key] else [])
      && r.updateVirtual == st.updateVirtual + (if abelFlags && op == Text(UpdateOp) then [key] else [])
      && (!abelFlags ==> Field(EntityOf(r.abel, key), OperationField) == Text(AddOp))
  {
    if !abelFlags {
      var e := EntityOf(st.abel, key);
      var e' := Set(e, OperationField, Text(AddOp));
      SetGet(e, OperationField, Text(AddOp), LinksField);
      SetGet(e, OperationField, Text(AddOp), CodeField);
      SetGet(e, OperationField, Text(AddOp), OperationField);
      SetFields(st.abel, key, e');
      EntityOfSet(st.abel, key, e', key);
    }
  }

  /** The errors one entry adds: those of its unresolved links, none when its links are falsy
      or cannot be iterated. */
  function EntryErrors(abelKeys: seq<string>, buildingKeys: seq<string>, links: Value, code: Value, key: string): seq<string> {
    if !Truthy(links) then []
    else match LinkTargets(links)
      case None => []
      case Some(ls) => Unresolved(abelKeys, buildingKeys, code, key, ls)
  }

  /** `for link in val['links']` raises: truthy links that are a number or a boolean. */
  predicate EntryCrashes(links: Value) {
    Truthy(links) && LinkTargets(links).None?
  }

  lemma VisitFrame(st: AddState, key: string, abelFlags: bool)
    ensures var r := Visit(st, key, abelFlags);
      var e := EntityOf(st.abel, key);
      && Keeps(st, r)
      && r.errors == st.errors + EntryErrors(Keys(st.abel), Keys(st.building), Field(e, LinksField), Field(e, CodeField), key)
      && r.crashed == (st.crashed || EntryCrashes(Field(e, LinksField)))
  {
    var e := EntityOf(st.abel, key);
    if Truthy(Field(e, LinksField)) {
      var st1 := Classify(st, key, abelFlags);
      ClassifyFacts(st, key, abelFlags);
      FieldsAt(st1.abel, st.abel, key);
      match LinkTargets(Field(EntityOf(st1.abel, key), LinksField))
      case None =>
      case Some(links) =>
        ResolveAllFrame(st1, key, links);
    }
  }

  /** Reference definition of the errors of the walk over `keys`, from the original documents:
      entry by entry, the unresolved links, up to the first entry whose links raise. */
  function ExpectedErrors(abel0: Doc, building0: Doc, keys: seq<string>): seq<string>
    decreases |keys|
  {
    if keys == [] then []
    else
      var e := EntityOf(abel0, keys[0]);
      EntryErrors(Keys(abel0), Keys(building0), Field(e, LinksField), Field(e, CodeField), keys[0]) +
      (if EntryCrashes(Field(e, LinksField)) then [] else ExpectedErrors(abel0, building0, keys[1..]))
  }

  /** Reference definition of the crash: some entry's links raise. */
  predicate ExpectedCrash(abel0: Doc, keys: seq<string>)
    decreases |keys|
  {
    keys != [] && (EntryCrashes(Field(EntityOf(abel0, keys[0]), LinksField)) || ExpectedCrash(abel0, keys[1..]))
  }

  lemma {:induction false} WalkFrame(st0: AddState, st: AddState, keys: seq<string>, abelFlags: bool)
    requires Keeps(st0, st) && !st.crashed
    ensures var r := Walk(st, keys, abelFlags);
      && Keeps(st0, r)
      && r.crashed == ExpectedCrash(st0.abel, keys)
    decreases |keys|
  {
    if keys != [] {
      var s1 := Visit(st, keys[0], abelFlags);
      VisitFrame(st, keys[0], abelFlags);
      FieldsAt(st.abel, st0.abel, keys[0]);
      if !s1.crashed {
        WalkFrame(st0, s1, keys[1..], abelFlags);
      }
    }
  }

  lemma AppendAssoc<T>(a: seq<T>, b: seq<T>, c: seq<T>)
    ensures (a + b) + c == a + (b + c)
  {
  }

  lemma {:induction false} WalkErrors(st0: AddState, st: AddState, keys: seq<string>, abelFlags: bool)
    requires Keeps(st0, st) && !st.crashed
    ensures Walk(st, keys, abelFlags).errors == st.errors + ExpectedErrors(st0.abel, st0.building, keys)
    decreases |keys|
  {
    if keys != [] {
      var k := keys[0];
      var s1 := Visit(st, k, abelFlags);
      VisitFrame(st, k, abelFlags);
      FieldsAt(st.abel, st0.abel, k);
      var e0 := EntityOf(st0.abel, k);
      var mine := EntryErrors(Keys(st0.abel), Keys(st0.building), Field(e0, LinksField), Field(e0, CodeField), k);
      assert s1.errors == st.errors + mine;
      assert s1.crashed == EntryCrashes(Field(e0, LinksField));
      if s1.crashed {
        assert Walk(st, keys, abelFlags) == s1;
        assert ExpectedErrors(st0.abel, st0.building, keys) == mine;
      } else {
        WalkErrors(st0, s1, keys[1..], abelFlags);
        var rest := ExpectedErrors(st0.abel, st0.building, keys[1..]);
        assert Walk(st, keys, abelFlags).errors == (st.errors + mine) + rest;
        assert ExpectedErrors(st0.abel, st0.building, keys) == mine + rest;
        AppendAssoc(st.errors, mine, rest);
      }
    }
  }

  /** Cleaning and reclassifying targets along the way changes neither the errors nor the
      crash: both are fixed by the original documents, whatever `abel_flags` is, and the
      walk adds and drops no key in either document. */
  lemma AddWalkErrors(abel0: Doc, building0: Doc, abelFlags: bool)
    ensures var st := Walk(Start(abel0, building0), Keys(abel0), abelFlags);
      && st.errors == ExpectedErrors(abel0, building0, Keys(abel0))
      && st.crashed == ExpectedCrash(abel0, Keys(abel0))
      && Keys(st.abel) == Keys(abel0) && Keys(st.building) == Keys(building0)
  {
    WalkFrame(Start(abel0, building0), Start(abel0, building0), Keys(abel0), abelFlags);
    WalkErrors(Start(abel0, building0), Start(abel0, building0), Keys(abel0), abelFlags);
  }

  // ---------------------------------------------------------------------------
  // Without abel_flags
  // ---------------------------------------------------------------------------

  /** The entries with truthy links, up to the first whose links raise. */
  function LinkedKeys(abel0: Doc, keys: seq<string>): seq<string>
    decreases |keys|
  {
    if keys == [] then []
    else
      var links := Field(EntityOf(abel0, keys[0]), LinksField);
      (if Truthy(links) then [keys[0]] else []) + (if EntryCrashes(links) then [] else LinkedKeys(abel0, keys[1..]))
  }

  lemma VisitNoFlags(st: AddState, key: string)
    ensures var r := Visit(st, key, false);
      && r.updateVirtual == st.updateVirtual && r.reportUpdate == st.reportUpdate
      && r.addVirtual == st.addVirtual + (if Truthy(Field(EntityOf(st.abel, key), LinksField)) then [key] else [])
  {
    if Truthy(Field(EntityOf(st.abel, key), LinksField)) {
      var st1 := Classify(st, key, false);
      ClassifyFacts(st, key, false);
      FieldsAt(st1.abel, st.abel, key);
      match LinkTargets(Field(EntityOf(st1.abel, key), LinksField))
      case None =>
      case Some(links) =>
        ResolveAllFrame(st1, key, links);
        ResolveAllNoUpdate(st1, key, links);
    }
  }

  lemma {:induction false} WalkNoFlags(st: AddState, keys: seq<string>)
    ensures var r := Walk(st, keys, false);
      r.updateVirtual == st.updateVirtual && r.reportUpdate == st.reportUpdate
    decreases |keys|
  {
    if keys != [] && !st.crashed {
      VisitNoFlags(st, keys[0]);
      WalkNoFlags(Visit(st, keys[0], false), keys[1..]);
    }
  }

  lemma {:induction false} WalkAddsLinked(st0: AddState, st: AddState, keys: seq<string>)
    requires Keeps(st0, st) && !st.crashed
    ensures var r := Walk(st, keys, false);
      && r.addVirtual == st.addVirtual + LinkedKeys(st0.abel, keys)
    decreases |keys|
  {
    if keys != [] {
      var s1 := Visit(st, keys[0], false);
      VisitFrame(st, keys[0], false);
      VisitNoFlags(st, keys[0]);
      FieldsAt(st.abel, st0.abel, keys[0]);
      if !s1.crashed {
        WalkAddsLinked(st0, s1, keys[1..]);
      }
    }
  }

  /** Without `abel_flags` every linked entry is forced to ADD: each one joins `add_virtual`,
      in document order, and nothing is stored for UPDATE, so no `_update_virtual.yaml` is
      written. */
  lemma AddWithoutFlags(abel0: Doc, building0: Doc)
    ensures var st := Walk(Start(abel0, building0), Keys(abel0), false);
      && st.updateVirtual == [] && st.reportUpdate == []
      && st.addVirtual == LinkedKeys(abel0, Keys(abel0))
  {
    WalkNoFlags(Start(abel0, building0), Keys(abel0));
    WalkAddsLinked(Start(abel0, building0), Start(abel0, building0), Keys(abel0));
  }

  // ---------------------------------------------------------------------------
  // The reporting dicts
  // ---------------------------------------------------------------------------

  predicate Distinct(s: seq<string>) {
    forall i, j :: 0 <= i < j < |s| ==> s[i] != s[j]
  }

  /** The reporting dicts have distinct ids and each entry joins a virtual list at most once. */
  ghost predicate WellKept(st: AddState) {
    IsDict(st.reportAdd) && IsDict(st.reportUpdate) && Distinct(st.addVirtual) && Distinct(st.updateVirtual)
  }

  lemma DistinctSnoc(s: seq<string>, k: string)
    requires Distinct(s) && k !in s
    ensures Distinct(s + [k])
  {
  }

  lemma VisitKept(st: AddState, key: string, abelFlags: bool)
    requires WellKept(st) && key !in st.addVirtual && key !in st.updateVirtual
    ensures var r := Visit(st, key, abelFlags);
      && WellKept(r) && st.reportAdd <= r.reportAdd && st.reportUpdate <= r.reportUpdate
      && (forall k :: k in r.addVirtual ==> k in st.addVirtual || k == key)
      && (forall k :: k in r.updateVirtual ==> k in st.updateVirtual || k == key)
  {
    if Truthy(Field(EntityOf(st.abel, key), LinksField)) {
      var st1 := Classify(st, key, abelFlags);
      ClassifyFacts(st, key, abelFlags);
      DistinctSnoc(st.addVirtual, key);
      DistinctSnoc(st.updateVirtual, key);
      match LinkTargets(Field(EntityOf(st1.abel, key), LinksField))
      case None =>
      case Some(links) =>
        ResolveAllFrame(st1, key, links);
        ResolveAllReports(st1, key, links);
    }
  }

  /** Over the whole walk the reporting dicts only grow: an id, once stored with the first
      target resolved for it, keeps it, and the dicts keep distinct ids. */
  lemma {:induction false} WalkKept(st: AddState, keys: seq<string>, abelFlags: bool)
    requires WellKept(st) && Distinct(keys)
    requires forall k :: k in keys ==> k !in st.addVirtual && k !in st.updateVirtual
    ensures var r := Walk(st, keys, abelFlags);
      && WellKept(r) && st.reportAdd <= r.reportAdd && st.reportUpdate <= r.reportUpdate
      && (forall k :: k in r.addVirtual ==> k in st.addVirtual || k in keys)
      && (forall k :: k in r.updateVirtual ==> k in st.updateVirtual || k in keys)
    decreases |keys|
  {
    if keys != [] && !st.crashed {
      var s1 := Visit(st, keys[0], abelFlags);
      VisitKept(st, keys[0], abelFlags);
      assert forall k :: k in keys[1..] ==> k != keys[0] by {
        forall k | k in keys[1..]
          ensures k != keys[0]
        {
          var j :| 0 <= j < |keys[1..]| && keys[1..][j] == k;
          assert keys[j + 1] == k;
        }
      }
      WalkKept(s1, keys[1..], abelFlags);
    }
  }

  // ---------------------------------------------------------------------------
  // The written config
  // ---------------------------------------------------------------------------

  lemma EntitiesFacts(abel: Doc, keys: seq<string>)
    ensures Keys(Entities(abel, keys)) == keys
    ensures Distinct(keys) ==> IsDict(Entities(abel, keys))
    ensures forall k :: Get(Entities(abel, keys), k) == if k in keys then Some(EntityOf(abel, k)) else None
  {
    var es := Entities(abel, keys);
    assert Keys(es) == keys;
  }

  lemma DereffedFacts(abel: Doc, building: Doc, m: OMap<Ref>)
    ensures Keys(Dereffed(abel, building, m)) == Keys(m)
    ensures IsDict(m) ==> IsDict(Dereffed(abel, building, m))
    ensures forall k :: Get(Dereffed(abel, building, m), k) ==
                        (if k in Keys(m) then Some(Deref(abel, building, Get(m, k).value)) else None)
  {
    var ds := Dereffed(abel, building, m);
    assert Keys(ds) == Keys(m);
  }

  /** `add_config` starts with CONFIG_METADATA and then the building root (unless the root's
      key is CONFIG_METADATA); an id reads as the virtual entity when it is one, else as the
      target reported under it, else as the config top. */
  lemma AddConfigShape(st: AddState, rootKey: string)
    requires IsDict(st.reportAdd) && Distinct(st.addVirtual)
    ensures var c := AddConfig(st, rootKey);
      var top := TopAt(st.building, rootKey);
      && IsDict(c)
      && Keys(c)[0] == MetadataKey
      && (rootKey != MetadataKey ==> |c| >= 2 && Keys(c)[1] == rootKey && Get(top, MetadataKey) == Some(Metadata))
      && Get(top, rootKey) == Some(EntityOf(st.building, rootKey))
      && forall k :: Get(c, k) ==
           if k in st.addVirtual then Some(EntityOf(st.abel, k))
           else if k in Keys(st.reportAdd) then Some(Deref(st.abel, st.building, Get(st.reportAdd, k).value))
           else Get(top, k)
  {
    var meta: Doc := [(MetadataKey, Metadata)];
    var top := TopAt(st.building, rootKey);
    var reported := Dereffed(st.abel, st.building, st.reportAdd);
    var virtual := Entities(st.abel, st.addVirtual);
    MergeSingle(meta, rootKey, EntityOf(st.building, rootKey));
    SetSpec(meta, rootKey, EntityOf(st.building, rootKey));
    DereffedFacts(st.abel, st.building, st.reportAdd);
    EntitiesFacts(st.abel, st.addVirtual);
    MergeDict(top, reported);
    MergeDict(Merge(top, reported), virtual);
    MergeKeys(top, reported);
    MergeKeys(Merge(top, reported), virtual);
    forall k
      ensures Get(AddConfig(st, rootKey), k) ==
        if k in st.addVirtual then Some(EntityOf(st.abel, k))
        else if k in Keys(st.reportAdd) then Some(Deref(st.abel, st.building, Get(st.reportAdd, k).value))
        else Get(top, k)
    {
      MergeGet(Merge(top, reported), virtual, k);
      MergeGet(top, reported, k);
    }
  }
}

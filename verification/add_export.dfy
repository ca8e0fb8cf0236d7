/**
 * `export_add_config`: walks the change ("ABEL") document, sorts every entry
 * with `links` into the ADD or UPDATE virtual entities, resolves each link
 * target first in the change document and then in the building document,
 * cleans the target in place, and records the first target stored per id.
 * The virtual-entity and reporting dicts hold references to entity dicts that
 * later steps go on mutating, so the model stores where each reference
 * points (`Ref`) and reads the entities through it when the files are written.
 */
module AddExport {
  import opened OrderedMaps
  import opened Values
  import opened Paths
  import opened Documents

  // ---------------------------------------------------------------------------
  // References and the state of the walk
  // ---------------------------------------------------------------------------

  /** What a reporting dict stores for a link target: the entity dict under that key in the
      change document, the one in the building document, or a fresh `{}` placeholder. */
  datatype Ref = InChange(key: string) | InBuilding(key: string) | Placeholder

  /** The two documents (mutated in place), `add_virtual` and `update_virtual` (their keys: the
      values are the change document's entities), `reporting_add_virtual`,
      `reporting_update_virtual`, `status['errors']`, and whether a `TypeError` ended the walk. */
  datatype AddState = AddState(abel: Doc, building: Doc,
                               addVirtual: seq<string>, updateVirtual: seq<string>,
                               reportAdd: OMap<Ref>, reportUpdate: OMap<Ref>,
                               errors: seq<string>, crashed: bool)

  const LinkText: string := "Link "
  const FromText: string := " from "
  const GuidText: string := " (guid: "
  const NotFoundText: string := ") not found in abel and building config."
  const AddVirtualSuffix: string := "_add_virtual.yaml"
  const UpdateVirtualSuffix: string := "_update_virtual.yaml"

  /** The error for a link target that neither document holds. */
  function LinkError(link: string, code: Value, key: string): string {
    LinkText + link + FromText + ToStr(code) + GuidText + key + NotFoundText
  }

  /** `for link in val['links']`: the keys of a mapping, the items of a list of strings, the
      characters of a string; None where Python cannot iterate (a number or a boolean). */
  function LinkTargets(v: Value): Option<seq<string>> {
    match v
    case Mapping(fields) => Some(Keys(fields))
    case List(items) => Some(seq(|items|, i requires 0 <= i < |items| => if items[i].Text? then items[i].s else []))
    case Text(s) => Some(seq(|s|, i requires 0 <= i < |s| => [s[i]]))
    case _ => None
  }

  /** Lines 131-136 on the resolved target: a truthy `operation` and a truthy `update_mask` are
      popped, a truthy `etag` is stringified. */
  function Clean(e: Entity): Entity {
    var e1 := if Truthy(Field(e, OperationField)) then Remove(e, OperationField) else e;
    var e2 := if Truthy(Field(e1, UpdateMaskField)) then Remove(e1, UpdateMaskField) else e1;
    if Truthy(Field(e2, EtagField)) then Set(e2, EtagField, Text(ToStr(Field(e2, EtagField)))) else e2
  }

  // ---------------------------------------------------------------------------
  // The walk, one step at a time
  // ---------------------------------------------------------------------------

  /** Lines 123-139, one link of the entry `key`: the target is cleaned in the document that
      holds it, the change document first; a target neither holds is reported. */
  function Locate(st: AddState, key: string, link: string): AddState {
    if link in Keys(st.abel) then st.(abel := Set(st.abel, link, Clean(EntityOf(st.abel, link))))
    else if link in Keys(st.building) then st.(building := Set(st.building, link, Clean(EntityOf(st.building, link))))
    else st.(errors := st.errors + [LinkError(link, Field(EntityOf(st.abel, key), CodeField), key)])
  }

  /** Where the stored `link_data` points. */
  function RefTo(abel: Doc, building: Doc, link: string): Ref {
    if link in Keys(abel) then InChange(link) else if link in Keys(building) then InBuilding(link) else Placeholder
  }

  /** Lines 140-143: `ref` is stored under `link` in the reporting dict of the entry's current
      operation unless one is stored there already (a new key is appended). */
  function Store(st: AddState, key: string, link: string, ref: Ref): AddState {
    var op := Field(EntityOf(st.abel, key), OperationField);
    var st1 := if op == Text(AddOp) && link !in Keys(st.reportAdd) then st.(reportAdd := st.reportAdd + [(link, ref)]) else st;
    if op == Text(UpdateOp) && link !in Keys(st1.reportUpdate) then st1.(reportUpdate := st1.reportUpdate + [(link, ref)]) else st1
  }

  /** Lines 123-143, one link of the entry `key`. */
  function Resolve(st: AddState, key: string, link: string): AddState {
    Store(Locate(st, key, link), key, link, RefTo(st.abel, st.building, link))
  }

  /** Lines 122-143: the links, in order. */
  function ResolveAll(st: AddState, key: string, links: seq<string>): AddState
    decreases |links|
  {
    if links == [] then st else Resolve(ResolveAll(st, key, links[..|links| - 1]), key, links[|links| - 1])
  }

  /** Lines 114-120: unless `abel_flags` the operation is forced to ADD; the entry joins the
      virtual entities of its operation, compared case-sensitively. */
  function Classify(st: AddState, key: string, abelFlags: bool): AddState {
    var st1 := if abelFlags then st else st.(abel := Set(st.abel, key, Set(EntityOf(st.abel, key), OperationField, Text(AddOp))));
    var op := Field(EntityOf(st1.abel, key), OperationField);
    var st2 := if op == Text(AddOp) then st1.(addVirtual := st1.addVirtual + [key]) else st1;
    if op == Text(UpdateOp) then st2.(updateVirtual := st2.updateVirtual + [key]) else st2
  }

  /** Lines 113-143, the entry `key`: only entries with truthy `links` take part. */
  function Visit(st: AddState, key: string, abelFlags: bool): AddState {
    if !Truthy(Field(EntityOf(st.abel, key), LinksField)) then st
    else
      var st1 := Classify(st, key, abelFlags);
      match LinkTargets(Field(EntityOf(st1.abel, key), LinksField))
      case None => st1.(crashed := true)
      case Some(links) => ResolveAll(st1, key, links)
  }

  /** Lines 111-143: the entries `keys`, in order, until a `TypeError`. */
  function Walk(st: AddState, keys: seq<string>, abelFlags: bool): AddState
    decreases |keys|
  {
    if keys == [] || st.crashed then st else Walk(Visit(st, keys[0], abelFlags), keys[1..], abelFlags)
  }

  function Start(abel: Doc, building: Doc): AddState {
    AddState(abel, building, [], [], [], [], [], false)
  }

  // ---------------------------------------------------------------------------
  // The files
  // ---------------------------------------------------------------------------

  /** What a stored reference reads as when the file is dumped. */
  function Deref(abel: Doc, building: Doc, r: Ref): Entity {
    match r
    case InChange(k) => EntityOf(abel, k)
    case InBuilding(k) => EntityOf(building, k)
    case Placeholder => []
  }

  function Dereffed(abel: Doc, building: Doc, m: OMap<Ref>): Doc {
    seq(|m|, i requires 0 <= i < |m| => (m[i].0, Deref(abel, building, m[i].1)))
  }

  /** The virtual entities `keys` as the change document holds them at the end. */
  function Entities(abel: Doc, keys: seq<string>): Doc {
    seq(|keys|, i requires 0 <= i < |keys| => (keys[i], EntityOf(abel, keys[i])))
  }

  /** The config top holds the building root's dict itself, so it is read at the end too. */
  function TopAt(building: Doc, rootKey: string): Doc {
    Merge([(MetadataKey, Metadata)], [(rootKey, EntityOf(building, rootKey))])
  }

  /** Line 145: `config_top | reporting_add_virtual | add_virtual` */
  function AddConfig(st: AddState, rootKey: string): Doc {
    Merge(Merge(TopAt(st.building, rootKey), Dereffed(st.abel, st.building, st.reportAdd)), Entities(st.abel, st.addVirtual))
  }

  /** Lines 147-162: `_add_virtual.yaml` when an ADD target was stored, `_update_virtual.yaml`
      when an UPDATE target was; both hold `add_config`. */
  function AddFiles(st: AddState, rootKey: string, dumpPath: string): seq<(string, Doc)> {
    (if |st.reportAdd| > 0 then [(ReplaceAll(dumpPath, Yaml, AddVirtualSuffix), AddConfig(st, rootKey))] else []) +
    (if |st.reportUpdate| > 0 then [(ReplaceAll(dumpPath, Yaml, UpdateVirtualSuffix), AddConfig(st, rootKey))] else [])
  }

  function AddMessages(st: AddState, dumpPath: string): seq<string> {
    (if |st.reportAdd| > 0 then [SavedFileText + ReplaceAll(dumpPath, Yaml, AddVirtualSuffix)] else []) +
    (if |st.reportUpdate| > 0 then [SavedFileText + ReplaceAll(dumpPath, Yaml, UpdateVirtualSuffix)] else [])
  }

  // ---------------------------------------------------------------------------
  // The export
  // ---------------------------------------------------------------------------

  /** Lines 123-143 for one link, in place on the two documents. */
  method ResolveLink(abel: Document, building: Document, key: string, link: string,
                     ghost addVirtual: seq<string>, ghost updateVirtual: seq<string>,
                     reportAdd: OMap<Ref>, reportUpdate: OMap<Ref>, errors: seq<string>)
    returns (reportAdd': OMap<Ref>, reportUpdate': OMap<Ref>, errors': seq<string>)
    requires abel != building
    modifies abel, building
    ensures AddState(abel.entries, building.entries, addVirtual, updateVirtual, reportAdd', reportUpdate', errors', false) ==
      Resolve(AddState(old(abel.entries), old(building.entries), addVirtual, updateVirtual, reportAdd, reportUpdate, errors, false), key, link)
  {
    reportAdd', reportUpdate', errors' := reportAdd, reportUpdate, errors;
    var ref: Ref;
    if link in Keys(abel.entries) {
      abel.entries := Set(abel.entries, link, Clean(EntityOf(abel.entries, link)));
      ref := InChange(link);
    } else if link in Keys(building.entries) {
      building.entries := Set(building.entries, link, Clean(EntityOf(building.entries, link)));
      ref := InBuilding(link);
    } else {
      errors' := errors + [LinkError(link, Field(EntityOf(abel.entries, key), CodeField), key)];
      ref := Placeholder;
    }
    var op := Field(EntityOf(abel.entries, key), OperationField);
    if op == Text(AddOp) && link !in Keys(reportAdd') {
      reportAdd' := reportAdd' + [(link, ref)];
    }
    if op == Text(UpdateOp) && link !in Keys(reportUpdate') {
      reportUpdate' := reportUpdate' + [(link, ref)];
    }
  }

  /** Lines 122-143: the links of the entry `key`, in order. */
  method ResolveLinks(abel: Document, building: Document, key: string, links: seq<string>,
                      ghost addVirtual: seq<string>, ghost updateVirtual: seq<string>,
                      reportAdd: OMap<Ref>, reportUpdate: OMap<Ref>, errors: seq<string>)
    returns (reportAdd': OMap<Ref>, reportUpdate': OMap<Ref>, errors': seq<string>)
    requires abel != building
    modifies abel, building
    ensures AddState(abel.entries, building.entries, addVirtual, updateVirtual, reportAdd', reportUpdate', errors', false) ==
      ResolveAll(AddState(old(abel.entries), old(building.entries), addVirtual, updateVirtual, reportAdd, reportUpdate, errors, false), key, links)
  {
    ghost var st := AddState(abel.entries, building.entries, addVirtual, updateVirtual, reportAdd, reportUpdate, errors, false);
    reportAdd', reportUpdate', errors' := reportAdd, reportUpdate, errors;
    var j := 0;
    while j < |links|
      invariant j <= |links|
      invariant AddState(abel.entries, building.entries, addVirtual, updateVirtual, reportAdd', reportUpdate', errors', false) ==
        ResolveAll(st, key, links[..j])
    {
      assert links[..j + 1][..j] == links[..j];
      reportAdd', reportUpdate', errors' :=
        ResolveLink(abel, building, key, links[j], addVirtual, updateVirtual, reportAdd', reportUpdate', errors');
      j := j + 1;
    }
    assert links[..j] == links;
  }

  /** Lines 114-120 for the entry `key`. */
  method ClassifyEntry(abel: Document, key: string, abelFlags: bool, ghost building: Doc,
                       addVirtual: seq<string>, updateVirtual: seq<string>,
                       ghost reportAdd: OMap<Ref>, ghost reportUpdate: OMap<Ref>, ghost errors: seq<string>)
    returns (addVirtual': seq<string>, updateVirtual': seq<string>)
    modifies abel
    ensures AddState(abel.entries, building, addVirtual', updateVirtual', reportAdd, reportUpdate, errors, false) ==
      Classify(AddState(old(abel.entries), building, addVirtual, updateVirtual, reportAdd, reportUpdate, errors, false), key, abelFlags)
  {
    addVirtual', updateVirtual' := addVirtual, updateVirtual;
    if !abelFlags {
      abel.entries := Set(abel.entries, key, Set(EntityOf(abel.entries, key), OperationField, Text(AddOp)));
    }
    var op := Field(EntityOf(abel.entries, key), OperationField);
    if op == Text(AddOp) {
      addVirtual' := addVirtual' + [key];
    }
    if op == Text(UpdateOp) {
      updateVirtual' := updateVirtual' + [key];
    }
  }

  /** Lines 113-143 for the entry `key`; `crashed` is `for link in val['links']` raising. */
  method VisitEntry(abel: Document, building: Document, key: string, abelFlags: bool,
                    addVirtual: seq<string>, updateVirtual: seq<string>,
                    reportAdd: OMap<Ref>, reportUpdate: OMap<Ref>, errors: seq<string>)
    returns (addVirtual': seq<string>, updateVirtual': seq<string>,
             reportAdd': OMap<Ref>, reportUpdate': OMap<Ref>, errors': seq<string>, crashed: bool)
    requires abel != building
    modifies abel, building
    ensures AddState(abel.entries, building.entries, addVirtual', updateVirtual', reportAdd', reportUpdate', errors', crashed) ==
      Visit(AddState(old(abel.entries), old(building.entries), addVirtual, updateVirtual, reportAdd, reportUpdate, errors, false), key, abelFlags)
  {
    addVirtual', updateVirtual', reportAdd', reportUpdate', errors', crashed :=
      addVirtual, updateVirtual, reportAdd, reportUpdate, errors, false;
    if !Truthy(Field(EntityOf(abel.entries, key), LinksField)) {
      return;
    }
    addVirtual', updateVirtual' :=
      ClassifyEntry(abel, key, abelFlags, building.entries, addVirtual, updateVirtual, reportAdd, reportUpdate, errors);
    var targets := LinkTargets(Field(EntityOf(abel.entries, key), LinksField));
    if targets.None? {
      crashed := true;
      return;
    }
    reportAdd', reportUpdate', errors' :=
      ResolveLinks(abel, building, key, targets.value, addVirtual', updateVirtual', reportAdd, reportUpdate, errors);
  }

  /** Lines 111-143: every entry of the change document, until a `TypeError`. */
  method WalkEntries(abel: Document, building: Document, keys: seq<string>, abelFlags: bool)
    returns (addVirtual: seq<string>, updateVirtual: seq<string>,
             reportAdd: OMap<Ref>, reportUpdate: OMap<Ref>, errors: seq<string>, crashed: bool)
    requires abel != building
    modifies abel, building
    ensures AddState(abel.entries, building.entries, addVirtual, updateVirtual, reportAdd, reportUpdate, errors, crashed) ==
      Walk(Start(old(abel.entries), old(building.entries)), keys, abelFlags)
  {
    ghost var goal := Walk(Start(abel.entries, building.entries), keys, abelFlags);
    addVirtual, updateVirtual, reportAdd, reportUpdate, errors, crashed := [], [], [], [], [], false;
    var i := 0;
    while i < |keys|
      invariant i <= |keys|
      invariant goal == Walk(AddState(abel.entries, building.entries, addVirtual, updateVirtual, reportAdd, reportUpdate, errors, false),
                             keys[i..], abelFlags)
    {
      assert keys[i..][1..] == keys[i + 1..];
      addVirtual, updateVirtual, reportAdd, reportUpdate, errors, crashed :=
        VisitEntry(abel, building, keys[i], abelFlags, addVirtual, updateVirtual, reportAdd, reportUpdate, errors);
      if crashed {
        return;
      }
      i := i + 1;
    }
  }

  /** Lines 145-162: the files are written once the walk is over, reading every stored
      reference at that point. */
  method WriteAddFiles(files: FileLog, dumpPath: string, rootKey: string, ghost st: AddState,
                       abelEntries: Doc, buildingEntries: Doc, addVirtual: seq<string>,
                       reportAdd: OMap<Ref>, reportUpdate: OMap<Ref>)
    returns (saved: seq<string>)
    requires st.abel == abelEntries && st.building == buildingEntries && st.addVirtual == addVirtual
    requires st.reportAdd == reportAdd && st.reportUpdate == reportUpdate
    modifies files
    ensures saved == AddMessages(st, dumpPath)
    ensures files.written == old(files.written) + AddFiles(st, rootKey, dumpPath)
  {
    var addConfig := Merge(Merge(TopAt(buildingEntries, rootKey), Dereffed(abelEntries, buildingEntries, reportAdd)),
                           Entities(abelEntries, addVirtual));
    saved := [];
    if |reportAdd| > 0 {
      var finalFilePath := ReplaceAll(dumpPath, Yaml, AddVirtualSuffix);
      files.Write(finalFilePath, addConfig);
      saved := saved + [SavedFileText + finalFilePath];
    }
    if |reportUpdate| > 0 {
      var finalFilePath := ReplaceAll(dumpPath, Yaml, UpdateVirtualSuffix);
      files.Write(finalFilePath, addConfig);
      saved := saved + [SavedFileText + finalFilePath];
    }
  }

  /** Lines 87-164. */
  method ExportAddConfig(building: Document, abel: Document, abelFlags: bool, dumpPath: string, files: FileLog)
    returns (out: Outcome)
    requires abel != building
    modifies abel, building, files
    ensures BuildingRoot(old(building.entries)).None? ==>
      && out == Raised(IndexError)
      && abel.entries == old(abel.entries) && building.entries == old(building.entries) && files.written == old(files.written)
    ensures BuildingRoot(old(building.entries)).Some? ==>
      var st := Walk(Start(old(abel.entries), old(building.entries)), Keys(old(abel.entries)), abelFlags);
      var rootKey := old(building.entries)[BuildingRoot(old(building.entries)).value].0;
      && abel.entries == st.abel && building.entries == st.building
      && (st.crashed ==> out == Raised(TypeError) && files.written == old(files.written))
      && (!st.crashed ==>
            && out == Done(Status(st.errors, [], AddMessages(st, dumpPath)))
            && files.written == old(files.written) + AddFiles(st, rootKey, dumpPath))
  {
    var root := BuildingRoot(building.entries);
    if root.None? {
      return Raised(IndexError);
    }
    var rootKey := building.entries[root.value].0;
    var addVirtual, updateVirtual, reportAdd, reportUpdate, errors, crashed :=
      WalkEntries(abel, building, Keys(abel.entries), abelFlags);
    if crashed {
      return Raised(TypeError);
    }
    ghost var st := AddState(abel.entries, building.entries, addVirtual, updateVirtual, reportAdd, reportUpdate, errors, false);
    var saved := WriteAddFiles(files, dumpPath, rootKey, st, abel.entries, building.entries, addVirtual, reportAdd, reportUpdate);
    return Done(Status(errors, [], saved));
  }
}

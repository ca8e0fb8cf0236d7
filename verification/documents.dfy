/**
 * Configuration documents: an ordered mapping from entity identifier to
 * entity (itself an ordered mapping from field name to value), the mutable
 * dicts the exporters receive, the log of files they write, the status
 * report they return, and the config top every exported file starts with.
 */
module Documents {
  import opened OrderedMaps
  import opened Values

  type Entity = OMap<Value>
  type Doc = OMap<Entity>

  /** `val.get(f)`: the field's value, or None when the entity has no such field. */
  function Field(e: Entity, f: string): Value {
    match Get(e, f)
    case Some(v) => v
    case None => Null
  }

  /** `doc[k]` for a key known to be present; an absent key reads as `{}`. */
  function EntityOf(d: Doc, k: string): Entity {
    match Get(d, k)
    case Some(e) => e
    case None => []
  }

  /** The three lists every exporter returns. */
  datatype Status = Status(errors: seq<string>, addedEntities: seq<string>, savedFiles: seq<string>)

  /** The Python exceptions an exporter can raise (they abort the call). */
  datatype Fault =
    | IndexError          // `[...][0]` on an empty list: no building root
    | ZeroDivisionError   // `entity_counter % 0`
    | KeyError(key: string)
    | AttributeError      // `.lower()` on a value that is not a string
    | TypeError           // `for link in val['links']` over a number or a boolean

  datatype Outcome = Done(status: Status) | Raised(fault: Fault)

  /** A YAML document loaded into a mutable Python dict. */
  class Document {
    var entries: Doc

    constructor (d: Doc)
      ensures entries == d
    {
      entries := d;
    }
  }

  /** The files an exporter writes: one `(path, document)` pair per `open(path, 'w')`,
      the document being dumped entry by entry in its key order. */
  class FileLog {
    var written: seq<(string, Doc)>

    constructor ()
      ensures written == []
    {
      written := [];
    }

    method Write(path: string, doc: Doc)
      modifies this
      ensures written == old(written) + [(path, doc)]
    {
      written := written + [(path, doc)];
    }
  }

  // Field names and operation names of the onboarding configs.
  const TypeField: string := "type"
  const EtagField: string := "etag"
  const OperationField: string := "operation"
  const UpdateMaskField: string := "update_mask"
  const TranslationField: string := "translation"
  const LinksField: string := "links"
  const CodeField: string := "code"
  const UpdateOp: string := "UPDATE"
  const AddOp: string := "ADD"

  /** The prefix of a `saved_files` message. */
  const SavedFileText: string := "Saved file: "

  const BuildingType: string := "FACILITIES/BUILDING"
  const MetadataKey: string := "CONFIG_METADATA"

  /** `CONFIG_METADATA: {operation: "UPDATE"}` */
  const Metadata: Entity := [(OperationField, Text(UpdateOp))]

  /** `val.get('type') and val['type'] == 'FACILITIES/BUILDING'` */
  predicate IsBuildingRoot(e: Entity) {
    Truthy(Field(e, TypeField)) && Field(e, TypeField) == Text(BuildingType)
  }

  /** The position of the first building-root entity, which the comprehension
      `[{key: val} for ... if <root>][0]` picks; None where that `[0]` fails. */
  function BuildingRoot(d: Doc): (r: Option<nat>)
    ensures r.Some? ==> r.value < |d| && IsBuildingRoot(d[r.value].1)
    ensures r.Some? ==> forall j :: 0 <= j < r.value ==> !IsBuildingRoot(d[j].1)
    ensures r.None? <==> forall j :: 0 <= j < |d| ==> !IsBuildingRoot(d[j].1)
    decreases |d|
  {
    if d == [] then None
    else if IsBuildingRoot(d[0].1) then Some(0)
    else match BuildingRoot(d[1..])
      case None => None
      case Some(i) => Some(i + 1)
  }

  /** `{'CONFIG_METADATA': {...}} | {root_key: root_entity}` */
  function ConfigTop(d: Doc, root: nat): Doc
    requires root < |d|
  {
    Merge([(MetadataKey, Metadata)], [d[root]])
  }

  /** The config top holds CONFIG_METADATA first, then the building root (unless
      the root's own key is CONFIG_METADATA, which then takes the root's entity). */
  lemma ConfigTopShape(d: Doc, root: nat)
    requires root < |d|
    ensures var top := ConfigTop(d, root);
      && IsDict(top)
      && Keys(top)[0] == MetadataKey
      && Get(top, d[root].0) == Some(d[root].1)
      && (d[root].0 != MetadataKey ==> Keys(top) == [MetadataKey, d[root].0] && Get(top, MetadataKey) == Some(Metadata))
      && (d[root].0 == MetadataKey ==> |top| == 1)
  {
    MergeSingle([(MetadataKey, Metadata)], d[root].0, d[root].1);
    SetSpec([(MetadataKey, Metadata)], d[root].0, d[root].1);
  }
}

# Onboarding config exporters, modelled in Dafny

This project models the three exporters of `onboarding_utils.py`. They turn a
change ("ABEL") configuration and a building configuration export into
Onboard configuration files:

- `export_update_config` walks the change document. It exports every translated
  entity the building document knows, with the change entry's own etag when it
  has an `etag` field and the building etag otherwise, and (unless
  `abel_flags`) with forced `operation: UPDATE` / `update_mask` directives. It
  writes the result in `_pt<n>.yaml` files of at most `max_items` entities, each
  starting with the config top (`CONFIG_METADATA` and the building root).
- `export_add_config` sorts the change entries that have `links` into ADD and
  UPDATE virtual entities. It resolves each link target in the change document,
  then in the building document, and cleans it in place. It keeps the first
  target stored per id, and writes `_add_virtual.yaml` and/or
  `_update_virtual.yaml`.
- `update_etags` refreshes, in place, the etag of every selected entry of an
  onboard config from the building config, and writes `_upd.yaml`. A selected
  entry whose building etag is falsy keeps its own etag and is reported in
  `errors`.

The model follows the source's imperative form:

- The Python dicts the exporters mutate are `Documents.Document` objects
  (`entries`: an ordered map from id to entity).
- Every `open(path, 'w')` plus `yaml.dump` is an append to `Documents.FileLog.written`.
- The returned `status` dict is `Documents.Status`.
- An exception that ends a call is `Outcome.Raised(fault)`. The state left behind
  is stated exactly: the documents as mutated so far, and no file written after it.

Each exporter is a method whose loop is proved against a specification function:

- `UpdateExport.Outputs`/`AddedKeys`/`MissingErrors` with `Chunking.Chunks`;
- `AddExport.Walk`;
- `EtagRefresh.RunTo`.

The properties the source promises are lemmas about those functions.

Dicts are `OrderedMaps.OMap`: sequences of pairs with distinct keys in
insertion order. On them, `Set` is `d[k] = v` (an existing key keeps its place),
`Remove` is `pop`, and `Merge` is Python's `a | b`: `a`'s keys first, the right
operand's values win, and new keys are appended in `b`'s order. Field values
are `Values.Value`, with Python truthiness, `str()` and `str.lower()`. Output
names use `Paths.ReplaceAll`, which is `str.replace` (every occurrence).

`export_add_config` stores references to entity dicts in its reporting and
virtual dicts, and later steps go on mutating those dicts (a later link cleans
an entity already stored, or the entry itself). The model records where each
reference points (`AddExport.Ref`) and reads it when the files are written,
as the aliasing in Python does. Each stored reference points where the
documents held its id when the walk began. The entry's operation is read at
each link's turn, so a self-link stops the storing of the rest of the entry's
links. With `abel_flags`, an entry that an earlier entry links to has already
lost its operation, so it joins neither virtual set. As in the source, the
`_update_virtual.yaml` file holds `add_config`. The `update_config` built on line 146 is never written.

## Model

| member | source | states |
|---|---|---|
| Documents.BuildingRoot | onboarding_utils.py:28 | the position of the first entity whose truthy `type` is `FACILITIES/BUILDING`; None exactly when no entity is one (the `[0]` raises) |
| Documents.ConfigTopShape | onboarding_utils.py:26-29 | the config top is a dict with `CONFIG_METADATA: {operation: UPDATE}` first and then the building root under its own key; a root keyed `CONFIG_METADATA` replaces the metadata |
| Documents.FileLog.Write | onboarding_utils.py:73-77 | writing a file appends `(path, document)` to the log and changes nothing else |
| OrderedMaps.SetSpec | onboarding_utils.py:57-58 | `d[k] = v`: `k` reads `v`, every other key reads as before, an existing key keeps its place and a new one is appended, and the result is a dict |
| OrderedMaps.RemoveSpec | onboarding_utils.py:131-134 | `pop(k)`: `k` is gone, every other key reads as before |
| OrderedMaps.MergeKeys | onboarding_utils.py:29 | the keys of the merge `a` with `b` are `a`'s keys followed by `b`'s new keys in `b`'s order |
| OrderedMaps.MergeGet | onboarding_utils.py:60-61 | in the merge of `a` with `b` a key of `b` reads `b`'s value (the right operand wins), any other key reads `a`'s |
| OrderedMaps.MergeSingle | onboarding_utils.py:184 | merging `{k: v}` into `d` is the assignment `d[k] = v` |
| Values.ToStrText | onboarding_utils.py:136 | stringifying a string changes nothing, so an etag stringified twice is stringified once |
| Values.LowerIsUpdate | onboarding_utils.py:181 | `op.lower() == 'update'` holds exactly for the six-letter case variants of `update` |
| Values.NatToStringInjective | onboarding_utils.py:70 | distinct chunk counters print as distinct decimal strings |
| Paths.ReplaceYamlSuffix | onboarding_utils.py:70 | for a path `stem.yaml` with no other `.yaml` in it, `replace('.yaml', r)` gives `stem + r` |
| Chunking.ChunkCount | onboarding_utils.py:68-82 | K entities in chunks of M make ceil(K/M) chunks |
| Chunking.ChunkSizes | onboarding_utils.py:68-82 | every chunk holds between 1 and M entities, and every chunk but the last exactly M |
| Chunking.ChunksConcat | onboarding_utils.py:68-82 | the chunks laid end to end are the entities, in order |
| Chunking.ChunkSizesSum | onboarding_utils.py:68-82 | the chunk sizes sum to the number of entities |
| Chunking.ChunksOfFull | onboarding_utils.py:68-82 | full chunks followed by a short tail of 1..M entities are the chunks of their concatenation |
| UpdateExport.FilteredMembers | onboarding_utils.py:20-24 | an entry is selected exactly when it is in the change document and its id is listed |
| UpdateExport.FilteredAppend | onboarding_utils.py:21-23 | selection distributes over concatenation, so it keeps document order |
| UpdateExport.RestrictFacts | onboarding_utils.py:19-24 | the walked entries form a dict and come from the change document (all of them when no list is given) |
| UpdateExport.SelectEntries | onboarding_utils.py:19-24 | the loop builds exactly the listed entries in document order, or takes the whole document when the list is empty |
| UpdateExport.OutputsKeys | onboarding_utils.py:60-63 | the ids of the exported entries, in order, are `added_entities`, and each is an id of the walked entries |
| UpdateExport.ExportEntry | onboarding_utils.py:48-66 | one entry: exported (prepared, appended to the pending chunk and to `added_entities`, directives forced in the caller's entity) or reported as not in the building, keeping the walk invariant |
| UpdateExport.WriteChunk | onboarding_utils.py:70-78 | the pending chunk is written to `_pt<n>.yaml` as `config_top` merged with the chunk and counted in `saved_files` |
| UpdateExport.FlushIfDue | onboarding_utils.py:68-83 | a chunk is written when the count reaches a multiple of `max_items` or at the last entry; the written chunks stay full until then |
| UpdateExport.Visit | onboarding_utils.py:44-84 | one loop iteration keeps the invariant, or raises `ZeroDivisionError` at the first export when `max_items` is 0 |
| UpdateExport.Finished | onboarding_utils.py:44-84 | after the last entry the status, files and change document are those of the specification functions |
| UpdateExport.ExportEntries | onboarding_utils.py:44-84 | the loop's status, files written and change document equal the specification functions of the walked entries, including the `max_items == 0` raise |
| UpdateExport.ExportUpdateConfig | onboarding_utils.py:8-84 | the whole export: `IndexError` with nothing written when no building root exists; otherwise the chunk files of the exported entries and the status, with directives forced in place unless `abel_flags` |
| UpdateExportFacts.DirectivesSpec | onboarding_utils.py:56-58 | forcing directives sets `operation: UPDATE` and `update_mask: [type, translation]` and changes no other field |
| UpdateExportFacts.PreparedEntry | onboarding_utils.py:52-61 | an exported entry has `etag` first; its etag is the change entry's own if any, else the stringified truthy building etag, else `MISSING ETAG`; other fields are the change entry's |
| UpdateExportFacts.AddedKeysSpec | onboarding_utils.py:48-64 | an entry is added exactly when it is translated and the building has its id; added ids are walked ids, each added once |
| UpdateExportFacts.MissingErrorsSpec | onboarding_utils.py:48-66 | `Not in building config: <id>` is reported exactly for translated entries missing from the building, and names only walked ids |
| UpdateExportFacts.MissingSource | onboarding_utils.py:65 | every reported message names a translated walked entry the building lacks |
| UpdateExportFacts.MissingReported | onboarding_utils.py:65 | every translated walked entry the building lacks is reported |
| UpdateExportFacts.NotInBuildingInjective | onboarding_utils.py:65 | distinct ids give distinct messages |
| UpdateExportFacts.ChunkFilesAt | onboarding_utils.py:68-82 | the j-th file is `_pt<j+1>` holding `config_top` merged with chunk j, and its message counts that chunk |
| UpdateExportFacts.ExportedFiles | onboarding_utils.py:44-82 | with M = max_items != 0 and K exported entities: ceil(K/abs(M)) files of 1..abs(M) entities (full but the last) that hold every exported entity once and in order, with counts summing to K |
| UpdateExportFacts.ChunkNameShape | onboarding_utils.py:70 | the n-th file of `stem.yaml` is `stem_pt<n>.yaml` |
| UpdateExportFacts.ChunkNamesDistinct | onboarding_utils.py:70 | distinct chunks are written to distinct files |
| UpdateExportFacts.ChunkFileShape | onboarding_utils.py:71 | a chunk file holds `CONFIG_METADATA` first, then the building root, then the chunk's entries with the chunk's values |
| AddExport.ResolveLink | onboarding_utils.py:123-143 | one link, in place: its target is cleaned in the change document, else in the building document, else reported; it is stored for the entry's operation unless already stored |
| AddExport.ResolveLinks | onboarding_utils.py:122-143 | the loop over the links equals resolving them one by one in order |
| AddExport.ClassifyEntry | onboarding_utils.py:114-120 | forces `operation: ADD` unless `abel_flags`, then adds the entry to the ADD or UPDATE virtual set by exact comparison |
| AddExport.VisitEntry | onboarding_utils.py:113-143 | entries without truthy links are skipped; links that are a number or a boolean raise after classification |
| AddExport.WalkEntries | onboarding_utils.py:111-143 | the loop over the change document equals the specification walk, stopping at the first raise |
| AddExport.WriteAddFiles | onboarding_utils.py:145-162 | `_add_virtual.yaml` is written iff an ADD target was stored, `_update_virtual.yaml` iff an UPDATE target was, both holding `add_config` read after the walk, each with a `Saved file:` message |
| AddExport.ExportAddConfig | onboarding_utils.py:87-164 | the whole export: `IndexError` with nothing changed when no building root exists; `TypeError` with nothing written when links raise; otherwise the walk's errors, no added entities, and the files above |
| AddExportFacts.CleanSpec | onboarding_utils.py:131-136 | a cleaned target has no truthy operation or update mask (falsy ones stay), a truthy etag becomes its string, other fields are unchanged |
| AddExportFacts.CleanIdempotent | onboarding_utils.py:131-136 | cleaning a target twice is cleaning it once |
| AddExportFacts.LocateFrame | onboarding_utils.py:123-136 | locating a target changes no keys, links or codes and adds exactly the not-found error |
| AddExportFacts.StoreFacts | onboarding_utils.py:138-143 | storing only appends a new id to a reporting dict, never replacing a stored one; a non-UPDATE entry stores nothing for UPDATE |
| AddExportFacts.ResolveFrame | onboarding_utils.py:123-143 | resolving a link keeps keys, links, codes and virtual sets, and adds exactly its not-found error |
| AddExportFacts.ResolveReports | onboarding_utils.py:138-143 | the reporting dicts only grow by new ids and stay dicts |
| AddExportFacts.ResolveNoUpdate | onboarding_utils.py:138-143 | an entry that is not UPDATE stores nothing for UPDATE, even when it links to itself |
| AddExportFacts.ResolveAllFrame | onboarding_utils.py:122-143 | over all links: keys, links and codes kept, errors are those of the unresolved links in order |
| AddExportFacts.ResolveAllReports | onboarding_utils.py:122-143 | over all links the reporting dicts only grow and stay dicts |
| AddExportFacts.ResolveAllNoUpdate | onboarding_utils.py:122-143 | over all links a non-UPDATE entry stores nothing for UPDATE |
| AddExportFacts.ClassifyFacts | onboarding_utils.py:114-120 | classification forces ADD unless `abel_flags`, joins ADD or UPDATE by exact equality, and touches nothing else |
| AddExportFacts.VisitFrame | onboarding_utils.py:113-143 | one entry adds the errors of its unresolved links and raises exactly when its truthy links are a number or a boolean |
| AddExportFacts.WalkFrame | onboarding_utils.py:111-143 | the walk keeps keys, links and codes, and raises exactly when some entry's links raise |
| AddExportFacts.WalkErrors | onboarding_utils.py:127-129 | the walk's errors are the reference errors computed from the original documents |
| AddExportFacts.AddWalkErrors | onboarding_utils.py:111-143 | whatever `abel_flags`, the errors and the raise depend only on the original documents, and no key is added or dropped |
| AddExportFacts.VisitNoFlags | onboarding_utils.py:114-120 | without `abel_flags` a linked entry joins the ADD set and nothing is stored for UPDATE |
| AddExportFacts.WalkNoFlags | onboarding_utils.py:114-120 | without `abel_flags` the walk stores nothing for UPDATE |
| AddExportFacts.WalkAddsLinked | onboarding_utils.py:114-118 | without `abel_flags` the ADD set is the linked entries, in order, up to the first raise |
| AddExportFacts.AddWithoutFlags | onboarding_utils.py:111-143 | without `abel_flags` no UPDATE virtual entity or target exists (so no `_update_virtual.yaml`) and every linked entry is ADD, in document order |
| AddExportFacts.VisitKept | onboarding_utils.py:138-143 | one entry keeps the reporting dicts duplicate-free and growing, and joins a virtual set at most once |
| AddExportFacts.WalkKept | onboarding_utils.py:138-143 | over the walk the first target stored per id is kept, the reporting dicts stay duplicate-free and the virtual sets hold walked ids only |
| AddExportFacts.EntitiesFacts | onboarding_utils.py:145 | the virtual entities read as the change document's entities at the end |
| AddExportFacts.DereffedFacts | onboarding_utils.py:145 | the reported targets read as the entities they point to at the end, or `{}` |
| AddExportFacts.AddConfigShape | onboarding_utils.py:145 | `add_config` is a dict with `CONFIG_METADATA` first and the building root second; an id reads as the virtual entity, else the reported target, else the config top |
| AddExportTargets.ResolveRefs | onboarding_utils.py:123-143 | one link keeps every stored `link_data` pointing where the original documents hold its id: the change document first, then the building document, else `{}` |
| AddExportTargets.ResolveAllRefs | onboarding_utils.py:122-143 | the links of one entry keep every stored `link_data` pointing where the original documents hold its id |
| AddExportTargets.VisitRefs | onboarding_utils.py:113-143 | one entry keeps every stored `link_data` pointing where the original documents hold its id |
| AddExportTargets.WalkRefs | onboarding_utils.py:111-143 | the walk keeps every stored `link_data` pointing where the original documents hold its id |
| AddExportTargets.AddRefs | onboarding_utils.py:111-143 | after the walk, each entry of both reporting dicts is the change document's entity for its id, else the building document's, else a placeholder, as the documents were loaded |
| AddExportTargets.AddConfigTargets | onboarding_utils.py:123-145 | in `add_config`, a reported id that is not a virtual entity reads as the final cleaned entity of the document that held it, the change document first, else `{}` |
| AddExportTargets.TurnOpSpec | onboarding_utils.py:123-132 | the operation read at a link's turn is the entry's own, except that a self-link has just popped a truthy one |
| AddExportTargets.ResolveStores | onboarding_utils.py:138-143 | a link is stored in the dict of the operation found at its turn, iff that dict lacks its id; the id is in the dict afterwards iff it was before or the operation matched |
| AddExportTargets.ResolveGrows | onboarding_utils.py:138-143 | the reporting dicts only grow, a dict whose operation was not found at the turn is unchanged, and the link is in the matching one afterwards |
| AddExportTargets.ResolveUnstored | onboarding_utils.py:138-143 | a link whose turn finds no truthy operation stores nothing |
| AddExportTargets.ResolveOp | onboarding_utils.py:131-132 | resolving a link changes no operation but the target's, and that one only by popping a truthy one |
| AddExportTargets.ResolveAllOp | onboarding_utils.py:122-132 | the links of one entry change no operation but their targets', and a truthy operation afterwards is the one before |
| AddExportTargets.ResolveAllCleans | onboarding_utils.py:122-132 | every change-document target of the entry ends with no truthy operation |
| AddExportTargets.ResolveAllStores | onboarding_utils.py:122-143 | an ADD (UPDATE) entry that does not link to itself stores every target under its operation and nothing under the other |
| AddExportTargets.ResolveAllAfterSelf | onboarding_utils.py:122-143 | from an entry's self-link on nothing more is stored: both reporting dicts stay as they were before that link |
| AddExportTargets.VisitOp | onboarding_utils.py:113-132 | with `abel_flags`, one entry changes no operation but its targets', and those only by popping them |
| AddExportTargets.VisitJoins | onboarding_utils.py:113-120 | with `abel_flags`, one entry adds to a virtual set at most itself, and only to the set of its operation, compared case-sensitively |
| AddExportTargets.VisitClassifies | onboarding_utils.py:113-120 | with `abel_flags`, a linked entry whose operation is ADD (UPDATE) at its turn joins `add_virtual` (`update_virtual`) |
| AddExportTargets.WalkGrows | onboarding_utils.py:111-120 | with `abel_flags`, the virtual sets only grow over the walk |
| AddExportTargets.WalkJoins | onboarding_utils.py:111-143 | with `abel_flags`, an entry joins the set of an operation only if that was its operation when the walk began |
| AddExportTargets.WalkJoinsIntact | onboarding_utils.py:111-143 | with `abel_flags`, an entry reached with truthy links before any raising entry and any entry linking to it joins the set of its operation |
| AddExportTargets.WalkDropsCleaned | onboarding_utils.py:111-143 | with `abel_flags`, an entry that an earlier entry links to does not join a virtual set it was not in |
| AddExportTargets.VisitJoinsLinked | onboarding_utils.py:113-120 | with `abel_flags`, one entry joins a virtual set only when its links are truthy |
| AddExportTargets.WalkJoinsLinked | onboarding_utils.py:111-120 | with `abel_flags`, an entry joins a virtual set over the walk only if its links, as loaded, are truthy |
| AddExportTargets.AddWithFlags | onboarding_utils.py:111-143 | with `abel_flags`, `add_virtual` (`update_virtual`) holds only entries with truthy links loaded as ADD (UPDATE), and holds each linked one that is reached before any raising entry or entry linking to it |
| AddExportTargets.AddCleanedDropped | onboarding_utils.py:111-143 | with `abel_flags`, an entry that an earlier entry links to is in neither virtual set, whatever its operation: the link popped it first |
| EtagRefresh.FailedStays | onboarding_utils.py:180-185 | once an entry raises, the loop ends with that exception and the config as it was then |
| EtagRefresh.RunKeys | onboarding_utils.py:180-185 | no entry is added or dropped and the key order is kept, whether or not the loop raises |
| EtagRefresh.RefreshedSpec | onboarding_utils.py:183-184 | refreshing changes only the etag, to the building etag as a string; an unselected entity is unchanged |
| EtagRefresh.RefreshedTwice | onboarding_utils.py:181-185 | a refreshed entity is selected, raises and reports as before, and refreshing it again changes nothing |
| EtagRefresh.StepSpec | onboarding_utils.py:181-185 | one entry raises exactly when it has a truthy operation that is not a string or its selected guid is missing from the building; otherwise it is refreshed in place and adds `NewErrors`: the `No etag for:` message only when it is selected and the building etag is falsy |
| EtagRefresh.ShapeStep | onboarding_utils.py:180-185 | passing one more entry refreshes that entry only |
| EtagRefresh.RunShape | onboarding_utils.py:180-185 | while nothing raises, the passed entries are refreshed and the others are as loaded |
| EtagRefresh.EtagsRefreshed | onboarding_utils.py:180-185 | the keys and their order are kept, and a run that does not raise refreshes every entry in place |
| EtagRefresh.FirstRunStep | onboarding_utils.py:180-185 | an entry the run passed did not raise and added its own error |
| EtagRefresh.SecondRunStep | onboarding_utils.py:180-185 | the same entry in the refreshed config changes nothing and adds the same error |
| EtagRefresh.RerunUpTo | onboarding_utils.py:180-185 | a second run over the refreshed config leaves it as it is and reports the same errors |
| EtagRefresh.EtagsIdempotent | onboarding_utils.py:180-185 | refreshing a just-refreshed config against the same building gives the same config and errors |
| EtagRefresh.RefreshEntry | onboarding_utils.py:181-185 | one entry in place: `AttributeError` for a truthy operation that is not a string, `KeyError` for a selected guid the building lacks, else the etag merged in or the error appended |
| EtagRefresh.UpdateEtags | onboarding_utils.py:167-195 | the loop ends as the specification run: on a raise nothing is written; else the config is written to `_upd.yaml` with a `Saved file:` message and the `No etag for:` errors |

## Left out

- Reading and writing YAML (ruamel `yaml.dump`, `open`, the blank line after each entry). A file write is the pair `(path, document)` appended to the log.
- The `print` on line 32, the count on line 31 it prints, and the unused numpy/pandas imports.
- `helper_app.py` (a Streamlit user interface) is not part of this model.
- `str()` of a list or mapping value is a fixed marker, not ruamel's representation. `str.lower()` folds ASCII letters only.
- Entities are assumed to be dicts where the source calls `.get` on them. A non-dict entity (which would raise `AttributeError`) is not modelled.
- AddExport.LinkTargets: a `links` list holding non-string items is read as empty-string ids. Python would use the items themselves as ids (or raise for unhashable ones).
- AddExport.ExportAddConfig: requires the two documents to be distinct objects. Passing one dict as both is not modelled.
- UpdateExport.ExportUpdateConfig: requires the two documents to be distinct objects and the change document to have distinct ids, as every Python dict has. `entity_list` is a list of ids: the empty list stands for `None`, and a string `entity_list` (substring tests) is not modelled. `max_items` is an integer.
- Entity objects shared between the two documents, which would alias across them, are not modelled.
- Entity objects shared within one document (a YAML anchor and its aliases load as one dict) are not modelled either: cleaning one link target would change every id that aliases it.
- `Values.Value` has no floats, dates or other YAML scalars. `str()` and the truthiness of a float etag or code (`0.0` is falsy, `str(1.0)` is `'1.0'`) are not modelled.
- Concurrency and failures of the file system are not modelled.

/**
 * `update_etags`: after an update has been applied and the building config
 * exported again, every selected entity of the onboarding config takes the
 * etag the building config now holds for it, unless that etag is falsy: then
 * the entity is left as it was and an error names it. The config is written
 * next to the original as `_upd.yaml`. An entity is selected when its operation
 * is "update" in any letter case or it has a translation; CONFIG_METADATA
 * never is.
 */
module EtagRefresh {
  import opened OrderedMaps
  import opened Values
  import opened Paths
  import opened Documents

  const UpdateLower: string := "update"
  const NoEtagText: string := "No etag for: "
  const Comma: string := ", "
  const UpdSuffix: string := "_upd.yaml"

  // ---------------------------------------------------------------------------
  // One entry
  // ---------------------------------------------------------------------------

  /** `op.lower() == 'update'` for a string operation. */
  predicate IsUpdate(op: Value) {
    op.Text? && Lower(op.s) == UpdateLower
  }

  /** Line 181: the list given to `any` is built in full, so `.lower()` is called on every truthy
      operation of an entity other than CONFIG_METADATA, and raises unless it is a string. */
  predicate LowerFails(guid: string, val: Entity) {
    guid != MetadataKey && Truthy(Field(val, OperationField)) && !Field(val, OperationField).Text?
  }

  /** Lines 181-182: the entity's etag is to be refreshed. */
  predicate Selected(guid: string, val: Entity) {
    guid != MetadataKey && (IsUpdate(Field(val, OperationField)) || Truthy(Field(val, TranslationField)))
  }

  function BuildingEtag(building: Doc, guid: string): Value {
    Field(EntityOf(building, guid), EtagField)
  }

  function NoEtag(guid: string, code: Value): string {
    NoEtagText + guid + Comma + ToStr(code)
  }

  /** The config so far and the errors, or the exception and the config as it was left. */
  datatype Run = Running(doc: Doc, errors: seq<string>) | Failed(fault: Fault, doc: Doc)

  /** Lines 181-185 for the entry `(guid, val)`, with the config at `doc`. */
  function Step(building: Doc, guid: string, val: Entity, doc: Doc, errors: seq<string>): Run {
    if LowerFails(guid, val) then Failed(AttributeError, doc)
    else if !Selected(guid, val) then Running(doc, errors)
    else if guid !in Keys(building) then Failed(KeyError(guid), doc)
    else if Truthy(BuildingEtag(building, guid)) then
      Running(Set(doc, guid, Merge(EntityOf(doc, guid), [(EtagField, Text(ToStr(BuildingEtag(building, guid))))])), errors)
    else Running(doc, errors + [NoEtag(guid, Field(val, CodeField))])
  }

  /** Lines 180-185 over the first `n` entries of the config `d0`. */
  function RunTo(building: Doc, d0: Doc, n: nat): Run
    requires n <= |d0|
    decreases n
  {
    if n == 0 then Running(d0, [])
    else match RunTo(building, d0, n - 1)
      case Failed(f, d) => Failed(f, d)
      case Running(d, e) => Step(building, d0[n - 1].0, d0[n - 1].1, d, e)
  }

  /** Line 187: `file_name.replace('.yaml', '_upd.yaml')` */
  function UpdName(fileName: string): string {
    ReplaceAll(fileName, Yaml, UpdSuffix)
  }

  // ---------------------------------------------------------------------------
  // Properties
  // ---------------------------------------------------------------------------

  /** An exception ends the loop: the outcome is the one it raised. */
  lemma {:induction false} FailedStays(building: Doc, d0: Doc, n: nat, m: nat)
    requires n <= m <= |d0| && RunTo(building, d0, n).Failed?
    ensures RunTo(building, d0, m) == RunTo(building, d0, n)
    decreases m
  {
    if m > n {
      FailedStays(building, d0, n, m - 1);
    }
  }

  /** No entry is added or dropped and the key order stays, whether or not the loop raises. */
  lemma {:induction false} RunKeys(building: Doc, d0: Doc, n: nat)
    requires n <= |d0|
    ensures Keys(RunTo(building, d0, n).doc) == Keys(d0)
    decreases n
  {
    if n > 0 {
      RunKeys(building, d0, n - 1);
      var prev := RunTo(building, d0, n - 1);
      if prev.Running? {
        var guid := d0[n - 1].0;
        assert guid in Keys(prev.doc) by {
          assert Keys(d0)[n - 1] == guid;
        }
        var v := Text(ToStr(BuildingEtag(building, guid)));
        SetKeys(prev.doc, guid, Merge(EntityOf(prev.doc, guid), [(EtagField, v)]));
      }
    }
  }

  /** What an entity is once the loop has gone past it without raising. */
  function Refreshed(building: Doc, guid: string, val: Entity): Entity {
    if Selected(guid, val) && guid in Keys(building) && Truthy(BuildingEtag(building, guid)) then
      Set(val, EtagField, Text(ToStr(BuildingEtag(building, guid))))
    else val
  }

  /** The error the entry adds: a selected entity whose building etag is missing or empty. */
  function NewErrors(building: Doc, guid: string, val: Entity): seq<string> {
    if Selected(guid, val) && guid in Keys(building) && !Truthy(BuildingEtag(building, guid)) then
      [NoEtag(guid, Field(val, CodeField))]
    else []
  }

  /** The entry raises: a truthy operation that is not a string, or a selected guid the
      building config lacks. */
  predicate Raises(building: Doc, guid: string, val: Entity) {
    LowerFails(guid, val) || (Selected(guid, val) && guid !in Keys(building))
  }

  /** Refreshing changes the etag only; the etag taken is the building config's, as a string. */
  lemma RefreshedSpec(building: Doc, guid: string, val: Entity)
    ensures var r := Refreshed(building, guid, val);
      && (forall f :: f != EtagField ==> Get(r, f) == Get(val, f))
      && (Selected(guid, val) && guid in Keys(building) && Truthy(BuildingEtag(building, guid)) ==>
            Field(r, EtagField) == Text(ToStr(BuildingEtag(building, guid))))
      && (!Selected(guid, val) ==> r == val)
  {
    SetSpec(val, EtagField, Text(ToStr(BuildingEtag(building, guid))));
  }

  /** A refreshed entity is selected, raises and reports exactly as before, and refreshing it
      again changes nothing. */
  lemma RefreshedTwice(building: Doc, guid: string, val: Entity)
    ensures var r := Refreshed(building, guid, val);
      && Selected(guid, r) == Selected(guid, val)
      && Raises(building, guid, r) == Raises(building, guid, val)
      && NewErrors(building, guid, r) == NewErrors(building, guid, val)
      && Refreshed(building, guid, r) == r
  {
    var r := Refreshed(building, guid, val);
    RefreshedSpec(building, guid, val);
    assert Field(r, OperationField) == Field(val, OperationField);
    assert Field(r, TranslationField) == Field(val, TranslationField);
    assert Field(r, CodeField) == Field(val, CodeField);
    if Selected(guid, val) && guid in Keys(building) && Truthy(BuildingEtag(building, guid)) {
      var v := Text(ToStr(BuildingEtag(building, guid)));
      SetGet(val, EtagField, v, EtagField);
      SetSame(r, EtagField, v);
    }
  }

  /** A config with the keys of a dict is a dict. */
  lemma SameKeysDict(d: Doc, d0: Doc)
    requires IsDict(d0) && Keys(d) == Keys(d0)
    ensures IsDict(d)
  {
    forall i, j | 0 <= i < j < |d|
      ensures d[i].0 != d[j].0
    {
      assert Keys(d)[i] == d0[i].0 && Keys(d)[j] == d0[j].0;
    }
  }

  /** One entry of a dict: it raises, or it is refreshed in its own position and adds its error. */
  lemma StepSpec(building: Doc, d: Doc, i: nat, errors: seq<string>)
    requires IsDict(d) && i < |d|
    ensures var s := Step(building, d[i].0, d[i].1, d, errors);
      && (s.Running? <==> !Raises(building, d[i].0, d[i].1))
      && (s.Running? ==> s == Running(d[i := (d[i].0, Refreshed(building, d[i].0, d[i].1))], errors + NewErrors(building, d[i].0, d[i].1)))
  {
    var guid := d[i].0;
    var val := d[i].1;
    GetAt(d, i);
    if !Raises(building, guid, val) && Selected(guid, val) && Truthy(BuildingEtag(building, guid)) {
      var v := Text(ToStr(BuildingEtag(building, guid)));
      MergeSingle(val, EtagField, v);
      SetAt(d, i, Set(val, EtagField, v));
    } else {
      assert d[i := (guid, val)] == d;
    }
  }

  /** The config after the loop went past its first `n` entries: those are refreshed, the
      others are as loaded. */
  ghost predicate RefreshedUpTo(building: Doc, d0: Doc, d: Doc, n: nat) {
    && n <= |d0| && |d| == |d0|
    && (forall j :: 0 <= j < n ==> d[j] == (d0[j].0, Refreshed(building, d0[j].0, d0[j].1)))
    && (forall j :: n <= j < |d0| ==> d[j] == d0[j])
  }

  /** The loop going past one more entry without raising refreshes that entry. */
  lemma ShapeStep(building: Doc, d0: Doc, d: Doc, n: nat, errors: seq<string>)
    requires IsDict(d0) && n < |d0| && RefreshedUpTo(building, d0, d, n)
    requires Step(building, d0[n].0, d0[n].1, d, errors).Running?
    ensures RefreshedUpTo(building, d0, Step(building, d0[n].0, d0[n].1, d, errors).doc, n + 1)
  {
    assert d[n] == d0[n];
    assert Keys(d) == Keys(d0) by {
      forall j | 0 <= j < |d0|
        ensures Keys(d)[j] == Keys(d0)[j]
      {
        assert d[j].0 == d0[j].0;
      }
    }
    SameKeysDict(d, d0);
    StepSpec(building, d, n, errors);
  }

  /** While no exception is raised, the entries the loop has passed are refreshed and the
      others are as loaded. */
  lemma {:induction false} RunShape(building: Doc, d0: Doc, n: nat)
    requires IsDict(d0) && n <= |d0| && RunTo(building, d0, n).Running?
    ensures RefreshedUpTo(building, d0, RunTo(building, d0, n).doc, n)
    decreases n
  {
    if n > 0 {
      var prev := RunTo(building, d0, n - 1);
      assert prev.Running?;
      RunShape(building, d0, n - 1);
      ShapeStep(building, d0, prev.doc, n - 1, prev.errors);
    }
  }

  /** A run that raises nothing leaves every entity refreshed, in the config's own order. */
  lemma EtagsRefreshed(building: Doc, d0: Doc)
    requires IsDict(d0)
    ensures var r := RunTo(building, d0, |d0|);
      && Keys(r.doc) == Keys(d0)
      && (r.Running? ==> forall j :: 0 <= j < |d0| ==> r.doc[j] == (d0[j].0, Refreshed(building, d0[j].0, d0[j].1)))
  {
    RunKeys(building, d0, |d0|);
    if RunTo(building, d0, |d0|).Running? {
      RunShape(building, d0, |d0|);
    }
  }

  /** `d1` is `d0` with every entity refreshed. */
  ghost predicate RefreshedOf(building: Doc, d0: Doc, d1: Doc) {
    |d1| == |d0| && forall j :: 0 <= j < |d0| ==> d1[j] == (d0[j].0, Refreshed(building, d0[j].0, d0[j].1))
  }

  /** An entry the first run got past without raising: what it added to the errors. */
  lemma FirstRunStep(building: Doc, d0: Doc, n: nat)
    requires IsDict(d0) && 0 < n <= |d0| && RunTo(building, d0, n).Running?
    ensures RunTo(building, d0, n - 1).Running?
    ensures !Raises(building, d0[n - 1].0, d0[n - 1].1)
    ensures RunTo(building, d0, n).errors == RunTo(building, d0, n - 1).errors + NewErrors(building, d0[n - 1].0, d0[n - 1].1)
  {
    var prev := RunTo(building, d0, n - 1);
    assert prev.Running?;
    RunShape(building, d0, n - 1);
    RunKeys(building, d0, n - 1);
    SameKeysDict(prev.doc, d0);
    StepSpec(building, prev.doc, n - 1, prev.errors);
  }

  /** The same entry in the refreshed config: nothing changes and the same error is added. */
  lemma SecondRunStep(building: Doc, d0: Doc, d1: Doc, i: nat, errors: seq<string>)
    requires IsDict(d0) && RefreshedOf(building, d0, d1) && i < |d0| && !Raises(building, d0[i].0, d0[i].1)
    ensures Step(building, d1[i].0, d1[i].1, d1, errors) == Running(d1, errors + NewErrors(building, d0[i].0, d0[i].1))
  {
    assert Keys(d1) == Keys(d0);
    SameKeysDict(d1, d0);
    StepSpec(building, d1, i, errors);
    RefreshedTwice(building, d0[i].0, d0[i].1);
    assert d1[i := d1[i]] == d1;
  }

  /** The second run, entry by entry, leaves the refreshed config as it is and reports the
      errors of the first run. */
  lemma {:induction false} RerunUpTo(building: Doc, d0: Doc, d1: Doc, n: nat)
    requires IsDict(d0) && RefreshedOf(building, d0, d1) && n <= |d0| && RunTo(building, d0, n).Running?
    ensures RunTo(building, d1, n) == Running(d1, RunTo(building, d0, n).errors)
    decreases n
  {
    if n > 0 {
      FirstRunStep(building, d0, n);
      RerunUpTo(building, d0, d1, n - 1);
      SecondRunStep(building, d0, d1, n - 1, RunTo(building, d0, n - 1).errors);
    }
  }

  /** Refreshing the etags of a config that was just refreshed against the same building
      config changes nothing and reports the same missing etags. */
  lemma EtagsIdempotent(building: Doc, d0: Doc)
    requires IsDict(d0) && RunTo(building, d0, |d0|).Running?
    ensures var r := RunTo(building, d0, |d0|);
      RunTo(building, r.doc, |r.doc|) == r
  {
    var r := RunTo(building, d0, |d0|);
    RunShape(building, d0, |d0|);
    RerunUpTo(building, d0, r.doc, |d0|);
  }

  // ---------------------------------------------------------------------------
  // The operation
  // ---------------------------------------------------------------------------

  /** Lines 181-185 for the entry `(guid, val)`, in place. */
  method RefreshEntry(building: Doc, onboard: Document, guid: string, val: Entity, errors: seq<string>)
    returns (fault: Option<Fault>, errors': seq<string>)
    modifies onboard
    ensures match Step(building, guid, val, old(onboard.entries), errors)
      case Failed(f, d) => fault == Some(f) && onboard.entries == d
      case Running(d, e) => fault == None && onboard.entries == d && errors' == e
  {
    errors' := errors;
    if guid == MetadataKey {
      return None, errors';
    }
    var op := Field(val, OperationField);
    if Truthy(op) && !op.Text? {
      return Some(AttributeError), errors';
    }
    if IsUpdate(op) || Truthy(Field(val, TranslationField)) {
      if guid !in Keys(building) {
        return Some(KeyError(guid)), errors';
      }
      var etag := Field(EntityOf(building, guid), EtagField);
      if Truthy(etag) {
        onboard.entries := Set(onboard.entries, guid, Merge(EntityOf(onboard.entries, guid), [(EtagField, Text(ToStr(etag)))]));
      } else {
        errors' := errors + [NoEtag(guid, Field(val, CodeField))];
      }
    }
    return None, errors';
  }

  /** Lines 167-195: the config is refreshed in place and dumped entry by entry. */
  method UpdateEtags(building: Doc, onboard: Document, fileName: string, files: FileLog) returns (out: Outcome)
    modifies onboard, files
    ensures match RunTo(building, old(onboard.entries), |old(onboard.entries)|)
      case Failed(f, d) => out == Raised(f) && onboard.entries == d && files.written == old(files.written)
      case Running(d, e) =>
        && onboard.entries == d
        && out == Done(Status(e, [], [SavedFileText + UpdName(fileName)]))
        && files.written == old(files.written) + [(UpdName(fileName), d)]
  {
    var items := onboard.entries;
    var errors: seq<string> := [];
    var i := 0;
    while i < |items|
      invariant i <= |items|
      invariant RunTo(building, items, i) == Running(onboard.entries, errors)
      modifies onboard
    {
      var fault;
      fault, errors := RefreshEntry(building, onboard, items[i].0, items[i].1, errors);
      if fault.Some? {
        FailedStays(building, items, i + 1, |items|);
        return Raised(fault.value);
      }
      i := i + 1;
    }
    var newFileName := UpdName(fileName);
    files.Write(newFileName, onboard.entries);
    return Done(Status(errors, [], [SavedFileText + newFileName]));
  }
}

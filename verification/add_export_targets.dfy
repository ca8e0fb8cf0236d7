/** What `export_add_config` stores, for which entries, and where the written config reads it:
    the reporting dicts hold, for every link target, the entity the documents held under that id
    when the walk began (the change document first, else the building document, else a `{}`
    placeholder); a target is stored while its entry's operation is ADD or UPDATE, read at the
    link's own turn; and with `abel_flags` an entry joins the virtual entities of the operation
    it was loaded with, unless an earlier entry linked to it and so popped that operation. */
module AddExportTargets {
  import opened OrderedMaps
  import opened Values
  import opened Documents
  import opened AddExport
  import opened AddExportFacts

  // ---------------------------------------------------------------------------
  // Where the stored references point
  // ---------------------------------------------------------------------------

  /** Every reference in `m` points where the original documents hold its id. */
  ghost predicate RefsFrom(abel0: Doc, building0: Doc, m: OMap<Ref>) {
    forall i :: 0 <= i < |m| ==> m[i].1 == RefTo(abel0, building0, m[i].0)
  }

  ghost predicate ReportsFrom(abel0: Doc, building0: Doc, st: AddState) {
    RefsFrom(abel0, building0, st.reportAdd) && RefsFrom(abel0, building0, st.reportUpdate)
  }

  lemma ResolveRefs(st0: AddState, st: AddState, key: string, link: string)
    requires Keeps(st0, st) && ReportsFrom(st0.abel, st0.building, st)
    ensures ReportsFrom(st0.abel, st0.building, Resolve(st, key, link))
  {
    ResolveStores(st, key, link, AddOp);
    ResolveStores(st, key, link, UpdateOp);
    assert RefTo(st.abel, st.building, link) == RefTo(st0.abel, st0.building, link);
  }

  lemma {:induction false} ResolveAllRefs(st0: AddState, st: AddState, key: string, links: seq<string>)
    requires Keeps(st0, st) && ReportsFrom(st0.abel, st0.building, st)
    ensures ReportsFrom(st0.abel, st0.building, ResolveAll(st, key, links))
    decreases |links|
  {
    if links != [] {
      var init := links[..|links| - 1];
      ResolveAllRefs(st0, st, key, init);
      ResolveAllFrame(st, key, init);
      ResolveRefs(st0, ResolveAll(st, key, init), key, links[|links| - 1]);
    }
  }

  lemma VisitRefs(st0: AddState, st: AddState, key: string, abelFlags: bool)
    requires Keeps(st0, st) && ReportsFrom(st0.abel, st0.building, st)
    ensures ReportsFrom(st0.abel, st0.building, Visit(st, key, abelFlags))
  {
    if Truthy(Field(EntityOf(st.abel, key), LinksField)) {
      var st1 := Classify(st, key, abelFlags);
      ClassifyFacts(st, key, abelFlags);
      match LinkTargets(Field(EntityOf(st1.abel, key), LinksField))
      case None =>
      case Some(links) =>
        ResolveAllRefs(st0, st1, key, links);
    }
  }

  lemma {:induction false} WalkRefs(st0: AddState, st: AddState, keys: seq<string>, abelFlags: bool)
    requires Keeps(st0, st) && ReportsFrom(st0.abel, st0.building, st)
    ensures ReportsFrom(st0.abel, st0.building, Walk(st, keys, abelFlags))
    decreases |keys|
  {
    if keys != [] && !st.crashed {
      VisitRefs(st0, st, keys[0], abelFlags);
      VisitFrame(st, keys[0], abelFlags);
      WalkRefs(st0, Visit(st, keys[0], abelFlags), keys[1..], abelFlags);
    }
  }

  /** Every `link_data` stored in `reporting_add_virtual` and `reporting_update_virtual` is the
      entity the change document held under the link when the walk began, else the one the
      building document held, else a fresh placeholder: cleaning targets adds and drops no key. */
  lemma AddRefs(abel0: Doc, building0: Doc, abelFlags: bool)
    ensures var st := Walk(Start(abel0, building0), Keys(abel0), abelFlags);
      && RefsFrom(abel0, building0, st.reportAdd)
      && RefsFrom(abel0, building0, st.reportUpdate)
  {
    WalkRefs(Start(abel0, building0), Start(abel0, building0), Keys(abel0), abelFlags);
  }

  /** In the written `add_config`, a reported id that is not itself a virtual entity reads as
      the final (cleaned) entity of the change document when that document had the id, else as
      the final entity of the building document when it had it, else as `{}`. */
  lemma AddConfigTargets(abel0: Doc, building0: Doc, abelFlags: bool, rootKey: string, k: string)
    requires IsDict(abel0)
    ensures var st := Walk(Start(abel0, building0), Keys(abel0), abelFlags);
      k !in st.addVirtual && k in Keys(st.reportAdd) ==>
        Get(AddConfig(st, rootKey), k) ==
          Some(if k in Keys(abel0) then EntityOf(st.abel, k)
               else if k in Keys(building0) then EntityOf(st.building, k)
               else [])
  {
    var st0 := Start(abel0, building0);
    var st := Walk(st0, Keys(abel0), abelFlags);
    assert Distinct(Keys(abel0));
    WalkKept(st0, Keys(abel0), abelFlags);
    AddRefs(abel0, building0, abelFlags);
    AddConfigShape(st, rootKey);
    if k !in st.addVirtual && k in Keys(st.reportAdd) {
      var i := IndexOf(st.reportAdd, k);
      assert st.reportAdd[i].1 == RefTo(abel0, building0, k);
    }
  }

  // ---------------------------------------------------------------------------
  // When a target is stored
  // ---------------------------------------------------------------------------

  /** The entry's operation at the turn of `link`: read after the target is cleaned. */
  function OpAtTurn(st: AddState, key: string, link: string): Value {
    Field(EntityOf(Locate(st, key, link).abel, key), OperationField)
  }

  /** The reporting dict of an operation. */
  function ReportOf(st: AddState, op: string): OMap<Ref> {
    if op == UpdateOp then st.reportUpdate else st.reportAdd
  }

  predicate Recognised(op: string) {
    op == AddOp || op == UpdateOp
  }

  /** The operation at a link's turn is the entry's own, except when the entry links to itself:
      then its truthy operation has just been popped. */
  lemma TurnOpSpec(st: AddState, key: string, link: string)
    ensures var op := Field(EntityOf(st.abel, key), OperationField);
      && (link != key || key !in Keys(st.abel) ==> OpAtTurn(st, key, link) == op)
      && (link == key && key in Keys(st.abel) ==>
            !Truthy(OpAtTurn(st, key, link)) && (!Truthy(op) ==> OpAtTurn(st, key, link) == op))
  {
    if link in Keys(st.abel) {
      EntityOfSet(st.abel, link, Clean(EntityOf(st.abel, link)), key);
      CleanSpec(EntityOf(st.abel, link));
    }
  }

  /** One link: the target is appended to the dict of the operation found at its turn, unless
      that dict has the id already; the other dict is untouched. */
  lemma ResolveStores(st: AddState, key: string, link: string, op: string)
    requires Recognised(op)
    ensures var r := Resolve(st, key, link);
      ReportOf(r, op) == ReportOf(st, op) +
        (if OpAtTurn(st, key, link) == Text(op) && link !in Keys(ReportOf(st, op))
         then [(link, RefTo(st.abel, st.building, link))] else [])
    ensures link in Keys(ReportOf(Resolve(st, key, link), op)) <==>
              link in Keys(ReportOf(st, op)) || OpAtTurn(st, key, link) == Text(op)
  {
    var r := Resolve(st, key, link);
    LocateFrame(st, key, link);
    var m := ReportOf(st, op);
    if OpAtTurn(st, key, link) == Text(op) && link !in Keys(m) {
      assert ReportOf(r, op)[|m|].0 == link;
    } else if link in Keys(m) {
      KeysPrefix(m, ReportOf(r, op), link);
    }
  }

  /** The same, as the walk uses it: the dicts only grow, and the dict of an operation other
      than the one found at the turn stays as it was. */
  lemma ResolveGrows(st: AddState, key: string, link: string, op: string)
    requires Recognised(op)
    ensures var r := Resolve(st, key, link);
      && ReportOf(st, op) <= ReportOf(r, op)
      && (OpAtTurn(st, key, link) != Text(op) ==> ReportOf(r, op) == ReportOf(st, op))
      && (OpAtTurn(st, key, link) == Text(op) ==> link in Keys(ReportOf(r, op)))
  {
    ResolveStores(st, key, link, op);
  }

  lemma KeysPrefix(a: OMap<Ref>, b: OMap<Ref>, l: string)
    requires a <= b && l in Keys(a)
    ensures l in Keys(b)
  {
    var i := IndexOf(a, l);
    assert b[i] == a[i];
  }

  /** The operation of `k` in the change document. */
  function OpOf(d: Doc, k: string): Value {
    Field(EntityOf(d, k), OperationField)
  }

  /** Cleaning one target changes no operation but the target's, and that one only by popping
      it when truthy. */
  lemma ResolveOp(st: AddState, key: string, link: string, k: string)
    ensures var o := OpOf(Resolve(st, key, link).abel, k);
      && (Truthy(o) ==> o == OpOf(st.abel, k))
      && (k != link ==> o == OpOf(st.abel, k))
      && (k == link && k in Keys(st.abel) ==> !Truthy(o))
  {
    if link in Keys(st.abel) {
      EntityOfSet(st.abel, link, Clean(EntityOf(st.abel, link)), k);
      CleanSpec(EntityOf(st.abel, link));
    }
    StoreFacts(Locate(st, key, link), key, link, RefTo(st.abel, st.building, link));
  }

  lemma {:induction false} ResolveAllOp(st: AddState, key: string, links: seq<string>, k: string)
    ensures var o := OpOf(ResolveAll(st, key, links).abel, k);
      && (Truthy(o) ==> o == OpOf(st.abel, k))
      && (k !in links ==> o == OpOf(st.abel, k))
    decreases |links|
  {
    if links != [] {
      var init := links[..|links| - 1];
      var mid := ResolveAll(st, key, init);
      assert ResolveAll(st, key, links) == Resolve(mid, key, links[|links| - 1]);
      ResolveAllOp(st, key, init, k);
      ResolveOp(mid, key, links[|links| - 1], k);
    }
  }

  lemma InInit(links: seq<string>, l: string)
    requires l in links && l != links[|links| - 1]
    ensures l in links[..|links| - 1]
  {
    var i := FirstIndex(links, l);
    assert links[..|links| - 1][i] == l;
  }

  /** A target of the entry ends with no truthy operation. */
  lemma {:induction false} ResolveAllCleans(st: AddState, key: string, links: seq<string>, k: string)
    requires k in links && k in Keys(st.abel)
    ensures !Truthy(OpOf(ResolveAll(st, key, links).abel, k))
    decreases |links|
  {
    var init := links[..|links| - 1];
    var last := links[|links| - 1];
    var mid := ResolveAll(st, key, init);
    assert ResolveAll(st, key, links) == Resolve(mid, key, last);
    ResolveOp(mid, key, last, k);
    if k != last {
      InInit(links, k);
      ResolveAllCleans(st, key, init, k);
    } else {
      ResolveAllFrame(st, key, init);
    }
  }

  /** The other recognised operation. */
  function Other(op: string): string {
    if op == AddOp then UpdateOp else AddOp
  }

  /** An entry that does not link to itself stores every one of its targets under its
      operation, and nothing under the other. */
  lemma {:induction false} ResolveAllStores(st: AddState, key: string, links: seq<string>, op: string)
    requires Recognised(op) && OpOf(st.abel, key) == Text(op) && key !in links
    ensures var r := ResolveAll(st, key, links);
      && (forall l :: l in links ==> l in Keys(ReportOf(r, op)))
      && ReportOf(r, Other(op)) == ReportOf(st, Other(op))
    decreases |links|
  {
    if links != [] {
      var init := links[..|links| - 1];
      var last := links[|links| - 1];
      var mid := ResolveAll(st, key, init);
      var r := Resolve(mid, key, last);
      assert ResolveAll(st, key, links) == r;
      ResolveAllStores(st, key, init, op);
      ResolveAllOp(st, key, init, key);
      assert OpOf(mid.abel, key) == Text(op);
      TurnOpSpec(mid, key, last);
      ResolveGrows(mid, key, last, op);
      ResolveGrows(mid, key, last, Other(op));
      forall l | l in links
        ensures l in Keys(ReportOf(r, op))
      {
        if l != last {
          InInit(links, l);
          KeysPrefix(ReportOf(mid, op), ReportOf(r, op), l);
        }
      }
    }
  }

  /** An entry that links to itself stores nothing from that link on: the link pops the
      entry's operation before its own turn. */
  lemma {:induction false} ResolveAllAfterSelf(st: AddState, key: string, links: seq<string>, j: nat)
    requires j < |links| && links[j] == key && key in Keys(st.abel)
    ensures ResolveAll(st, key, links).reportAdd == ResolveAll(st, key, links[..j]).reportAdd
    ensures ResolveAll(st, key, links).reportUpdate == ResolveAll(st, key, links[..j]).reportUpdate
    decreases |links|
  {
    var init := links[..|links| - 1];
    var last := links[|links| - 1];
    var mid := ResolveAll(st, key, init);
    var r := Resolve(mid, key, last);
    assert ResolveAll(st, key, links) == r;
    ResolveAllFrame(st, key, init);
    if j < |links| - 1 {
      assert init[j] == key && init[..j] == links[..j];
      ResolveAllAfterSelf(st, key, init, j);
      ResolveAllCleans(st, key, init, key);
      TurnOpSpec(mid, key, last);
    } else {
      assert init == links[..j];
      TurnOpSpec(mid, key, last);
    }
    ResolveUnstored(mid, key, last);
  }

  /** A link whose turn finds no truthy operation stores nothing. */
  lemma ResolveUnstored(st: AddState, key: string, link: string)
    requires !Truthy(OpAtTurn(st, key, link))
    ensures Resolve(st, key, link).reportAdd == st.reportAdd
    ensures Resolve(st, key, link).reportUpdate == st.reportUpdate
  {
    LocateFrame(st, key, link);
    assert Truthy(Text(AddOp)) && Truthy(Text(UpdateOp));
  }

  // ---------------------------------------------------------------------------
  // With abel_flags
  // ---------------------------------------------------------------------------

  /** The virtual entities of an operation. */
  function Virtual(st: AddState, op: string): seq<string> {
    if op == UpdateOp then st.updateVirtual else st.addVirtual
  }

  /** The ids `for link in val['links']` goes through: none when the links are falsy or raise. */
  function Targets(links: Value): seq<string> {
    if !Truthy(links) then []
    else match LinkTargets(links)
      case Some(ls) => ls
      case None => []
  }

  /** One entry, with `abel_flags`: no operation changes but those of its targets, and those
      only by being popped. */
  lemma VisitOp(st: AddState, key: string, k: string)
    ensures var o := OpOf(Visit(st, key, true).abel, k);
      var ts := Targets(Field(EntityOf(st.abel, key), LinksField));
      && (Truthy(o) ==> o == OpOf(st.abel, k))
      && (k !in ts ==> o == OpOf(st.abel, k))
      && (k in ts && k in Keys(st.abel) ==> !Truthy(o))
  {
    if Truthy(Field(EntityOf(st.abel, key), LinksField)) {
      var st1 := Classify(st, key, true);
      assert st1.abel == st.abel;
      match LinkTargets(Field(EntityOf(st1.abel, key), LinksField))
      case None =>
      case Some(links) =>
        ResolveAllOp(st1, key, links, k);
        if k in links && k in Keys(st.abel) {
          ResolveAllCleans(st1, key, links, k);
        }
    }
  }

  /** One entry adds at most itself to each virtual list, and only to that of its operation. */
  lemma VisitJoins(st: AddState, key: string, k: string, op: string)
    requires Recognised(op)
    ensures var r := Visit(st, key, true);
      && Virtual(st, op) <= Virtual(r, op)
      && (k in Virtual(r, op) ==> k in Virtual(st, op) || (k == key && OpOf(st.abel, k) == Text(op)))
  {
    if Truthy(Field(EntityOf(st.abel, key), LinksField)) {
      var st1 := Classify(st, key, true);
      ClassifyFacts(st, key, true);
      match LinkTargets(Field(EntityOf(st1.abel, key), LinksField))
      case None =>
      case Some(links) =>
        ResolveAllFrame(st1, key, links);
    }
  }

  /** One entry joins a virtual list only when its links are truthy. */
  lemma VisitJoinsLinked(st: AddState, key: string, k: string, op: string)
    requires Recognised(op)
    ensures k in Virtual(Visit(st, key, true), op) ==>
              k in Virtual(st, op) || (k == key && Truthy(Field(EntityOf(st.abel, key), LinksField)))
  {
    if Truthy(Field(EntityOf(st.abel, key), LinksField)) {
      var st1 := Classify(st, key, true);
      ClassifyFacts(st, key, true);
      match LinkTargets(Field(EntityOf(st1.abel, key), LinksField))
      case None =>
      case Some(links) =>
        ResolveAllFrame(st1, key, links);
    }
  }

  /** An entry joins a virtual list only if its links, which the walk never changes, are truthy. */
  lemma {:induction false} WalkJoinsLinked(st0: AddState, st: AddState, keys: seq<string>, k: string, op: string)
    requires Recognised(op) && Keeps(st0, st)
    ensures k in Virtual(Walk(st, keys, true), op) ==>
              k in Virtual(st, op) || Truthy(Field(EntityOf(st0.abel, k), LinksField))
    decreases |keys|
  {
    if keys != [] && !st.crashed {
      var s1 := Visit(st, keys[0], true);
      VisitJoinsLinked(st, keys[0], k, op);
      VisitFrame(st, keys[0], true);
      FieldsAt(st.abel, st0.abel, keys[0]);
      WalkJoinsLinked(st0, s1, keys[1..], k, op);
    }
  }

  /** A linked entry whose operation is `op` when its turn comes joins that operation's list. */
  lemma VisitClassifies(st: AddState, key: string, op: string)
    requires Recognised(op) && Truthy(Field(EntityOf(st.abel, key), LinksField)) && OpOf(st.abel, key) == Text(op)
    ensures key in Virtual(Visit(st, key, true), op)
  {
    var st1 := Classify(st, key, true);
    ClassifyFacts(st, key, true);
    match LinkTargets(Field(EntityOf(st1.abel, key), LinksField))
    case None =>
    case Some(links) =>
      ResolveAllFrame(st1, key, links);
  }

  lemma {:induction false} WalkGrows(st: AddState, keys: seq<string>, op: string)
    requires Recognised(op)
    ensures Virtual(st, op) <= Virtual(Walk(st, keys, true), op)
    decreases |keys|
  {
    if keys != [] && !st.crashed {
      VisitJoins(st, keys[0], keys[0], op);
      WalkGrows(Visit(st, keys[0], true), keys[1..], op);
    }
  }

  /** An entry joins the list of `op` only if its operation was `op` when the walk began. */
  lemma {:induction false} WalkJoins(st: AddState, keys: seq<string>, k: string, op: string)
    requires Recognised(op)
    ensures k in Virtual(Walk(st, keys, true), op) ==> k in Virtual(st, op) || OpOf(st.abel, k) == Text(op)
    decreases |keys|
  {
    if keys != [] && !st.crashed {
      VisitJoins(st, keys[0], k, op);
      VisitOp(st, keys[0], k);
      WalkJoins(Visit(st, keys[0], true), keys[1..], k, op);
    }
  }

  /** The walk over `keys` reaches the entry `k`, which has truthy links, before any entry whose
      links raise and before any entry that links to `k`. */
  ghost predicate ReachedIntact(abel0: Doc, keys: seq<string>, k: string)
    decreases |keys|
  {
    && keys != []
    && var links := Field(EntityOf(abel0, keys[0]), LinksField);
       if keys[0] == k then Truthy(links)
       else !EntryCrashes(links) && k !in Targets(links) && ReachedIntact(abel0, keys[1..], k)
  }

  /** Some entry before `k` (none of them raising on the way) links to the entry `k`. */
  ghost predicate CleanedBefore(abel0: Doc, keys: seq<string>, k: string)
    decreases |keys|
  {
    && keys != [] && keys[0] != k
    && var links := Field(EntityOf(abel0, keys[0]), LinksField);
       k in Targets(links) || (!EntryCrashes(links) && CleanedBefore(abel0, keys[1..], k))
  }

  lemma {:induction false} WalkJoinsIntact(st0: AddState, st: AddState, keys: seq<string>, k: string, op: string)
    requires Recognised(op) && Keeps(st0, st) && !st.crashed
    requires ReachedIntact(st0.abel, keys, k) && OpOf(st.abel, k) == Text(op)
    ensures k in Virtual(Walk(st, keys, true), op)
    decreases |keys|
  {
    var s1 := Visit(st, keys[0], true);
    FieldsAt(st.abel, st0.abel, keys[0]);
    if keys[0] == k {
      VisitClassifies(st, k, op);
      WalkGrows(s1, keys[1..], op);
    } else {
      VisitFrame(st, keys[0], true);
      VisitOp(st, keys[0], k);
      WalkJoinsIntact(st0, s1, keys[1..], k, op);
    }
  }

  lemma {:induction false} WalkDropsCleaned(st0: AddState, st: AddState, keys: seq<string>, k: string, op: string)
    requires Recognised(op) && Keeps(st0, st) && !st.crashed && k in Keys(st0.abel)
    requires CleanedBefore(st0.abel, keys, k) && k !in Virtual(st, op)
    ensures k !in Virtual(Walk(st, keys, true), op)
    decreases |keys|
  {
    var s1 := Visit(st, keys[0], true);
    var links := Field(EntityOf(st0.abel, keys[0]), LinksField);
    FieldsAt(st.abel, st0.abel, keys[0]);
    VisitJoins(st, keys[0], k, op);
    VisitFrame(st, keys[0], true);
    assert Walk(st, keys, true) == Walk(s1, keys[1..], true);
    assert k !in Virtual(s1, op);
    if k in Targets(links) {
      VisitOp(st, keys[0], k);
      assert !Truthy(OpOf(s1.abel, k)) && Truthy(Text(op));
      WalkJoins(s1, keys[1..], k, op);
    } else {
      WalkDropsCleaned(st0, s1, keys[1..], k, op);
    }
  }

  /** With `abel_flags`, an entry is in `add_virtual` (`update_virtual`) only if it has truthy
      links and the change document gave it the operation ADD (UPDATE), compared
      case-sensitively; conversely a linked ADD (UPDATE) entry joins, provided the walk reaches
      it and no earlier entry links to it. */
  lemma AddWithFlags(abel0: Doc, building0: Doc, k: string, op: string)
    requires Recognised(op)
    ensures var st := Walk(Start(abel0, building0), Keys(abel0), true);
      && (k in Virtual(st, op) ==> OpOf(abel0, k) == Text(op) && Truthy(Field(EntityOf(abel0, k), LinksField)))
      && (ReachedIntact(abel0, Keys(abel0), k) && OpOf(abel0, k) == Text(op) ==> k in Virtual(st, op))
  {
    var st0 := Start(abel0, building0);
    WalkJoins(st0, Keys(abel0), k, op);
    WalkJoinsLinked(st0, st0, Keys(abel0), k, op);
    if ReachedIntact(abel0, Keys(abel0), k) && OpOf(abel0, k) == Text(op) {
      WalkJoinsIntact(st0, st0, Keys(abel0), k, op);
    }
  }

  /** With `abel_flags`, an entry that an earlier entry links to is in neither virtual list,
      whatever its operation: resolving that link popped the operation before the entry's
      own turn. */
  lemma AddCleanedDropped(abel0: Doc, building0: Doc, k: string)
    requires k in Keys(abel0) && CleanedBefore(abel0, Keys(abel0), k)
    ensures var st := Walk(Start(abel0, building0), Keys(abel0), true);
      k !in st.addVirtual && k !in st.updateVirtual
  {
    var st0 := Start(abel0, building0);
    WalkDropsCleaned(st0, st0, Keys(abel0), k, AddOp);
    WalkDropsCleaned(st0, st0, Keys(abel0), k, UpdateOp);
  }
}

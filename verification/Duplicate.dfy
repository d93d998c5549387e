// apps/desktop/project_store.py, duplicate and the part of recovery that deals with
// its remains. One library of isolated projects.
module Duplicate {
  import opened Wrappers
  import opened Rebase

  type Path = seq<string>

  datatype Body = Blob(content: string) | Receipt(payload: Json)

  // A workspace directory: its two marker files and everything else.
  datatype Space = Space(transaction: Option<string>, marker: Option<string>, files: map<Path, Body>)

  datatype Name = Final(id: string) | Staging(id: string, nonce: string)

  datatype Document = Document(
    id: string, root: string, name: string, active: bool, hasInput: bool,
    run: Option<string>, status: string, stages: Json, rest: Json)

  datatype Mode = InputsOnly | Whole

  // ------------------------------------------------------------------ what is copied

  function Suffix(s: string, n: nat): string { if n <= |s| then s[|s| - n..] else s }

  predicate Ignored(name: string) {
    || name in [".locks", ".transactions", "__pycache__", "attempts", "temp"]
    || Suffix(name, 8) == ".staging" || Suffix(name, 7) == ".backup"
    || Suffix(name, 7) == ".failed" || Suffix(name, 4) == ".tmp"
  }

  predicate Copied(p: Path, mode: Mode) {
    && p != []
    && (p[0] == "inputs" || (mode == Whole && p[0] != ".locks" && p[0] != ".transactions"))
    && forall i :: 0 < i < |p| ==> !Ignored(p[i])
  }

  predicate IsReceipt(p: Path) {
    || p == ["viewer", "scene.json"]
    || (|p| == 4 && p[0] == "runs" && p[2] == "timeline" && p[3] == "camera-timeline.json")
  }

  function SetKey(keys: seq<string>, items: seq<Json>, key: string, value: Json): Json {
    if keys == [] || items == [] then Object([key], [value])
    else if keys[0] == key then Object(keys, [value] + items[1..])
    else
      var rest := SetKey(keys[1..], items[1..], key, value);
      match rest
      case Object(k, i) => Object([keys[0]] + k, [items[0]] + i)
      case _ => rest
  }

  function Readdressed(b: Body, from: string, to: string, id: string): Body {
    match b
    case Receipt(Object(keys, items)) =>
      (match Rebased(Object(keys, items), from, to)
       case Object(k, i) => Receipt(SetKey(k, i, "project_id", String(id)))
       case j => Receipt(j))
    case _ => b
  }

  function FilesCopied(files: map<Path, Body>, mode: Mode): map<Path, Body> {
    map p | p in files && Copied(p, mode) :: files[p]
  }

  // The name of a transaction marker, and the children that copying the rest passes over.
  const MARKER := ".gaussianos-transaction.json"

  const PASSED_OVER: set<string> := {"inputs", ".locks", ".transactions"}

  // In the order of the directory, the children of a workspace that a complete copy copies
  // after the inputs. They include the transaction marker, if there is one.
  ghost predicate Lists(children: seq<string>, source: Space) {
    && (forall p :: p in source.files && p != [] && p[0] !in PASSED_OVER ==> p[0] in children)
    && (forall p :: p in source.files && p != [] ==> p[0] != MARKER)
    && (forall c :: c in children ==> c !in PASSED_OVER)
    && (MARKER in children <==> source.transaction.Some?)
    && (forall i, j :: 0 <= i < j < |children| ==> children[i] != children[j])
  }

  function FilesBelow(files: map<Path, Body>, child: string): map<Path, Body> {
    map p | p in files && Copied(p, Whole) && p[0] == child :: files[p]
  }

  // The inputs and the given children.
  function FilesSoFar(files: map<Path, Body>, children: seq<string>): map<Path, Body> {
    map p | p in files && Copied(p, Whole) && (p[0] == "inputs" || p[0] in children) :: files[p]
  }

  lemma NoChildYet(files: map<Path, Body>)
    ensures FilesSoFar(files, []) == FilesCopied(files, InputsOnly)
  {
  }

  lemma NextChild(source: Space, children: seq<string>, j: nat)
    requires Lists(children, source) && j < |children|
    ensures var c, files := children[j], source.files;
      FilesSoFar(files, children[..j + 1]) == FilesSoFar(files, children[..j]) + FilesBelow(files, c)
      && (c == MARKER ==> FilesBelow(files, c) == map[])
  {
    assert children[..j + 1] == children[..j] + [children[j]];
  }

  lemma EveryChild(source: Space, children: seq<string>)
    requires Lists(children, source)
    ensures FilesSoFar(source.files, children) == FilesCopied(source.files, Whole)
  {
  }

  function FilesReaddressed(files: map<Path, Body>, from: string, to: string, id: string): map<Path, Body> {
    map p | p in files :: if IsReceipt(p) then Readdressed(files[p], from, to, id) else files[p]
  }

  function Clone(doc: Document, id: string, to: string, name: string, mode: Mode): Document {
    var moved := Document(id, to, name, doc.active, doc.hasInput, doc.run, doc.status,
                          Rebased(doc.stages, doc.root, to), Rebased(doc.rest, doc.root, to));
    if mode == Whole then moved
    else moved.(run := None, status := if doc.hasInput then "ready" else "idle", stages := Object([], []))
  }

  // The workspace of the copy, before and after its transaction marker is removed.
  function CopyOf(source: Space, from: string, to: string, id: string, mode: Mode, transaction: Option<string>): Space {
    Space(transaction, Some(id), FilesReaddressed(FilesCopied(source.files, mode), from, to, id))
  }

  // ----------------------------------------------------------------- possible remains

  type Spaces = map<Name, Space>
  type Metas = map<string, Document>

  datatype Plan = Plan(
    source: Space, children: seq<string>, doc: Document, id: string, nonce: string, to: string, name: string,
    mode: Mode)

  function Target(plan: Plan, transaction: Option<string>): Space {
    CopyOf(plan.source, plan.doc.root, plan.to, plan.id, plan.mode, transaction)
  }

  function Record(plan: Plan): Document { Clone(plan.doc, plan.id, plan.to, plan.name, plan.mode) }

  // Nothing but the copy is ever touched.
  ghost predicate Apart(plan: Plan, metas0: Metas, spaces0: Spaces, metas: Metas, spaces: Spaces) {
    && metas - {plan.id} == metas0
    && spaces - {Final(plan.id), Staging(plan.id, plan.nonce)} == spaces0
  }

  // What there is of a copy; a mark is the content of its transaction marker.
  datatype Remains =
    | NoCopy
    | BareStaging                               // an empty staging directory
    | MarkedStaging(mark: Option<string>)       // a staging directory with a marker file, None an unreadable one
    | Unrecorded(mark: Option<string>)          // the complete workspace without metadata
    | Complete(mark: Option<string>)            // the complete workspace and its metadata
    | Dangling                                  // metadata without a workspace

  ghost predicate Is(plan: Plan, metas: Metas, spaces: Spaces, r: Remains) {
    var staging, final := Staging(plan.id, plan.nonce), Final(plan.id);
    && (staging in spaces <==> r.BareStaging? || r.MarkedStaging?)
    && (final in spaces <==> r.Unrecorded? || r.Complete?)
    && (plan.id in metas <==> r.Complete? || r.Dangling?)
    && (r.BareStaging? ==> spaces[staging] == Space(None, None, map[]))
    && (r.MarkedStaging? ==> spaces[staging].transaction == r.mark)
    && (r.Unrecorded? || r.Complete? ==> spaces[final] == Target(plan, r.mark))
    && (r.Complete? || r.Dangling? ==> metas[plan.id] == Record(plan))
  }

  // The marker after the copying of the complete mode, which copies a marker of the source
  // over that of the copy.
  function Mark(plan: Plan): Option<string> {
    if plan.mode == Whole && plan.source.transaction.Some? then plan.source.transaction else Some(plan.id)
  }

  predicate Foreign(plan: Plan) { Mark(plan) != Some(plan.id) }

  // What becomes of the effects: of the numbered ones, and of the copying of each child of
  // the source in effect 3; `torn` if the copying of the one that fails has begun to write.
  datatype Faults = Faults(fate: nat -> Fate, copying: nat -> Fate, torn: bool)

  // The first child from the j-th on whose copying does not work.
  function StopAt(copying: nat -> Fate, n: nat, j: nat): (k: nat)
    requires j <= n
    ensures j <= k <= n && (k < n ==> copying(k) != Works)
    decreases n - j
  {
    if j == n || copying(j) != Works then j else StopAt(copying, n, j + 1)
  }

  function Stopped(plan: Plan, faults: Faults): (k: nat)
    ensures k <= |plan.children|
  {
    StopAt(faults.copying, |plan.children|, 0)
  }

  // The effects: the directory, its marker, the inputs, the rest (of a complete copy), the
  // ownership marker, the receipts, the publication, the metadata, the removal of the
  // marker, the directories.
  function Effect(plan: Plan, faults: Faults, n: nat): Fate {
    if n != 3 then faults.fate(n)
    else if plan.mode == InputsOnly || Stopped(plan, faults) == |plan.children| then Works
    else faults.copying(Stopped(plan, faults))
  }

  // The first one from the n-th on that does not work, 10 if all work.
  function First(plan: Plan, faults: Faults, n: nat): nat
    decreases 10 - n
  {
    if n >= 10 then 10
    else if Effect(plan, faults, n) != Works then n
    else First(plan, faults, n + 1)
  }

  function Failure(plan: Plan, faults: Faults, f: nat): Fate { if f >= 10 then Works else Effect(plan, faults, f) }

  // The copying of the rest stopped in the middle of the marker of the source.
  predicate Torn(plan: Plan, faults: Faults) {
    faults.torn && Stopped(plan, faults) < |plan.children| && plan.children[Stopped(plan, faults)] == MARKER
  }

  // The marker of a copy that stopped in the copying of the rest.
  function MarkMidway(plan: Plan, faults: Faults): Option<string> {
    if Torn(plan, faults) then None
    else if MARKER in plan.children[..Stopped(plan, faults)] then Mark(plan)
    else Some(plan.id)
  }

  function Reached(plan: Plan, faults: Faults, f: nat): Remains {
    if f == 0 then NoCopy
    else if f == 1 then BareStaging
    else if f == 2 then MarkedStaging(Some(plan.id))
    else if f == 3 then MarkedStaging(MarkMidway(plan, faults))
    else if f <= 6 then MarkedStaging(Mark(plan))
    else if f == 7 then Unrecorded(Mark(plan))
    else if f == 8 then Complete(Mark(plan))
    else Complete(None)
  }

  // The handler removes the workspace if that was published (10), the staging directory
  // (11) and the metadata (12); failures of the first two are ignored.
  function RolledBack(r: Remains, fate: nat -> Fate): Remains {
    var published := r.Unrecorded? || r.Complete?;
    var r1 := if published && fate(10) == Works then (if r.Complete? then Dangling else NoCopy) else r;
    var r2 := if fate(11) == Works && (r1.BareStaging? || r1.MarkedStaging?) then NoCopy else r1;
    if (published && fate(10) == Dies) || fate(11) == Dies || fate(12) != Works
    then if published && fate(10) == Dies then r else r2
    else match r2 case Complete(mark) => Unrecorded(mark) case Dangling => NoCopy case _ => r2
  }

  function After(plan: Plan, faults: Faults): Remains {
    var f := First(plan, faults, 0);
    if Failure(plan, faults, f) == Raises then RolledBack(Reached(plan, faults, f), faults.fate)
    else Reached(plan, faults, f)
  }

  // Recovery acts on directories that bear a marker with their own identifier.
  function Recovered(plan: Plan, r: Remains): Remains {
    match r
    case MarkedStaging(mark) => if mark == Some(plan.id) then NoCopy else r
    case Unrecorded(mark) => if mark == Some(plan.id) then NoCopy else r
    case Complete(mark) => if mark == Some(plan.id) then Complete(None) else r
    case _ => r
  }

  // What a copy that fails or dies anywhere, in its handler too, and a completed recovery
  // leave besides nothing and the complete copy: the exact causes.
  lemma WhatRecoveryLeaves(plan: Plan, faults: Faults)
    ensures var f, r, fate := First(plan, faults, 0), Recovered(plan, After(plan, faults)), faults.fate;
      && (r.BareStaging? <==> f == 1 && (fate(1) == Dies || fate(11) != Works))
      && (r.Dangling? <==>
            (f == 8 || f == 9) && fate(f) == Raises && fate(10) == Works && (fate(11) == Dies || fate(12) != Works))
      && (r.Unrecorded? <==>
            || (f == 7 && Foreign(plan) && (fate(7) == Dies || fate(10) != Works))
            || ((f == 9 || (f == 8 && Foreign(plan))) && fate(f) == Raises
                && fate(10) == Raises && fate(11) != Dies && fate(12) == Works))
      && (r.MarkedStaging? <==>
            && (|| (4 <= f <= 6 && Foreign(plan))
                || (f == 3 && (Torn(plan, faults)
                               || (Foreign(plan) && MARKER in plan.children[..Stopped(plan, faults)]))))
            && (Effect(plan, faults, f) == Dies || fate(11) != Works))
      && (r.Complete? <==>
            || f == 10
            || ((f == 8 || f == 9) && (fate(f) == Dies || fate(10) == Dies
                || (fate(10) == Raises && (fate(11) == Dies || fate(12) != Works)))))
  {
    FirstFails(plan, faults, 0);
    hide First, Stopped;
  }

  lemma {:induction false} FirstFails(plan: Plan, faults: Faults, n: nat)
    requires n <= 10
    ensures var f := First(plan, faults, n); n <= f <= 10 && (f < 10 ==> Effect(plan, faults, f) != Works)
    decreases 10 - n
  {
    if n < 10 {
      FirstFails(plan, faults, n + 1);
    }
  }

  // In terms of the first two effects, an empty staging directory stays exactly if it was
  // made and its marker not written, unless the handler removed it.
  lemma BareExactly(plan: Plan, faults: Faults)
    ensures Recovered(plan, After(plan, faults)).BareStaging? <==>
      faults.fate(0) == Works && (faults.fate(1) == Dies || (faults.fate(1) == Raises && faults.fate(11) != Works))
  {
    WhatRecoveryLeaves(plan, faults);
    FirstFails(plan, faults, 2);
  }

  // A complete copy of a source that bears its own marker, killed once that marker has been
  // copied and before the rest is: the staging directory stays for ever.
  lemma KilledAmongTheChildren(plan: Plan, faults: Faults, k: nat)
    requires plan.mode == Whole && Lists(plan.children, plan.source)
    requires plan.source.transaction.Some? && plan.source.transaction != Some(plan.id)
    requires faults.fate(0) == faults.fate(1) == faults.fate(2) == Works
    requires k < |plan.children| && MARKER in plan.children[..k]
    requires faults.copying(k) == Dies && forall i :: 0 <= i < k ==> faults.copying(i) == Works
    ensures Recovered(plan, After(plan, faults)) == MarkedStaging(plan.source.transaction)
  {
    StopsHere(faults.copying, |plan.children|, 0, k);
    FirstStep(plan, faults, 0);
    FirstStep(plan, faults, 1);
    FirstStep(plan, faults, 2);
    FirstStep(plan, faults, 3);
    assert plan.children[k] != MARKER;
    hide First, StopAt;
  }

  lemma {:induction false} StopsHere(copying: nat -> Fate, n: nat, j: nat, k: nat)
    requires j <= k < n && copying(k) != Works && forall i :: j <= i < k ==> copying(i) == Works
    ensures StopAt(copying, n, j) == k
    decreases k - j
  {
    if j < k {
      StopsHere(copying, n, j + 1, k);
    }
  }

  // --------------------------------------------------------------- what a copy holds

  function Lookup(keys: seq<string>, items: seq<Json>, key: string): Option<Json> {
    if keys == [] || items == [] then None
    else if keys[0] == key then Some(items[0])
    else Lookup(keys[1..], items[1..], key)
  }

  lemma {:induction false} SetKeySets(keys: seq<string>, items: seq<Json>, key: string, value: Json)
    requires |keys| == |items|
    ensures var r := SetKey(keys, items, key, value);
      && r.Object? && |r.keys| == |r.items|
      && forall other ::
           Lookup(r.keys, r.items, other) == if other == key then Some(value) else Lookup(keys, items, other)
  {
    if keys != [] && keys[0] != key {
      SetKeySets(keys[1..], items[1..], key, value);
      var rest := SetKey(keys[1..], items[1..], key, value);
      assert ([keys[0]] + rest.keys)[1..] == rest.keys && ([items[0]] + rest.items)[1..] == rest.items;
    } else if keys != [] {
      assert ([value] + items[1..])[1..] == items[1..];
    }
  }

  lemma {:induction false} RebasedCount(items: seq<Json>, from: string, to: string)
    ensures |RebasedItems(items, from, to)| == |items|
  {
    if items != [] {
      RebasedCount(items[1..], from, to);
    }
  }

  // A receipt keeps its keys, has every path rebased and names the copy as its project.
  lemma ReceiptReaddressed(keys: seq<string>, items: seq<Json>, from: string, to: string, id: string)
    requires |keys| == |items|
    ensures var r := Readdressed(Receipt(Object(keys, items)), from, to, id);
      && r.Receipt? && r.payload.Object?
      && forall key :: Lookup(r.payload.keys, r.payload.items, key) ==
           if key == "project_id" then Some(String(id)) else Lookup(keys, RebasedItems(items, from, to), key)
  {
    RebasedCount(items, from, to);
    SetKeySets(keys, RebasedItems(items, from, to), "project_id", String(id));
    hide SetKey, Lookup, RebasedItems;
  }

  // The copy holds exactly the files that are not ignored -- in the inputs-only mode
  // those below `inputs` -- and only receipts are altered.
  lemma CopyIsFaithful(plan: Plan, transaction: Option<string>, p: Path)
    ensures var files, copy := plan.source.files, Target(plan, transaction).files;
      && (p in copy <==> p in files && Copied(p, plan.mode))
      && (p in copy ==>
            copy[p] == if IsReceipt(p) then Readdressed(files[p], plan.doc.root, plan.to, plan.id) else files[p])
      && (p in copy && plan.mode == InputsOnly ==> p[0] == "inputs" && copy[p] == files[p])
  {
    hide Readdressed, Ignored;
    if p != [] && p[0] == "inputs" {
      assert "inputs" != "viewer" && "inputs" != "runs" by {
        assert "inputs"[0] == 'i' && "viewer"[0] == 'v' && "runs"[0] == 'r';
      }
      assert !IsReceipt(p);
    }
  }

  datatype Ending = Done | Raised | Killed

  ghost predicate AllWork(fate: nat -> Fate) { forall n :: fate(n) == Works }

  class Library {
    var metas: Metas
    var spaces: Spaces

    constructor (metas: Metas, spaces: Spaces)
      ensures this.metas == metas && this.spaces == spaces
    {
      this.metas, this.spaces := metas, spaces;
    }

    // The success path, up to its first effect that raises or kills.
    method Build(plan: Plan, faults: Faults) returns (failure: Fate, published: bool)
      requires Is(plan, metas, spaces, NoCopy) && Lists(plan.children, plan.source)
      modifies this
      ensures Apart(plan, old(metas), old(spaces), metas, spaces)
      ensures Is(plan, metas, spaces, Reached(plan, faults, First(plan, faults, 0)))
      ensures published <==> Final(plan.id) in spaces
      ensures failure == Failure(plan, faults, First(plan, faults, 0))
    {
      hide First, Stopped, Lists;
      Firsts(plan, faults);
      var fate := faults.fate;
      var staging := Staging(plan.id, plan.nonce);
      published := false;
      failure := fate(0);
      if failure != Works {
        return;
      }
      spaces := spaces[staging := Space(None, None, map[])];
      failure := fate(1);
      if failure != Works {
        return;
      }
      spaces := spaces[staging := Space(Some(plan.id), None, map[])];
      failure := Fill(plan, faults);
      if failure != Works {
        return;
      }
      failure := fate(6);
      if failure != Works {
        return;
      }
      failure := PublishAndRecord(plan, faults);
      published := true;
    }

    // The copies into the marked staging directory.
    method Fill(plan: Plan, faults: Faults) returns (failure: Fate)
      requires Staging(plan.id, plan.nonce) in spaces && Lists(plan.children, plan.source)
      requires spaces[Staging(plan.id, plan.nonce)] == Space(Some(plan.id), None, map[])
      modifies this`spaces
      ensures Staging(plan.id, plan.nonce) in spaces
      ensures spaces == old(spaces)[Staging(plan.id, plan.nonce) := spaces[Staging(plan.id, plan.nonce)]]
      ensures var f := First(plan, faults, 2);
        && failure == (if f < 6 then Effect(plan, faults, f) else Works)
        && spaces[Staging(plan.id, plan.nonce)].transaction ==
             if f == 2 then Some(plan.id) else if f == 3 then MarkMidway(plan, faults) else Mark(plan)
      ensures failure == Works ==> spaces[Staging(plan.id, plan.nonce)] == Target(plan, Mark(plan))
    {
      hide First, Stopped, Lists, Torn;
      Firsts(plan, faults);
      FirstFails(plan, faults, 6);
      var fate := faults.fate;
      var staging := Staging(plan.id, plan.nonce);
      failure := fate(2);
      if failure != Works {
        return;
      }
      spaces := spaces[staging := Space(Some(plan.id), None, FilesCopied(plan.source.files, InputsOnly))];
      if plan.mode == Whole {
        failure := CopyRest(plan, faults);
        if failure != Works {
          return;
        }
      }
      failure := fate(4);
      if failure != Works {
        return;
      }
      spaces := spaces[staging := spaces[staging].(marker := Some(plan.id))];
      failure := fate(5);
      if failure != Works {
        return;
      }
      spaces := spaces[staging := spaces[staging].(
                         files := FilesReaddressed(spaces[staging].files, plan.doc.root, plan.to, plan.id))];
    }

    // The loop over the children of the source; among them is its transaction marker.
    method CopyRest(plan: Plan, faults: Faults) returns (failure: Fate)
      requires Staging(plan.id, plan.nonce) in spaces && Lists(plan.children, plan.source) && plan.mode == Whole
      requires spaces[Staging(plan.id, plan.nonce)] ==
               Space(Some(plan.id), None, FilesCopied(plan.source.files, InputsOnly))
      modifies this`spaces
      ensures Staging(plan.id, plan.nonce) in spaces
      ensures spaces == old(spaces)[Staging(plan.id, plan.nonce) := spaces[Staging(plan.id, plan.nonce)]]
      ensures failure == Effect(plan, faults, 3)
      ensures failure != Works ==> spaces[Staging(plan.id, plan.nonce)].transaction == MarkMidway(plan, faults)
      ensures failure == Works ==>
        spaces[Staging(plan.id, plan.nonce)] == Space(Mark(plan), None, FilesCopied(plan.source.files, Whole))
    {
      hide FilesCopied, FilesSoFar, FilesBelow, Lists;
      var staging, children, files := Staging(plan.id, plan.nonce), plan.children, plan.source.files;
      NoChildYet(files);
      MarkerListed(plan);
      var j := 0;
      while j < |children|
        invariant j <= |children| && StopAt(faults.copying, |children|, 0) == StopAt(faults.copying, |children|, j)
        invariant staging in spaces && spaces == old(spaces)[staging := spaces[staging]]
        invariant spaces[staging] == Space(if MARKER in children[..j] then Mark(plan) else Some(plan.id), None,
                                           FilesSoFar(files, children[..j]))
      {
        failure := faults.copying(j);
        if failure != Works {
          if children[j] == MARKER && faults.torn {
            spaces := spaces[staging := spaces[staging].(transaction := None)];
          }
          return;
        }
        NextChild(plan.source, children, j);
        assert children[..j + 1] == children[..j] + [children[j]];
        if children[j] == MARKER {
          spaces := spaces[staging := spaces[staging].(transaction := plan.source.transaction)];
        } else {
          var copied := spaces[staging].files + FilesBelow(files, children[j]);
          spaces := spaces[staging := spaces[staging].(files := copied)];
        }
        j := j + 1;
      }
      assert children[..j] == children;
      EveryChild(plan.source, children);
      failure := Works;
    }

    method PublishAndRecord(plan: Plan, faults: Faults) returns (failure: Fate)
      requires plan.id !in metas && Final(plan.id) !in spaces && Staging(plan.id, plan.nonce) in spaces
      requires spaces[Staging(plan.id, plan.nonce)] == Target(plan, Mark(plan))
      modifies this
      ensures metas - {plan.id} == old(metas)
      ensures spaces - {Final(plan.id), Staging(plan.id, plan.nonce)} == old(spaces) - {Staging(plan.id, plan.nonce)}
      ensures Is(plan, metas, spaces, Reached(plan, faults, First(plan, faults, 7))) && Final(plan.id) in spaces
      ensures failure == Failure(plan, faults, First(plan, faults, 7))
    {
      hide First, Stopped;
      Firsts(plan, faults);
      var fate := faults.fate;
      var staging := Staging(plan.id, plan.nonce);
      spaces := (spaces - {staging})[Final(plan.id) := spaces[staging]];
      failure := fate(7);
      if failure == Works {
        metas := metas[plan.id := Record(plan)];
        failure := fate(8);
        if failure == Works {
          spaces := spaces[Final(plan.id) := spaces[Final(plan.id)].(transaction := None)];
          failure := fate(9);
        }
      }
    }

    // The handler: directories first, metadata last.
    method Rollback(plan: Plan, published: bool, fate: nat -> Fate, ghost r: Remains) returns (ending: Ending)
      requires Is(plan, metas, spaces, r) && !r.Dangling? && (published <==> Final(plan.id) in spaces)
      modifies this
      ensures ending != Done
      ensures metas - {plan.id} == old(metas) - {plan.id}
      ensures spaces - {Final(plan.id), Staging(plan.id, plan.nonce)} ==
        old(spaces) - {Final(plan.id), Staging(plan.id, plan.nonce)}
      ensures Is(plan, metas, spaces, RolledBack(r, fate))
      // Killed or failing between the removal of the workspace and that of the metadata,
      // it leaves metadata without a workspace, which recovery does not look for.
      ensures plan.id in metas && Final(plan.id) !in spaces <==>
        plan.id in old(metas) && fate(10) == Works && (fate(11) == Dies || fate(12) != Works)
    {
      if published {
        if fate(10) == Dies {
          return Killed;
        } else if fate(10) == Works {
          spaces := spaces - {Final(plan.id)};
        }
      }
      if fate(11) == Dies {
        return Killed;
      } else if fate(11) == Works {
        spaces := spaces - {Staging(plan.id, plan.nonce)};
      }
      if fate(12) != Works {
        return if fate(12) == Dies then Killed else Raised;
      }
      metas := metas - {plan.id};
      ending := Raised;
    }

    // duplicate: `receipts` says whether the receipts of a complete copy are valid, and
    // `children` lists the directory of the source; the identifier and the nonce are new UUIDs.
    method DuplicateProject(id: string, copy: string, nonce: string, to: string, name: string, mode: Mode,
                            receipts: bool, children: seq<string>, faults: Faults)
      returns (ending: Ending, rolledBack: bool, ghost plan: Option<Plan>)
      requires copy !in metas && Final(copy) !in spaces && Staging(copy, nonce) !in spaces
      requires Final(id) in spaces ==> Lists(children, spaces[Final(id)])
      modifies this
      ensures plan.None? ==> ending == Raised && metas == old(metas) && spaces == old(spaces)
      ensures plan.Some? ==>
        && id in old(metas) && Final(id) in old(spaces)
        && plan.value == Plan(old(spaces)[Final(id)], children, old(metas)[id], copy, nonce, to, name, mode)
        && Apart(plan.value, old(metas), old(spaces), metas, spaces)
      ensures plan.Some? <==>
        id in old(metas) && Final(id) in old(spaces) && !old(metas)[id].active && (mode == Whole ==> receipts)
      ensures plan.Some? ==>
        && Is(plan.value, metas, spaces, After(plan.value, faults))
        && (rolledBack <==> Failure(plan.value, faults, First(plan.value, faults, 0)) == Raises)
        && (ending == Done <==> First(plan.value, faults, 0) == 10)
    {
      hide First, RolledBack, Stopped, Lists;
      rolledBack, plan := false, None;
      if id !in metas || Final(id) !in spaces || metas[id].active || (mode == Whole && !receipts) {
        return Raised, rolledBack, plan;
      }
      var p := Plan(spaces[Final(id)], children, metas[id], copy, nonce, to, name, mode);
      plan := Some(p);
      FirstFails(p, faults, 0);
      var failure, published := Build(p, faults);
      if failure == Works {
        ending := Done;
      } else if failure == Dies {
        ending := Killed;
      } else {
        rolledBack := true;
        ending := Rollback(p, published, faults.fate, Reached(p, faults, First(p, faults, 0)));
      }
    }

    // recover_lifecycle_residuals, for the marked directories of the library.
    method Recover(fate: nat -> Fate) returns (ending: Ending)
      modifies this`spaces
      ensures forall n :: n in spaces ==> n in old(spaces)
      ensures forall n :: n in spaces ==>
        spaces[n] == old(spaces)[n] || (n.id in metas && spaces[n] == old(spaces)[n].(transaction := None))
      ensures forall n :: n in old(spaces) && old(spaces)[n].transaction != Some(n.id) ==>
        n in spaces && spaces[n] == old(spaces)[n]
      ensures forall n :: n in old(spaces) && n.id in metas ==> n in spaces
      ensures ending == Done ==> forall n :: n in spaces ==> spaces[n].transaction != Some(n.id)
      ensures AllWork(fate) ==> ending == Done
    {
      var marked := set n | n in spaces && spaces[n].transaction == Some(n.id);
      var k := 0;
      while marked != {}
        invariant forall n :: n in marked <==> n in spaces && spaces[n].transaction == Some(n.id)
        invariant forall n :: n in spaces ==> n in old(spaces)
        invariant forall n :: n in spaces ==>
          spaces[n] == old(spaces)[n] || (n.id in metas && spaces[n] == old(spaces)[n].(transaction := None))
        invariant forall n :: n in marked ==> spaces[n] == old(spaces)[n]
        invariant forall n :: n in old(spaces) && old(spaces)[n].transaction != Some(n.id) ==>
          n in spaces && spaces[n] == old(spaces)[n]
        invariant forall n :: n in old(spaces) && n.id in metas ==> n in spaces
        decreases marked
      {
        var n: Name :| n in marked;
        if fate(k) != Works {
          return if fate(k) == Dies then Killed else Raised;
        }
        spaces := if n.id in metas then spaces[n := spaces[n].(transaction := None)] else spaces - {n};
        marked, k := marked - {n}, k + 1;
      }
      ending := Done;
    }

    // A copy that fails or is killed anywhere on its way, its handler too, and then a
    // recovery that completes: what is left is what WhatRecoveryLeaves is about.
    method DuplicateAndRecover(id: string, copy: string, nonce: string, to: string, name: string, mode: Mode,
                               receipts: bool, children: seq<string>, faults: Faults, recovery: nat -> Fate)
      returns (recovered: bool, ghost plan: Option<Plan>)
      requires copy !in metas && Final(copy) !in spaces && Staging(copy, nonce) !in spaces
      requires Final(id) in spaces ==> Lists(children, spaces[Final(id)])
      modifies this
      ensures metas - {copy} == old(metas)
      ensures forall n :: n in old(spaces) && n.id in old(metas) ==>
        n in spaces && (spaces[n] == old(spaces)[n] || spaces[n] == old(spaces)[n].(transaction := None))
      ensures plan.Some? <==>
        id in old(metas) && Final(id) in old(spaces) && !old(metas)[id].active && (mode == Whole ==> receipts)
      ensures plan.Some? ==>
        plan.value == Plan(old(spaces)[Final(id)], children, old(metas)[id], copy, nonce, to, name, mode)
      ensures plan.Some? && recovered ==>
        Is(plan.value, metas, spaces, Recovered(plan.value, After(plan.value, faults)))
      ensures AllWork(recovery) ==> recovered
    {
      hide First, After, Target, Record, Lists;
      var ending, rolledBack;
      ending, rolledBack, plan := DuplicateProject(id, copy, nonce, to, name, mode, receipts, children, faults);
      ghost var between := spaces;
      assert forall n :: n in old(spaces) ==> n in between && between[n] == old(spaces)[n];
      ending := Recover(recovery);
      recovered := ending == Done;
      if plan.Some? {
        TargetMarks(plan.value);
      }
    }
  }

  lemma FirstStep(plan: Plan, faults: Faults, n: nat)
    requires n < 10
    ensures First(plan, faults, n) == if Effect(plan, faults, n) != Works then n else First(plan, faults, n + 1)
  {
  }

  lemma Firsts(plan: Plan, faults: Faults)
    ensures First(plan, faults, 10) == 10
    ensures First(plan, faults, 9) == if Effect(plan, faults, 9) != Works then 9 else First(plan, faults, 10)
    ensures First(plan, faults, 8) == if Effect(plan, faults, 8) != Works then 8 else First(plan, faults, 9)
    ensures First(plan, faults, 7) == if Effect(plan, faults, 7) != Works then 7 else First(plan, faults, 8)
    ensures First(plan, faults, 6) == if Effect(plan, faults, 6) != Works then 6 else First(plan, faults, 7)
    ensures First(plan, faults, 5) == if Effect(plan, faults, 5) != Works then 5 else First(plan, faults, 6)
    ensures First(plan, faults, 4) == if Effect(plan, faults, 4) != Works then 4 else First(plan, faults, 5)
    ensures First(plan, faults, 3) == if Effect(plan, faults, 3) != Works then 3 else First(plan, faults, 4)
    ensures First(plan, faults, 2) == if Effect(plan, faults, 2) != Works then 2 else First(plan, faults, 3)
    ensures First(plan, faults, 1) == if Effect(plan, faults, 1) != Works then 1 else First(plan, faults, 2)
    ensures First(plan, faults, 0) == if Effect(plan, faults, 0) != Works then 0 else First(plan, faults, 1)
  {
    assert First(plan, faults, 10) == 10;
    hide First, Effect;
    FirstStep(plan, faults, 0);
    FirstStep(plan, faults, 1);
    FirstStep(plan, faults, 2);
    FirstStep(plan, faults, 3);
    FirstStep(plan, faults, 4);
    FirstStep(plan, faults, 5);
    FirstStep(plan, faults, 6);
    FirstStep(plan, faults, 7);
    FirstStep(plan, faults, 8);
    FirstStep(plan, faults, 9);
  }

  // A marker of the source is among the children.
  lemma MarkerListed(plan: Plan)
    requires Lists(plan.children, plan.source) && plan.mode == Whole
    ensures Mark(plan) == if MARKER in plan.children then plan.source.transaction else Some(plan.id)
  {
  }

  lemma TargetMarks(plan: Plan)
    ensures forall mark :: Target(plan, mark).transaction == mark
    ensures forall mark :: Target(plan, mark).(transaction := None) == Target(plan, None)
  {
  }
}

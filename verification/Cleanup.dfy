// apps/desktop/pipeline.py, cleanup_project and the cleanup part of
// recover_lifecycle_residuals: a write-ahead transaction over directory renames and
// one atomically replaced project document.
module Cleanup {
  import opened Wrappers
  import opened Projects

  // -------------------------------------------------------------- path reduction

  predicate Covers(unique: seq<Path>, c: Path) {
    exists parent :: parent in unique && parent <= c
  }

  function Reduced(listing: seq<Path>): seq<Path> {
    if listing == [] then []
    else
      var n := |listing| - 1;
      var unique := Reduced(listing[..n]);
      if Covers(unique, listing[n]) then unique else unique + [listing[n]]
  }

  method ReducePaths(listing: seq<Path>) returns (unique: seq<Path>)
    ensures unique == Reduced(listing)
  {
    unique := [];
    for k := 0 to |listing|
      invariant unique == Reduced(listing[..k])
    {
      assert listing[..k + 1][..k] == listing[..k];
      if !Covers(unique, listing[k]) {
        unique := unique + [listing[k]];
      }
    }
    assert listing[..|listing|] == listing;
  }

  // The set's elements in order of length, ties in any order.
  ghost predicate IsListing(listing: seq<Path>, paths: set<Path>) {
    && (forall p :: p in listing <==> p in paths)
    && (forall i, j :: 0 <= i < j < |listing| ==> listing[i] != listing[j] && |listing[i]| <= |listing[j]|)
  }

  ghost predicate Minimal(p: Path, paths: set<Path>) {
    p in paths && forall q :: q in paths && q <= p ==> q == p
  }

  ghost predicate Antichain(s: seq<Path>) {
    forall i, j :: 0 <= i < |s| && 0 <= j < |s| && s[i] <= s[j] ==> i == j
  }

  lemma PrefixTransitive(a: Path, b: Path, c: Path)
    requires a <= b <= c
    ensures a <= c
  {
    assert c[..|b|] == b && b[..|a|] == a;
    assert c[..|a|] == c[..|b|][..|a|];
  }

  lemma FrontListing(listing: seq<Path>, paths: set<Path>)
    requires IsListing(listing, paths) && listing != []
    ensures IsListing(listing[..|listing| - 1], paths - {listing[|listing| - 1]})
  {
    var n := |listing| - 1;
    forall p ensures p in listing[..n] <==> p in paths - {listing[n]} {
      if p in paths {
        var k :| 0 <= k < |listing| && listing[k] == p;
        if k < n { assert listing[..n][k] == p; }
      }
    }
  }

  lemma MinimalWithoutLast(p: Path, last: Path, paths: set<Path>)
    requires p in paths && p != last && |p| <= |last|
    ensures Minimal(p, paths) <==> Minimal(p, paths - {last})
  {
    assert !(last <= p);
    assert forall q :: q in paths && q <= p ==> q in paths - {last};
  }

  // Whether the last path of the listing is kept decides whether it is minimal.
  lemma LastIsMinimal(unique: seq<Path>, last: Path, paths: set<Path>)
    requires last in paths && (forall p :: p in unique ==> p in paths && p != last)
    requires forall p :: p in paths && p != last ==> Covers(unique, p)
    ensures Minimal(last, paths) <==> !Covers(unique, last)
  {
    if Covers(unique, last) {
      var parent :| parent in unique && parent <= last;
    } else {
      forall q | q in paths && q <= last ensures q == last {
        if q != last {
          var parent :| parent in unique && parent <= q;
          PrefixTransitive(parent, q, last);
        }
      }
    }
  }

  // The reduction returns exactly the minimal elements under the ancestor order,
  // whatever the order of ties; no element lies below another, and every target lies
  // at or below one of them.
  lemma {:induction false} ReducedIsMinimal(listing: seq<Path>, paths: set<Path>)
    requires IsListing(listing, paths)
    ensures forall p :: p in Reduced(listing) <==> Minimal(p, paths)
    ensures Antichain(Reduced(listing))
    ensures forall p :: p in paths ==> Covers(Reduced(listing), p)
  {
    if listing != [] {
      var n := |listing| - 1;
      var last, rest := listing[n], paths - {listing[n]};
      FrontListing(listing, paths);
      ReducedIsMinimal(listing[..n], rest);
      var unique := Reduced(listing[..n]);
      forall p | p in rest ensures Minimal(p, paths) <==> Minimal(p, rest) {
        var k :| 0 <= k < |listing| && listing[k] == p;
        MinimalWithoutLast(p, last, paths);
      }
      LastIsMinimal(unique, last, paths);
      StepReduces(unique, last, paths);
    }
  }

  lemma StepReduces(unique: seq<Path>, last: Path, paths: set<Path>)
    requires last in paths && Antichain(unique)
    requires forall p :: p in paths && p != last ==> (p in unique <==> Minimal(p, paths))
    requires forall p :: p in unique ==> p in paths && p != last
    requires forall p :: p in paths && p != last ==> Covers(unique, p)
    requires Minimal(last, paths) <==> !Covers(unique, last)
    ensures var r := if Covers(unique, last) then unique else unique + [last];
      && (forall p :: p in r <==> Minimal(p, paths))
      && Antichain(r)
      && forall p :: p in paths ==> Covers(r, p)
  {
    if !Covers(unique, last) {
      AntichainAppend(unique, last, paths);
      var r := unique + [last];
      forall p | p in paths ensures Covers(r, p) {
        if p != last {
          var parent :| parent in unique && parent <= p;
          assert parent in r;
        } else {
          assert last in r && last <= last;
        }
      }
    }
  }

  lemma AntichainAppend(s: seq<Path>, p: Path, paths: set<Path>)
    requires Antichain(s) && !Covers(s, p) && p in paths && p !in s
    requires forall q :: q in s ==> Minimal(q, paths)
    ensures Antichain(s + [p])
  {
    forall i, j | 0 <= i < |s| + 1 && 0 <= j < |s| + 1 && (s + [p])[i] <= (s + [p])[j] ensures i == j {
      assert i < |s| ==> s[i] in s;
      assert j < |s| ==> s[j] in s;
    }
  }

  // ------------------------------------------------------------------- renames

  datatype Node = Directory | File(content: string)

  type Tree = map<Path, Node>

  // What a rename of `source` takes away, recorded under the paths it came from,
  // and what it leaves behind.
  function Subtree(fs: Tree, source: Path): Tree { map p | p in fs && source <= p :: fs[p] }

  function Without(fs: Tree, source: Path): Tree { map p | p in fs && !(source <= p) :: fs[p] }

  // What remains of a tree once the moves numbered by `gone` have taken place.
  function Remaining(fs: Tree, moves: seq<Path>, gone: set<nat>): Tree {
    map p | p in fs && !(exists i :: i in gone && i < |moves| && moves[i] <= p) :: fs[p]
  }

  // What remains once all of them have.
  function Removed(fs: Tree, moves: seq<Path>): Tree { map p | p in fs && !Covers(moves, p) :: fs[p] }

  // Moves of an antichain do not disturb each other: each one takes the same subtree
  // and leaves the same rest whichever moves went before ...
  lemma MoveOne(fs: Tree, moves: seq<Path>, gone: set<nat>, k: nat)
    requires Antichain(moves) && k < |moves| && k !in gone
    ensures Subtree(Remaining(fs, moves, gone), moves[k]) == Subtree(fs, moves[k])
    ensures Without(Remaining(fs, moves, gone), moves[k]) == Remaining(fs, moves, gone + {k})
    ensures moves[k] in Remaining(fs, moves, gone) <==> moves[k] in fs
  {
    forall p, i | p in fs && i in gone && i < |moves| && moves[k] <= p ensures !(moves[i] <= p) {
      if moves[i] <= p {
        Comparable(moves[i], moves[k], p);
        assert false;
      }
    }
  }

  // ... and each one is undone by moving the subtree back, in whatever order.
  lemma UndoOne(fs: Tree, moves: seq<Path>, gone: set<nat>, k: nat)
    requires Antichain(moves) && k < |moves| && k in gone
    ensures Remaining(fs, moves, gone) + Subtree(fs, moves[k]) == Remaining(fs, moves, gone - {k})
    ensures moves[k] !in Remaining(fs, moves, gone)
  {
    var back := Remaining(fs, moves, gone) + Subtree(fs, moves[k]);
    forall p | p in fs ensures p in back <==> p in Remaining(fs, moves, gone - {k}) {
      if moves[k] <= p {
        forall i | i in gone - {k} && i < |moves| ensures !(moves[i] <= p) {
          if moves[i] <= p {
            Comparable(moves[i], moves[k], p);
            assert false;
          }
        }
      }
    }
    assert moves[k] <= moves[k];
  }

  lemma Comparable(a: Path, b: Path, p: Path)
    requires a <= p && b <= p
    ensures a <= b || b <= a
  {
    if |a| <= |b| {
      assert a == p[..|a|] == p[..|b|][..|a|];
    } else {
      assert b == p[..|b|] == p[..|a|][..|b|];
    }
  }

  lemma NoneOrAllGone(fs: Tree, moves: seq<Path>, gone: set<nat>)
    ensures Remaining(fs, moves, {}) == fs
    ensures (forall i :: 0 <= i < |moves| ==> i in gone) ==> Remaining(fs, moves, gone) == Removed(fs, moves)
  {
    forall p | Covers(moves, p) && (forall i :: 0 <= i < |moves| ==> i in gone)
      ensures exists i :: i in gone && i < |moves| && moves[i] <= p
    {
      var parent :| parent in moves && parent <= p;
      var i :| 0 <= i < |moves| && moves[i] == parent;
      assert i in gone && moves[i] <= p;
    }
    forall p, i | i in gone && i < |moves| && moves[i] <= p ensures Covers(moves, p) {
      assert moves[i] in moves;
    }
  }

  // Moving the paths of one antichain in two orders ends in the same tree.
  function MoveAll(fs: Tree, order: seq<Path>): Tree {
    if order == [] then fs else MoveAll(Without(fs, order[0]), order[1..])
  }

  lemma {:induction false} MoveAllRemains(fs: Tree, order: seq<Path>)
    ensures forall p :: p in MoveAll(fs, order) <==> p in fs && !Covers(order, p)
    ensures forall p :: p in MoveAll(fs, order) ==> MoveAll(fs, order)[p] == fs[p]
  {
    if order != [] {
      MoveAllRemains(Without(fs, order[0]), order[1..]);
      forall p { CoversFirst(order, p); }
    }
  }

  lemma CoversFirst(order: seq<Path>, p: Path)
    requires order != []
    ensures Covers(order, p) <==> order[0] <= p || Covers(order[1..], p)
  {
    if Covers(order, p) {
      var q :| q in order && q <= p;
      assert q == order[0] || q in order[1..];
    }
    if order[0] <= p { assert order[0] in order; }
    if Covers(order[1..], p) {
      var q :| q in order[1..] && q <= p;
      assert q in order;
    }
  }

  lemma MovesCommute(fs: Tree, a: seq<Path>, b: seq<Path>)
    requires forall p :: p in a <==> p in b
    ensures MoveAll(fs, a) == MoveAll(fs, b)
  {
    MoveAllRemains(fs, a);
    MoveAllRemains(fs, b);
    assert forall p :: Covers(a, p) <==> Covers(b, p);
  }

  // -------------------------------------------------------- targets of a cleanup

  const RUNS := "runs"

  function RunTargets(root: Path, run: string, t: Target): set<Path> {
    var r := root + [RUNS, run];
    (if t == Reconstruction || t == Training then {r + ["training"]} else {})
    + (if t != Viewer then {r + ["exports"]} else {})
    + (if t != Exports then {r + ["timeline", "camera-timeline.json"]} else {})
  }

  function ViewerManifest(root: Path): Path { root + ["viewer", "scene.json"] }

  function Transactions(root: Path): Path { root + [".transactions"] }

  // The existing paths a cleanup wants to remove.
  function Targets(root: Path, fs: Tree, p: Project, t: Target): set<Path> {
    set x | x in fs.Keys
      && ((root <= x && exists s :: s in RemovedStages(t) && x in StateOf(p, s).artifacts)
          || (p.runId.Some? && x in RunTargets(root, p.runId.value, t))
          || x == ViewerManifest(root))
  }

  // Where the metadata already looks cleaned, nothing is left to remove: this is
  // what makes recovery's inference harmless when it fires too early.
  lemma LooksCleanedHasNoTargets(root: Path, fs: Tree, p: Project, t: Target)
    requires LooksCleaned(p, t)
    requires PendingIsEmpty(p) && ViewerImpliesExport(p, ViewerManifest(root) in fs)
    ensures Targets(root, fs, p, t) == {}
  {
    assert Export in ResetStages(t);
    forall s | s in RemovedStages(t) ensures StateOf(p, s).artifacts == [] {
      assert s in ResetStages(t);
    }
  }

  // ------------------------------------------------------------- the transaction

  datatype Phase = Moving | Moved | Committed

  datatype Manifest = Manifest(target: Target, phase: Phase, moves: seq<Path>)

  // A transaction directory: its manifest, once written, and the quarantined trees.
  datatype Transaction = Transaction(manifest: Option<Manifest>, slots: map<nat, Tree>)

  datatype Outcome = Refused | Completed | Aborted | Killed

  // Every state in which a cleanup of (fs, p) may be left.
  ghost predicate Recoverable(fs: Tree, p: Project, t: Target, moves: seq<Path>,
                              live: Tree, txn: Option<Transaction>, meta: Project) {
    match txn
    case None => Intact(fs, p, live, meta) || Gone(fs, p, t, moves, live, meta)
    case Some(x) =>
      if x.manifest.None? then x.slots == map[] && Intact(fs, p, live, meta)
      else
        && x.manifest.value.target == t
        && x.manifest.value.moves == moves
        && Quarantined(fs, moves, live, x.slots)
        && (|| (meta == p && x.manifest.value.phase != Committed)
            || (meta == Cleaned(p, t) && x.manifest.value.phase != Moving
                && forall i :: 0 <= i < |moves| ==> i in x.slots))
  }

  // Nothing has happened ...
  ghost predicate Intact(fs: Tree, p: Project, live: Tree, meta: Project) {
    live == fs && meta == p
  }

  // ... everything has happened ...
  ghost predicate Gone(fs: Tree, p: Project, t: Target, moves: seq<Path>, live: Tree, meta: Project) {
    live == Removed(fs, moves) && meta == Cleaned(p, t)
  }

  // ... or some of the moves have.
  ghost predicate Quarantined(fs: Tree, moves: seq<Path>, live: Tree, slots: map<nat, Tree>) {
    && live == Remaining(fs, moves, slots.Keys)
    && forall i :: i in slots ==> i < |moves| && slots[i] == Subtree(fs, moves[i])
  }

  lemma MoveOut(fs: Tree, moves: seq<Path>, live: Tree, slots: map<nat, Tree>, k: nat)
    requires Antichain(moves) && Quarantined(fs, moves, live, slots) && k < |moves| && k !in slots
    ensures Quarantined(fs, moves, Without(live, moves[k]), slots[k := Subtree(live, moves[k])])
    ensures moves[k] in live <==> moves[k] in fs
  {
    MoveOne(fs, moves, slots.Keys, k);
    assert slots[k := Subtree(live, moves[k])].Keys == slots.Keys + {k};
  }

  lemma MoveBack(fs: Tree, moves: seq<Path>, live: Tree, slots: map<nat, Tree>, k: nat)
    requires Antichain(moves) && Quarantined(fs, moves, live, slots) && k < |moves| && k in slots
    ensures Quarantined(fs, moves, live + slots[k], slots - {k})
    ensures moves[k] !in live
  {
    UndoOne(fs, moves, slots.Keys, k);
    assert (slots - {k}).Keys == slots.Keys - {k};
  }

  lemma Distinct(p: Project, t: Target)
    ensures Cleaned(p, t) != p
  {
    assert |Cleaned(p, t).warnings| > |p.warnings|;
  }

  lemma NothingMoved(fs: Tree, p: Project, t: Target, moves: seq<Path>)
    ensures Intact(fs, p, fs, p)
    ensures Recoverable(fs, p, t, moves, fs, None, p)
    ensures Recoverable(fs, p, t, moves, fs, Some(Transaction(None, map[])), p)
  {
  }

  lemma QuarantineIsRecoverable(fs: Tree, p: Project, t: Target, moves: seq<Path>, live: Tree, slots: map<nat, Tree>)
    requires Quarantined(fs, moves, live, slots)
    ensures Recoverable(fs, p, t, moves, live, Some(Transaction(Some(Manifest(t, Moving, moves)), slots)), p)
  {
  }

  lemma NothingQuarantined(fs: Tree, p: Project, t: Target, moves: seq<Path>)
    ensures Quarantined(fs, moves, fs, map[])
    ensures Recoverable(fs, p, t, moves, fs, Some(Transaction(Some(Manifest(t, Moving, moves)), map[])), p)
  {
    NoneOrAllGone(fs, moves, {});
    var slots: map<nat, Tree> := map[];
    assert slots.Keys == {};
  }

  lemma ReducedTargets(root: Path, fs: Tree, p: Project, t: Target, listing: seq<Path>)
    requires IsListing(listing, Targets(root, fs, p, t))
    ensures Antichain(Reduced(listing))
    ensures forall q :: q in Reduced(listing) ==> q in fs
  {
    ReducedIsMinimal(listing, Targets(root, fs, p, t));
  }

  lemma Consulted(fate: nat -> Fate, n: nat)
    ensures AllWorks(fate) ==> fate(n) == Works
  {
  }

  // Where a cleanup may end: the document tells which way it went.
  lemma Ended(fs: Tree, p: Project, t: Target, moves: seq<Path>,
              live: Tree, txn: Option<Transaction>, meta: Project)
    requires Recoverable(fs, p, t, moves, live, txn, meta)
    ensures Cleaned(p, t) != p
    ensures meta == p || meta == Cleaned(p, t)
    ensures txn == None ==> if meta == p then Intact(fs, p, live, meta) else Gone(fs, p, t, moves, live, meta)
  {
    Distinct(p, t);
  }

  ghost predicate AllWorks(fate: nat -> Fate) { forall n :: fate(n) == Works }

  // An isolated project's workspace, one transaction directory and its document.
  class Workspace {
    const root: Path
    var live: Tree
    var txn: Option<Transaction>
    var meta: Project

    constructor (root: Path, live: Tree, meta: Project)
      ensures this.root == root && this.live == live && this.meta == meta && txn == None
    {
      this.root, this.live, this.meta, txn := root, live, meta, None;
    }

    // The quarantine lies below the root: no ancestor of it can be renamed into it.
    predicate Movable(source: Path) { !(source <= Transactions(root)) }

    // `fate` decides the n-th effect; `listing` is the order in which the sorted set
    // of targets happens to be visited.
    method CleanupProject(target: Target, listing: seq<Path>, fate: nat -> Fate) returns (outcome: Outcome)
      requires txn == None
      requires IsListing(listing, Targets(root, live, meta, target))
      modifies this
      ensures outcome == Refused <==> old(meta).status == Active || !old(meta).isolated
      ensures outcome == Refused ==> live == old(live) && txn == None && meta == old(meta)
      ensures Recoverable(old(live), old(meta), target, Reduced(listing), live, txn, meta)
      ensures outcome == Completed ==> meta != old(meta)
      ensures outcome == Completed && txn == None ==> Gone(old(live), old(meta), target, Reduced(listing), live, meta)
      ensures outcome == Aborted && txn == None ==> Intact(old(live), old(meta), live, meta)
      ensures AllWorks(fate) && outcome != Refused && (forall p :: p in Reduced(listing) ==> Movable(p)) ==>
                outcome == Completed && txn == None
    {
      hide *;
      if meta.status == Active || !meta.isolated {
        NothingMoved(live, meta, target, Reduced(listing));
        return Refused;
      }
      ghost var fs, p := live, meta;
      var moves := ReducePaths(listing);
      ReducedTargets(root, fs, p, target, listing);
      NothingMoved(fs, p, target, moves);
      Consulted(fate, 0);
      Consulted(fate, 1);
      // mkdir of the transaction directory, then the first manifest
      if fate(0) != Works {
        return if fate(0) == Raises then Aborted else Killed;
      }
      txn := Some(Transaction(None, map[]));
      if fate(1) != Works {
        return if fate(1) == Raises then Aborted else Killed;
      }
      txn := Some(Transaction(Some(Manifest(target, Moving, moves)), map[]));
      var n;
      outcome, n := MoveAllOut(fs, p, target, moves, fate, 2);
      if outcome == Completed {
        outcome, n := CommitMetadata(fs, p, target, moves, fate, n);
      }
      if outcome == Aborted {
        outcome := RollBack(fs, p, target, moves, fate, n);
      } else if outcome == Completed {
        outcome := Finish(fs, p, target, moves, fate, n);
      }
      Ended(fs, p, target, moves, live, txn, meta);
    }

    method MoveAllOut(ghost fs: Tree, ghost p: Project, target: Target, moves: seq<Path>, fate: nat -> Fate, first: nat)
      returns (outcome: Outcome, next: nat)
      requires Antichain(moves) && (forall q :: q in moves ==> q in fs)
      requires meta == p && live == fs
      requires txn == Some(Transaction(Some(Manifest(target, Moving, moves)), map[]))
      modifies this`live, this`txn
      ensures Recoverable(fs, p, target, moves, live, txn, meta)
      ensures txn.Some? && txn.value.manifest == Some(Manifest(target, Moving, moves))
      ensures outcome == Completed || outcome == Aborted || outcome == Killed
      ensures outcome == Completed ==> forall i :: 0 <= i < |moves| ==> i in txn.value.slots
      ensures AllWorks(fate) && (forall q :: q in moves ==> Movable(q)) ==> outcome == Completed
    {
      hide *;
      next := first;
      var slots: map<nat, Tree> := map[];
      NothingQuarantined(fs, p, target, moves);
      var k := 0;
      while k < |moves|
        invariant 0 <= k <= |moves|
        invariant Recoverable(fs, p, target, moves, live, txn, meta)
        invariant txn == Some(Transaction(Some(Manifest(target, Moving, moves)), slots))
        invariant Quarantined(fs, moves, live, slots)
        invariant forall i :: i in slots <==> 0 <= i < k
      {
        MoveOut(fs, moves, live, slots, k);
        Consulted(fate, next);
        assert moves[k] in moves;
        if moves[k] in live {
          if fate(next) == Dies {
            return Killed, next;
          } else if fate(next) == Raises || !Movable(moves[k]) {
            return Aborted, next + 1;
          }
          slots := slots[k := Subtree(live, moves[k])];
          live := Without(live, moves[k]);
          txn := Some(Transaction(Some(Manifest(target, Moving, moves)), slots));
          QuarantineIsRecoverable(fs, p, target, moves, live, slots);
          next := next + 1;
        }
        k := k + 1;
      }
      outcome := Completed;
    }

    // The manifest of the second phase, then the document.
    method CommitMetadata(ghost fs: Tree, ghost p: Project, target: Target, moves: seq<Path>,
                          fate: nat -> Fate, first: nat)
      returns (outcome: Outcome, next: nat)
      requires meta == p
      requires txn.Some? && txn.value.manifest == Some(Manifest(target, Moving, moves))
      requires forall i :: 0 <= i < |moves| ==> i in txn.value.slots
      requires Recoverable(fs, p, target, moves, live, txn, meta)
      modifies this`meta, this`txn
      ensures Recoverable(fs, p, target, moves, live, txn, meta)
      ensures txn.Some? && txn.value.manifest.Some? && txn.value.manifest.value.phase != Committed
      ensures outcome == Completed || outcome == Aborted || outcome == Killed
      ensures outcome == Aborted ==> meta == p
      ensures outcome == Completed ==> meta == Cleaned(p, target)
      ensures AllWorks(fate) ==> outcome == Completed
    {
      if fate(first) != Works {
        return if fate(first) == Raises then Aborted else Killed, first + 1;
      }
      txn := Some(Transaction(Some(Manifest(target, Moved, moves)), txn.value.slots));
      if fate(first + 1) != Works {
        return if fate(first + 1) == Raises then Aborted else Killed, first + 2;
      }
      meta := Cleaned(meta, target);
      return Completed, first + 2;
    }

    // The document is authoritative now: a failure only leaves work for recovery.
    method Finish(ghost fs: Tree, ghost p: Project, target: Target, moves: seq<Path>, fate: nat -> Fate, first: nat)
      returns (outcome: Outcome)
      requires meta == Cleaned(p, target)
      requires txn.Some? && txn.value.manifest.Some?
      requires Recoverable(fs, p, target, moves, live, txn, meta)
      modifies this`txn
      ensures Recoverable(fs, p, target, moves, live, txn, meta)
      ensures outcome == Completed || outcome == Killed
      ensures AllWorks(fate) ==> outcome == Completed && txn == None
    {
      Distinct(p, target);
      NoneOrAllGone(fs, moves, txn.value.slots.Keys);
      if fate(first) != Works {
        return if fate(first) == Raises then Completed else Killed;
      }
      txn := Some(Transaction(Some(Manifest(target, Committed, moves)), txn.value.slots));
      if fate(first + 1) == Works {
        txn := None;
      }
      outcome := if fate(first + 1) == Dies then Killed else Completed;
    }

    // The moves made so far are undone in reverse order.
    method MoveAllBack(ghost fs: Tree, ghost p: Project, ghost target: Target, moves: seq<Path>,
                       fate: nat -> Fate, first: nat)
      returns (outcome: Outcome, next: nat)
      requires Antichain(moves) && meta == p
      requires txn.Some? && txn.value.manifest.Some? && txn.value.manifest.value.phase != Committed
      requires Recoverable(fs, p, target, moves, live, txn, meta)
      modifies this`live, this`txn
      ensures Recoverable(fs, p, target, moves, live, txn, meta)
      ensures outcome == Completed || outcome == Aborted || outcome == Killed
      ensures outcome == Completed ==> Intact(fs, p, live, meta)
      ensures AllWorks(fate) ==> outcome == Completed
    {
      var manifest := txn.value.manifest;
      var slots: map<nat, Tree> := txn.value.slots;
      next := first;
      var k := |moves|;
      while k > 0
        invariant 0 <= k <= |moves|
        invariant txn == Some(Transaction(manifest, slots))
        invariant Quarantined(fs, moves, live, slots)
        invariant forall i :: k <= i < |moves| ==> i !in slots
        invariant Recoverable(fs, p, target, moves, live, txn, meta)
      {
        k := k - 1;
        if k in slots {
          MoveBack(fs, moves, live, slots, k);
          if moves[k] !in live {
            if fate(next) != Works {
              outcome := if fate(next) == Raises then Aborted else Killed;
              return;
            }
            live := live + slots[k];
            slots := slots - {k};
            txn := Some(Transaction(manifest, slots));
          }
          next := next + 1;
        }
      }
      assert slots == map[] by {
        assert forall i :: i in slots ==> i < |moves|;
      }
      NoneOrAllGone(fs, moves, {});
      assert slots.Keys == {};
      outcome := Completed;
    }

    // The handler: the moves are undone, and the failure of the tree removal is ignored.
    method RollBack(ghost fs: Tree, ghost p: Project, ghost target: Target, moves: seq<Path>,
                    fate: nat -> Fate, first: nat)
      returns (outcome: Outcome)
      requires Antichain(moves) && meta == p
      requires txn.Some? && txn.value.manifest.Some? && txn.value.manifest.value.phase != Committed
      requires Recoverable(fs, p, target, moves, live, txn, meta)
      modifies this`live, this`txn
      ensures Recoverable(fs, p, target, moves, live, txn, meta)
      ensures outcome == Aborted || outcome == Killed
      ensures AllWorks(fate) ==> outcome == Aborted && txn == None && Intact(fs, p, live, meta)
    {
      var n;
      outcome, n := MoveAllBack(fs, p, target, moves, fate, first);
      if outcome == Completed {
        if fate(n) == Works {
          txn := None;
        }
        outcome := if fate(n) == Dies then Killed else Aborted;
      }
    }

    // One pass of recovery at start-up, itself exposed to failures and to death.
    method Recover(ghost fs: Tree, ghost p: Project, ghost target: Target, ghost listing: seq<Path>, fate: nat -> Fate)
      returns (outcome: Outcome)
      requires IsListing(listing, Targets(root, fs, p, target))
      requires PendingIsEmpty(p) && ViewerImpliesExport(p, ViewerManifest(root) in fs)
      requires Recoverable(fs, p, target, Reduced(listing), live, txn, meta)
      modifies this`live, this`txn
      ensures Recoverable(fs, p, target, Reduced(listing), live, txn, meta)
      ensures outcome == Refused <==> meta.status == Active
      ensures outcome == Refused ==> live == old(live) && txn == old(txn)
      ensures outcome == Completed && meta == p ==> Intact(fs, p, live, meta)
      ensures outcome == Completed && meta != p ==> Gone(fs, p, target, Reduced(listing), live, meta)
      ensures outcome == Completed ==> txn.None? || txn.value.manifest.None?
      ensures AllWorks(fate) && meta.status != Active ==> outcome == Completed
    {
      hide *;
      Consulted(fate, 0);
      if meta.status == Active {
        return Refused;
      }
      Settled(fs, p, target, Reduced(listing), live, txn, meta);
      if txn.None? || txn.value.manifest.None? {
        return Completed;
      }
      var manifest := txn.value.manifest.value;
      GuessIsRight(root, fs, p, target, listing, live, txn, meta);
      if manifest.phase == Committed || LooksCleaned(meta, manifest.target) {
        if fate(0) != Works {
          return if fate(0) == Raises then Aborted else Killed;
        }
        txn := None;
        ClosingKeepsIt(fs, p, target, Reduced(listing), live, meta);
        return Completed;
      }
      ReducedTargets(root, fs, p, target, listing);
      var n;
      outcome, n := MoveAllBack(fs, p, target, manifest.moves, fate, 0);
      Consulted(fate, n);
      if outcome == Completed {
        ClosingKeepsIt(fs, p, target, Reduced(listing), live, meta);
        if fate(n) == Works {
          txn := None;
        } else {
          outcome := if fate(n) == Raises then Aborted else Killed;
        }
      }
    }

    // A cleanup stopped anywhere, then any number of restarts each stopped anywhere:
    // as soon as one recovery comes to its end, either every path is back and the
    // document is the old one, or every path is gone and the document is cleaned.
    method CleanupAndRestarts(target: Target, listing: seq<Path>, fate: nat -> Fate, restarts: seq<nat -> Fate>)
      returns (settled: bool)
      requires txn == None && meta.status != Active
      requires IsListing(listing, Targets(root, live, meta, target))
      requires PendingIsEmpty(meta) && ViewerImpliesExport(meta, ViewerManifest(root) in live)
      modifies this
      ensures settled ==>
        || Intact(old(live), old(meta), live, meta)
        || Gone(old(live), old(meta), target, Reduced(listing), live, meta)
      ensures (exists r :: 0 <= r < |restarts| && AllWorks(restarts[r])) ==> settled
    {
      hide *;
      ghost var fs, p := live, meta;
      var _ := CleanupProject(target, listing, fate);
      settled := false;
      for r := 0 to |restarts|
        invariant Recoverable(fs, p, target, Reduced(listing), live, txn, meta)
        invariant settled ==> Intact(fs, p, live, meta) || Gone(fs, p, target, Reduced(listing), live, meta)
        invariant (exists q :: 0 <= q < r && AllWorks(restarts[q])) ==> settled
      {
        if !settled {
          Settled(fs, p, target, Reduced(listing), live, txn, meta);
          var outcome := Recover(fs, p, target, listing, restarts[r]);
          settled := outcome == Completed;
        }
      }
    }
  }

  lemma Settled(fs: Tree, p: Project, t: Target, moves: seq<Path>,
                live: Tree, txn: Option<Transaction>, meta: Project)
    requires Recoverable(fs, p, t, moves, live, txn, meta)
    ensures txn.None? || txn.value.manifest.None? ==>
      if meta == p then Intact(fs, p, live, meta) else Gone(fs, p, t, moves, live, meta)
    ensures txn.Some? && txn.value.manifest.Some? ==>
      txn.value.manifest.value.target == t && txn.value.manifest.value.moves == moves
    ensures p.status != Active ==> meta.status != Active
  {
    Distinct(p, t);
  }

  lemma ClosingKeepsIt(fs: Tree, p: Project, t: Target, moves: seq<Path>, live: Tree, meta: Project)
    requires Intact(fs, p, live, meta) || Gone(fs, p, t, moves, live, meta)
    ensures Recoverable(fs, p, t, moves, live, None, meta)
  {
  }

  // What the phase and the document say is what happened: where they claim a commit,
  // discarding the quarantine loses nothing that the document still refers to.
  lemma GuessIsRight(root: Path, fs: Tree, p: Project, t: Target, listing: seq<Path>,
                     live: Tree, txn: Option<Transaction>, meta: Project)
    requires IsListing(listing, Targets(root, fs, p, t))
    requires PendingIsEmpty(p) && ViewerImpliesExport(p, ViewerManifest(root) in fs)
    requires Recoverable(fs, p, t, Reduced(listing), live, txn, meta)
    requires txn.Some? && txn.value.manifest.Some?
    ensures txn.value.manifest.value.phase == Committed || LooksCleaned(meta, t) ==>
      if meta == p then Intact(fs, p, live, meta) else Gone(fs, p, t, Reduced(listing), live, meta)
    ensures !(txn.value.manifest.value.phase == Committed || LooksCleaned(meta, t)) ==> meta == p
  {
    NoneOrAllGone(fs, Reduced(listing), txn.value.slots.Keys);
    CleanedLooksCleaned(p, t);
    Distinct(p, t);
    if LooksCleaned(p, t) {
      HarmlessGuess(root, fs, p, t, listing);
    }
  }

  lemma NonemptyListing(listing: seq<Path>, paths: set<Path>)
    requires IsListing(listing, paths) && listing != []
    ensures paths != {}
  {
    assert listing[0] in paths;
  }

  lemma HarmlessGuess(root: Path, fs: Tree, p: Project, t: Target, listing: seq<Path>)
    requires LooksCleaned(p, t) && IsListing(listing, Targets(root, fs, p, t))
    requires PendingIsEmpty(p) && ViewerImpliesExport(p, ViewerManifest(root) in fs)
    ensures Reduced(listing) == []
  {
    LooksCleanedHasNoTargets(root, fs, p, t);
    if listing != [] {
      NonemptyListing(listing, Targets(root, fs, p, t));
    }
  }

  // The inference needs the viewer invariant: an old warning and a pending export
  // make an uncommitted cleanup of an existing viewer manifest look committed.
  lemma GuessNeedsViewerInvariant(root: Path)
    returns (fs: Tree, p: Project)
    ensures PendingIsEmpty(p) && !ViewerImpliesExport(p, ViewerManifest(root) in fs)
    ensures LooksCleaned(p, Viewer) && Targets(root, fs, p, Viewer) == {ViewerManifest(root)}
  {
    fs := map[ViewerManifest(root) := File("")];
    var blank := Project(true, true, None, Finished, None, map[], []);
    p := Cleaned(blank, Viewer);
    CleanedLooksCleaned(blank, Viewer);
  }
}

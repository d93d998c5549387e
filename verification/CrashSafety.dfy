// The cleanup transaction of Cleanup on the documents that Controller leaves behind:
// the premises of recovery's inference hold of every one of them, and the one-step
// cleanup of Controller is what the killed and recovered transaction amounts to.
module CrashSafety {
  import opened Wrappers
  import opened Projects
  import opened Cleanup
  import Stages = Controller

  lemma GoneViewer(root: Path, fs: Tree, p: Project, t: Target, listing: seq<Path>)
    requires IsListing(listing, Targets(root, fs, p, t))
    ensures ViewerManifest(root) !in Removed(fs, Reduced(listing))
  {
    ReducedIsMinimal(listing, Targets(root, fs, p, t));
    assert ViewerManifest(root) in fs ==> ViewerManifest(root) in Targets(root, fs, p, t);
  }

  lemma Premises(p: Project, viewer: bool, lost: bool)
    requires Stages.Good(p, viewer, lost)
    ensures PendingIsEmpty(p) && ViewerImpliesExport(p, viewer)
  {
  }

  // In whatever state any operations left the project (see Controller.Execute), a
  // cleanup killed at any point and restarts killed at any point: the first recovery
  // that completes leaves all or nothing, and again a state the controller can be in.
  method CleanUpAfter(c: Stages.Controller, w: Workspace, target: Target,
                      listing: seq<Path>, fate: nat -> Fate, restarts: seq<nat -> Fate>) returns (settled: bool)
    requires c.Valid() && c.durable.status != Active
    requires w.txn == None && w.meta == c.durable && c.viewer == (ViewerManifest(w.root) in w.live)
    requires IsListing(listing, Targets(w.root, w.live, w.meta, target))
    modifies w
    ensures (exists r :: 0 <= r < |restarts| && AllWorks(restarts[r])) ==> settled
    ensures settled ==>
      || Intact(old(w.live), c.durable, w.live, w.meta)
      || Gone(old(w.live), c.durable, target, Reduced(listing), w.live, w.meta)
    ensures settled ==> Stages.Good(w.meta, ViewerManifest(w.root) in w.live, c.lost)
    ensures settled && w.meta != c.durable ==>
      w.meta == Cleaned(c.durable, target) && ViewerManifest(w.root) !in w.live
  {
    hide *;
    ghost var fs, p := w.live, w.meta;
    ValidIsGood(c);
    Premises(p, c.viewer, c.lost);
    GoneViewer(w.root, fs, p, target, listing);
    Stages.CleanedKeeps(p, target, c.viewer, c.lost);
    settled := w.CleanupAndRestarts(target, listing, fate, restarts);
    WhichWay(fs, p, target, Reduced(listing), w.live, w.meta);
  }

  lemma ValidIsGood(c: Stages.Controller)
    requires c.Valid()
    ensures Stages.Good(c.durable, c.viewer, c.lost)
  {
  }

  lemma WhichWay(fs: Tree, p: Project, t: Target, moves: seq<Path>, live: Tree, meta: Project)
    ensures Intact(fs, p, live, meta) ==> live == fs && meta == p
    ensures Gone(fs, p, t, moves, live, meta) ==> live == Removed(fs, moves) && meta == Cleaned(p, t)
  {
  }
}

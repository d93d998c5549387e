// apps/desktop/project_store.py: create, soft delete, restore and purge of isolated
// projects, and the recovery of what a crash leaves of them.
module Lifecycle {
  import opened Wrappers

  type Id = string

  // Where a project document can be: live, in a trash directory, or in one that a
  // purge has renamed. Trash directories are told apart by a time stamp.
  datatype MetaPlace =
    | LiveMeta(id: Id)
    | TrashMeta(id: Id, stamp: string)
    | PurgingMeta(id: Id, stamp: string, nonce: string)

  datatype SpacePlace =
    | LiveSpace(id: Id)
    | TrashSpace(id: Id, stamp: string)
    | PurgingSpace(id: Id, stamp: string, nonce: string)

  datatype Document = Document(owner: Id, active: bool, content: string)

  // A workspace directory, with its ownership marker once that has been written.
  datatype Space = Space(marker: Option<Id>, content: string)

  type Metas = map<MetaPlace, Document>
  type Spaces = map<SpacePlace, Space>

  // An atomic rename.
  function Move<K, V>(m: map<K, V>, source: K, destination: K): map<K, V>
    requires source in m
  {
    (m - {source})[destination := m[source]]
  }

  // A rename that is undone, and one whose result is removed.
  lemma MoveBack<K, V>(m: map<K, V>, a: K, b: K)
    requires a in m && b !in m
    ensures Move(Move(m, a, b), b, a) == m
    ensures Move(m, a, b) - {b} == m - {a}
  {
  }

  lemma PutAndRemove<K, V>(m: map<K, V>, a: K, v: V)
    requires a !in m
    ensures m[a := v] - {a} == m && m - {a} == m
  {
  }

  lemma MovedIn<K, V>(m: map<K, V>, a: K, b: K)
    requires a in m
    ensures b in Move(m, a, b)
  {
  }

  // ---------------------------------------------------------------- invariants

  // A document is in at most one place, and so is a workspace.
  ghost predicate OnePlace(metas: Metas, spaces: Spaces) {
    && (forall p, q :: p in metas && q in metas && p.id == q.id ==> p == q)
    && (forall p, q :: p in spaces && q in spaces && p.id == q.id ==> p == q)
  }

  ghost predicate Marked(metas: Metas, spaces: Spaces) {
    && (forall p :: p in metas ==> metas[p].owner == p.id)
    && (forall p :: p in metas ==> forall q :: q in spaces && q.id == p.id ==> spaces[q].marker == Some(p.id))
  }

  // Where the workspace of a document may be.
  predicate Fits(p: MetaPlace, q: SpacePlace) {
    match p
    case LiveMeta(_) => q.LiveSpace?
    case TrashMeta(_, stamp) => q.LiveSpace? || q.stamp == stamp
    case PurgingMeta(_, stamp, _) => q.PurgingSpace? && q.stamp == stamp
  }

  ghost predicate Placed(metas: Metas, spaces: Spaces) {
    // live metadata implies a live workspace
    && (forall p :: p in metas && p.LiveMeta? ==> LiveSpace(p.id) in spaces)
    && (forall p, q :: p in metas && q in spaces && p.id == q.id ==> Fits(p, q))
    // only a creation that was cut short leaves a workspace without metadata
    && (forall q :: q in spaces ==> q.LiveSpace? || exists p :: p in metas && p.id == q.id)
  }

  ghost predicate Consistent(metas: Metas, spaces: Spaces, used: set<Id>) {
    && OnePlace(metas, spaces) && Marked(metas, spaces) && Placed(metas, spaces)
    && (forall p :: p in metas ==> p.id in used)
    && (forall q :: q in spaces ==> q.id in used)
  }

  // Everything about one project.
  ghost function Documents(metas: Metas, id: Id): set<Document> { set p | p in metas && p.id == id :: metas[p] }

  ghost function Trees(spaces: Spaces, id: Id): set<Space> { set q | q in spaces && q.id == id :: spaces[q] }

  ghost predicate Others(metas: Metas, metas': Metas, spaces: Spaces, spaces': Spaces, id: Id) {
    && (forall p: MetaPlace :: p.id != id ==>
        (p in metas <==> p in metas') && (p in metas ==> metas[p] == metas'[p]))
    && (forall q: SpacePlace :: q.id != id ==>
        (q in spaces <==> q in spaces') && (q in spaces ==> spaces[q] == spaces'[q]))
  }

  // -------------------------------------------------------------- single renames

  lemma MoveMeta(metas: Metas, spaces: Spaces, used: set<Id>, a: MetaPlace, b: MetaPlace)
    requires Consistent(metas, spaces, used) && a in metas && a.id == b.id
    requires b.LiveMeta? ==> LiveSpace(b.id) in spaces
    requires forall q :: q in spaces && q.id == b.id ==> Fits(b, q)
    ensures Consistent(Move(metas, a, b), spaces, used)
    ensures forall i :: Documents(Move(metas, a, b), i) == Documents(metas, i)
    ensures Others(metas, Move(metas, a, b), spaces, spaces, a.id)
  {
    forall q | q in spaces && !q.LiveSpace? ensures exists p :: p in Move(metas, a, b) && p.id == q.id {
      var p :| p in metas && p.id == q.id;
      assert (if p == a then b else p) in Move(metas, a, b);
    }
    forall i ensures Documents(Move(metas, a, b), i) == Documents(metas, i) {
      MoveKeepsDocuments(metas, a, b, i);
    }
  }

  lemma MoveKeepsDocuments(metas: Metas, a: MetaPlace, b: MetaPlace, i: Id)
    requires a in metas && a.id == b.id
    requires b in metas ==> b == a
    ensures Documents(Move(metas, a, b), i) == Documents(metas, i)
  {
    var m := Move(metas, a, b);
    assert m[b] == metas[a];
    forall p | p in metas && p.id == i ensures metas[p] in Documents(m, i) {
      var p' := if p == a then b else p;
      assert p' in m && m[p'] == metas[p];
    }
    forall p | p in m && p.id == i ensures m[p] in Documents(metas, i) {
      var p' := if p == b then a else p;
      assert p' in metas && m[p] == metas[p'];
    }
  }

  lemma MoveSpace(metas: Metas, spaces: Spaces, used: set<Id>, p: MetaPlace, a: SpacePlace, b: SpacePlace)
    requires Consistent(metas, spaces, used) && a in spaces && a.id == b.id
    requires p in metas && p.id == b.id && Fits(p, b) && !p.LiveMeta?
    ensures Consistent(metas, Move(spaces, a, b), used)
    ensures forall i :: Trees(Move(spaces, a, b), i) == Trees(spaces, i)
    ensures Others(metas, metas, spaces, Move(spaces, a, b), a.id)
  {
    var after := Move(spaces, a, b);
    assert after[b] == spaces[a];
    forall i ensures Trees(after, i) == Trees(spaces, i) {
      MoveKeepsTrees(spaces, a, b, i);
    }
  }

  lemma MoveKeepsTrees(spaces: Spaces, a: SpacePlace, b: SpacePlace, i: Id)
    requires a in spaces && a.id == b.id
    requires b in spaces ==> b == a
    ensures Trees(Move(spaces, a, b), i) == Trees(spaces, i)
  {
    var m := Move(spaces, a, b);
    assert m[b] == spaces[a];
    forall p | p in spaces && p.id == i ensures spaces[p] in Trees(m, i) {
      var p' := if p == a then b else p;
      assert p' in m && m[p'] == spaces[p];
    }
    forall p | p in m && p.id == i ensures m[p] in Trees(spaces, i) {
      var p' := if p == b then a else p;
      assert p' in spaces && m[p] == spaces[p'];
    }
  }

  lemma RemoveSpace(metas: Metas, spaces: Spaces, used: set<Id>, q: SpacePlace)
    requires Consistent(metas, spaces, used) && q in spaces
    requires forall p :: p in metas && p.id == q.id ==> !p.LiveMeta?
    ensures Consistent(metas, spaces - {q}, used)
    ensures forall i :: i != q.id ==> Trees(spaces - {q}, i) == Trees(spaces, i)
    ensures Others(metas, metas, spaces, spaces - {q}, q.id)
  {
    forall i | i != q.id ensures Trees(spaces - {q}, i) == Trees(spaces, i) {
      assert forall x :: x in spaces && x.id == i ==> x in spaces - {q} && (spaces - {q})[x] == spaces[x];
    }
  }

  lemma RemoveMeta(metas: Metas, spaces: Spaces, used: set<Id>, p: MetaPlace)
    requires Consistent(metas, spaces, used) && p in metas
    requires forall q :: q in spaces && q.id == p.id ==> q.LiveSpace?
    ensures Consistent(metas - {p}, spaces, used)
    ensures forall i :: i != p.id ==> Documents(metas - {p}, i) == Documents(metas, i)
    ensures Others(metas, metas - {p}, spaces, spaces, p.id)
  {
    forall q | q in spaces && !q.LiveSpace? ensures exists r :: r in metas - {p} && r.id == q.id {
      var r :| r in metas && r.id == q.id;
      assert r in metas - {p};
    }
    forall i | i != p.id ensures Documents(metas - {p}, i) == Documents(metas, i) {
      assert forall x :: x in metas && x.id == i ==> x in metas - {p} && (metas - {p})[x] == metas[x];
    }
  }

  lemma AddSpace(metas: Metas, spaces: Spaces, used: set<Id>, id: Id, space: Space)
    requires Consistent(metas, spaces, used)
    requires forall p :: p in metas ==> p.id != id
    requires forall q :: q in spaces && q.id == id ==> q == LiveSpace(id)
    ensures Consistent(metas, spaces[LiveSpace(id) := space], used + {id})
    ensures Others(metas, metas, spaces, spaces[LiveSpace(id) := space], id)
  {
    var s := spaces[LiveSpace(id) := space];
    assert forall q :: q in s && q != LiveSpace(id) ==> q in spaces && s[q] == spaces[q];
  }

  lemma AddMeta(metas: Metas, spaces: Spaces, used: set<Id>, id: Id, doc: Document)
    requires Consistent(metas, spaces, used)
    requires forall p :: p in metas ==> p.id != id
    requires LiveSpace(id) in spaces && spaces[LiveSpace(id)].marker == Some(id) && doc.owner == id
    ensures Consistent(metas[LiveMeta(id) := doc], spaces, used)
    ensures Others(metas, metas[LiveMeta(id) := doc], spaces, spaces, id)
  {
    var m := metas[LiveMeta(id) := doc];
    assert forall p :: p in m && p != LiveMeta(id) ==> p in metas && m[p] == metas[p];
    forall q | q in spaces && !q.LiveSpace? ensures exists p :: p in m && p.id == q.id {
      var p :| p in metas && p.id == q.id;
      assert p in m;
    }
  }

  // -------------------------------------------------- the invariant of the store

  // What the store never writes down: the identifiers ever used, the projects whose
  // workspace a purge has renamed for good, those of them whose purge stopped before it
  // renamed the metadata, and those whose creation left a workspace without metadata.
  datatype History = History(used: set<Id>, purged: set<Id>, half: set<Id>, orphans: set<Id>)

  ghost predicate Safe(metas: Metas, spaces: Spaces, h: History) {
    && Consistent(metas, spaces, h.used) && h.orphans <= h.used && h.purged <= h.used
    && PurgesKnown(metas, spaces, h.purged, h.half) && OrphansKnown(metas, spaces, h.orphans)
  }

  ghost predicate HasMeta(metas: Metas, id: Id) { exists p :: p in metas && p.id == id }

  ghost predicate HasTrash(metas: Metas, id: Id) { exists p :: p in metas && p.id == id && p.TrashMeta? }

  ghost predicate HasSpace(spaces: Spaces, id: Id) { exists q :: q in spaces && q.id == id }

  ghost predicate PurgesKnown(metas: Metas, spaces: Spaces, purged: set<Id>, half: set<Id>) {
    && (forall p :: p in metas && p.PurgingMeta? ==> p.id in purged)
    && (forall q :: q in spaces ==> (q.PurgingSpace? <==> q.id in purged))
    && (forall p :: p in metas && p.id !in purged ==> HasSpace(spaces, p.id))
    && (forall p :: p in metas && p.TrashMeta? ==> (p.id in half <==> p.id in purged))
    && (forall i :: i in half ==> i in purged && HasTrash(metas, i))
  }

  ghost predicate OrphansKnown(metas: Metas, spaces: Spaces, orphans: set<Id>) {
    && (forall q :: q in spaces && q.id !in orphans ==> HasMeta(metas, q.id))
    && (forall i :: i in orphans ==> LiveSpace(i) in spaces && !HasMeta(metas, i))
  }

  // No other project changed; and, unless something was removed, this one kept its
  // document and its tree, wherever they are now.
  ghost predicate Kept(metas: Metas, metas': Metas, spaces: Spaces, spaces': Spaces, id: Id, all: bool) {
    && Others(metas, metas', spaces, spaces', id)
    && (all ==> Documents(metas', id) == Documents(metas, id) && Trees(spaces', id) == Trees(spaces, id))
  }

  lemma KeptNothing(metas: Metas, spaces: Spaces, id: Id)
    ensures Kept(metas, metas, spaces, spaces, id, true)
  {
  }

  // What is known of purges and orphans, through the changes of one entry.
  lemma OnlyOne(metas: Metas, spaces: Spaces, used: set<Id>)
    requires Consistent(metas, spaces, used)
    ensures OnePlace(metas, spaces)
    ensures forall p, q :: p in metas && q in spaces && p.id == q.id ==> Fits(p, q)
  {
  }

  lemma MetaMovedKnown(metas: Metas, spaces: Spaces, purged: set<Id>, half: set<Id>, a: MetaPlace, b: MetaPlace)
    requires PurgesKnown(metas, spaces, purged, half)
    requires a in metas && a.id == b.id && a.id !in purged && !b.PurgingMeta?
    ensures PurgesKnown(Move(metas, a, b), spaces, purged, half)
  {
    var after := Move(metas, a, b);
    forall i | i in half ensures HasTrash(after, i) {
      var p :| p in metas && p.id == i && p.TrashMeta?;
      assert p in after;
    }
  }

  lemma MetaMovedOwned(metas: Metas, spaces: Spaces, orphans: set<Id>, a: MetaPlace, b: MetaPlace)
    requires OrphansKnown(metas, spaces, orphans) && a in metas && a.id == b.id
    ensures OrphansKnown(Move(metas, a, b), spaces, orphans)
  {
    var after := Move(metas, a, b);
    forall x | x in spaces && x.id !in orphans ensures HasMeta(after, x.id) {
      var p :| p in metas && p.id == x.id;
      assert (if p == a then b else p) in after;
    }
    forall i | i in orphans ensures !HasMeta(after, i) {
      assert forall p :: p in after && p.id == i ==> (if p == b then a else p) in metas;
    }
  }

  lemma SpaceStays(spaces: Spaces, a: SpacePlace, b: SpacePlace, i: Id)
    requires a in spaces && a.id == b.id && HasSpace(spaces, i)
    ensures HasSpace(Move(spaces, a, b), i)
  {
    var q :| q in spaces && q.id == i;
    assert (if q == a then b else q) in Move(spaces, a, b);
  }

  lemma SpaceMovedKnown(metas: Metas, spaces: Spaces, purged: set<Id>, half: set<Id>, a: SpacePlace, b: SpacePlace)
    requires PurgesKnown(metas, spaces, purged, half)
    requires a in spaces && a.id == b.id && a.id !in purged && !b.PurgingSpace?
    ensures PurgesKnown(metas, Move(spaces, a, b), purged, half)
  {
    forall p | p in metas && p.id !in purged ensures HasSpace(Move(spaces, a, b), p.id) {
      SpaceStays(spaces, a, b, p.id);
    }
  }

  lemma SpaceMovedOwned(metas: Metas, spaces: Spaces, orphans: set<Id>, a: SpacePlace, b: SpacePlace)
    requires OrphansKnown(metas, spaces, orphans) && a in spaces && a.id == b.id && HasMeta(metas, a.id)
    ensures OrphansKnown(metas, Move(spaces, a, b), orphans)
  {
  }

  lemma SpaceQuarantined(metas: Metas, spaces: Spaces, purged: set<Id>, half: set<Id>,
                         p: MetaPlace, a: SpacePlace, b: SpacePlace)
    requires PurgesKnown(metas, spaces, purged, half) && OnePlace(metas, spaces)
    requires p in metas && p.TrashMeta? && a in spaces && a.id == b.id == p.id && b.PurgingSpace?
    ensures PurgesKnown(metas, Move(spaces, a, b), purged + {a.id}, half + {a.id})
  {
    forall x | x in metas && x.id !in purged ensures HasSpace(Move(spaces, a, b), x.id) {
      SpaceStays(spaces, a, b, x.id);
    }
    assert HasTrash(metas, a.id);
  }

  lemma MetaQuarantined(metas: Metas, spaces: Spaces, purged: set<Id>, half: set<Id>, a: MetaPlace, b: MetaPlace)
    requires PurgesKnown(metas, spaces, purged, half) && OnePlace(metas, spaces)
    requires a in metas && a.id == b.id && a.TrashMeta? && b.PurgingMeta? && a.id in purged
    ensures PurgesKnown(Move(metas, a, b), spaces, purged, half - {a.id})
  {
    var after := Move(metas, a, b);
    assert forall x :: x in after && x.id == a.id ==> x == b;
    forall i | i in half - {a.id} ensures HasTrash(after, i) {
      var p :| p in metas && p.id == i && p.TrashMeta?;
      assert p in after;
    }
  }

  lemma SpaceGoneKnown(metas: Metas, spaces: Spaces, purged: set<Id>, half: set<Id>, q: SpacePlace)
    requires PurgesKnown(metas, spaces, purged, half) && q in spaces
    requires q.id in purged || !HasMeta(metas, q.id)
    ensures PurgesKnown(metas, spaces - {q}, purged, half)
  {
    forall x | x in metas && x.id !in purged ensures HasSpace(spaces - {q}, x.id) {
      var r :| r in spaces && r.id == x.id;
      assert r in spaces - {q};
    }
  }

  lemma MetaGoneKnown(metas: Metas, spaces: Spaces, purged: set<Id>, half: set<Id>, p: MetaPlace)
    requires PurgesKnown(metas, spaces, purged, half) && p in metas && !p.TrashMeta?
    ensures PurgesKnown(metas - {p}, spaces, purged, half)
  {
    forall i | i in half ensures HasTrash(metas - {p}, i) {
      var r :| r in metas && r.id == i && r.TrashMeta?;
      assert r in metas - {p};
    }
  }

  lemma MetaGoneOwned(metas: Metas, spaces: Spaces, orphans: set<Id>, p: MetaPlace)
    requires OrphansKnown(metas, spaces, orphans) && OnePlace(metas, spaces) && p in metas
    ensures !HasSpace(spaces, p.id) ==> OrphansKnown(metas - {p}, spaces, orphans)
    ensures LiveSpace(p.id) in spaces ==> OrphansKnown(metas - {p}, spaces, orphans + {p.id})
  {
    forall q | q in spaces && q.id !in orphans && q.id != p.id ensures HasMeta(metas - {p}, q.id) {
      var r :| r in metas && r.id == q.id;
      assert r in metas - {p};
    }
    assert !HasMeta(metas - {p}, p.id);
  }

  // A document moves while its workspace is at q, neither of them purged.
  lemma SafeMoveMeta(metas0: Metas, spaces0: Spaces, metas: Metas, spaces: Spaces, h: History,
                     a: MetaPlace, b: MetaPlace, q: SpacePlace)
    requires Safe(metas, spaces, h) && Kept(metas0, metas, spaces0, spaces, a.id, true)
    requires a in metas && q in spaces && a.id == b.id == q.id
    requires Fits(b, q) && !b.PurgingMeta? && !q.PurgingSpace?
    ensures Safe(Move(metas, a, b), spaces, h)
    ensures Kept(metas0, Move(metas, a, b), spaces0, spaces, a.id, true)
    ensures b in Move(metas, a, b)
  {
    hide Others, Documents, Trees, OrphansKnown, Marked, Placed;
    OnlyOne(metas, spaces, h.used);
    NotPurged(metas, spaces, h, q);
    assert b.LiveMeta? ==> LiveSpace(b.id) in spaces;
    MoveMeta(metas, spaces, h.used, a, b);
    MovedIn(metas, a, b);
    MetaMovedKnown(metas, spaces, h.purged, h.half, a, b);
    MetaMovedOwned(metas, spaces, h.orphans, a, b);
    OthersChain(metas0, metas, Move(metas, a, b), spaces0, spaces, spaces, a.id);
  }

  lemma NotPurged(metas: Metas, spaces: Spaces, h: History, q: SpacePlace)
    requires Safe(metas, spaces, h) && q in spaces
    ensures q.PurgingSpace? <==> q.id in h.purged
  {
  }

  // A workspace moves while its document is at p, neither of them purged.
  lemma SafeMoveSpace(metas0: Metas, spaces0: Spaces, metas: Metas, spaces: Spaces, h: History,
                      p: MetaPlace, a: SpacePlace, b: SpacePlace)
    requires Safe(metas, spaces, h) && Kept(metas0, metas, spaces0, spaces, a.id, true)
    requires a in spaces && p in metas && a.id == b.id == p.id
    requires Fits(p, b) && !p.LiveMeta? && !a.PurgingSpace? && !b.PurgingSpace?
    ensures Safe(metas, Move(spaces, a, b), h)
    ensures Kept(metas0, metas, spaces0, Move(spaces, a, b), a.id, true)
    ensures b in Move(spaces, a, b)
  {
    hide Others, Documents, Trees, OrphansKnown, PurgesKnown, Consistent;
    NotPurged(metas, spaces, h, a);
    MoveSpace(metas, spaces, h.used, p, a, b);
    MovedIn(spaces, a, b);
    SpaceMovedKnown(metas, spaces, h.purged, h.half, a, b);
    SpaceMovedOwned(metas, spaces, h.orphans, a, b);
    OthersChain(metas0, metas, metas, spaces0, spaces, Move(spaces, a, b), a.id);
  }

  // The first rename of a purge, its undoing, and the second rename.
  function Quarantined(h: History, id: Id): History { h.(purged := h.purged + {id}, half := h.half + {id}) }

  function Purged(h: History, id: Id): History { h.(purged := h.purged + {id}) }

  lemma SafeQuarantineSpace(metas: Metas, spaces: Spaces, h: History, p: MetaPlace, a: SpacePlace, b: SpacePlace)
    requires Safe(metas, spaces, h) && a in spaces && p in metas && a.id == b.id == p.id
    requires Fits(p, b) && p.TrashMeta? && a.TrashSpace? && b.PurgingSpace?
    ensures a.id !in h.half && b !in spaces && b in Move(spaces, a, b)
    ensures Safe(metas, Move(spaces, a, b), Quarantined(h, a.id))
    ensures Others(metas, metas, spaces, Move(spaces, a, b), a.id)
  {
    hide Others, Documents, Trees, OrphansKnown, Marked, Placed, Fits, HasSpace, HasTrash;
    MoveSpace(metas, spaces, h.used, p, a, b);
    MovedIn(spaces, a, b);
    SpaceQuarantined(metas, spaces, h.purged, h.half, p, a, b);
    SpaceMovedOwned(metas, spaces, h.orphans, a, b);
  }

  lemma SafeQuarantineMeta(metas: Metas, spaces: Spaces, h: History, a: MetaPlace, b: MetaPlace, q: SpacePlace)
    requires Safe(metas, spaces, h) && a in metas && q in spaces && a.id == b.id == q.id
    requires Fits(b, q) && a.TrashMeta? && b.PurgingMeta? && q.PurgingSpace?
    ensures b !in metas && b in Move(metas, a, b)
    ensures Safe(Move(metas, a, b), spaces, h.(half := h.half - {a.id}))
    ensures Others(metas, Move(metas, a, b), spaces, spaces, a.id)
  {
    hide Others, Documents, Trees, OrphansKnown, Marked, Placed, Fits, HasSpace, HasTrash;
    NotPurged(metas, spaces, h, q);
    MoveMeta(metas, spaces, h.used, a, b);
    MovedIn(metas, a, b);
    MetaQuarantined(metas, spaces, h.purged, h.half, a, b);
    MetaMovedOwned(metas, spaces, h.orphans, a, b);
  }

  lemma OthersChain(m0: Metas, m1: Metas, m2: Metas, s0: Spaces, s1: Spaces, s2: Spaces, id: Id)
    requires Others(m0, m1, s0, s1, id) && Others(m1, m2, s1, s2, id)
    ensures Others(m0, m2, s0, s2, id)
  {
  }

  // What a live document, and a marked workspace, are known by.
  lemma LiveFacts(metas: Metas, spaces: Spaces, h: History, id: Id)
    requires Safe(metas, spaces, h) && LiveMeta(id) in metas
    ensures LiveSpace(id) in spaces
    ensures forall q :: q in spaces && q.id == id ==> q == LiveSpace(id)
    ensures forall p :: p in metas && p.id == id ==> p == LiveMeta(id)
  {
  }

  lemma MarkedFacts(metas: Metas, spaces: Spaces, h: History, p: MetaPlace, q: SpacePlace)
    requires Safe(metas, spaces, h) && p in metas && q in spaces && p.id == q.id
    ensures metas[p].owner == p.id && spaces[q].marker == Some(p.id) && Fits(p, q)
    ensures forall x :: x in metas && x.id == p.id ==> x == p
    ensures forall x :: x in spaces && x.id == p.id ==> x == q
  {
  }

  lemma FreshFacts(metas: Metas, spaces: Spaces, h: History, id: Id)
    requires Safe(metas, spaces, h) && id !in h.used
    ensures forall p :: p in metas ==> p.id != id
    ensures forall q :: q in spaces ==> q.id != id
    ensures id !in h.orphans && id !in h.purged
    ensures Safe(metas, spaces, h.(used := h.used + {id}))
  {
  }

  lemma SafeDropSpace(metas: Metas, spaces: Spaces, h: History, q: SpacePlace)
    requires Safe(metas, spaces, h) && q in spaces && q.PurgingSpace?
    ensures Safe(metas, spaces - {q}, h)
    ensures Kept(metas, metas, spaces, spaces - {q}, q.id, false)
  {
    hide Others, Documents, Trees, PurgesKnown, Marked, HasSpace;
    NotPurged(metas, spaces, h, q);
    RemoveSpace(metas, spaces, h.used, q);
    SpaceGoneKnown(metas, spaces, h.purged, h.half, q);
  }

  lemma SafeDropMeta(metas: Metas, spaces: Spaces, h: History, p: MetaPlace)
    requires Safe(metas, spaces, h) && p in metas && p.PurgingMeta?
    requires forall q :: q in spaces && q.id == p.id ==> !q.PurgingSpace?
    ensures Safe(metas - {p}, spaces, h)
    ensures Kept(metas, metas - {p}, spaces, spaces, p.id, false)
  {
    hide Others, Documents, Trees, PurgesKnown, Marked;
    RemoveMeta(metas, spaces, h.used, p);
    MetaGoneKnown(metas, spaces, h.purged, h.half, p);
    MetaGoneOwned(metas, spaces, h.orphans, p);
  }

  // The steps of a creation, and the two of its rollback.
  function Unowned(h: History, id: Id): History { h.(orphans := h.orphans + {id}) }

  function Settling(h: History, id: Id): History { h.(orphans := h.orphans - {id}) }

  lemma SafeNewSpace(metas: Metas, spaces: Spaces, h: History, id: Id, space: Space)
    requires Safe(metas, spaces, h) && id in h.used && id !in h.purged
    requires forall p :: p in metas ==> p.id != id
    requires forall q :: q in spaces && q.id == id ==> q == LiveSpace(id)
    ensures Safe(metas, spaces[LiveSpace(id) := space], Unowned(h, id))
    ensures Others(metas, metas, spaces, spaces[LiveSpace(id) := space], id)
  {
    hide Others, Documents, Trees, PurgesKnown, OrphansKnown, Consistent;
    AddSpace(metas, spaces, h.used, id, space);
    assert h.used + {id} == h.used;
    NewSpaceKnown(metas, spaces, h, id, space);
  }

  lemma NewSpaceKnown(metas: Metas, spaces: Spaces, h: History, id: Id, space: Space)
    requires PurgesKnown(metas, spaces, h.purged, h.half) && OrphansKnown(metas, spaces, h.orphans)
    requires id !in h.purged && forall p :: p in metas ==> p.id != id
    requires forall q :: q in spaces && q.id == id ==> q == LiveSpace(id)
    ensures PurgesKnown(metas, spaces[LiveSpace(id) := space], h.purged, h.half)
    ensures OrphansKnown(metas, spaces[LiveSpace(id) := space], h.orphans + {id})
  {
    var s := spaces[LiveSpace(id) := space];
    forall p | p in metas && p.id !in h.purged ensures HasSpace(s, p.id) {
      var q :| q in spaces && q.id == p.id;
      assert q in s;
    }
  }

  lemma SafeNewMeta(metas: Metas, spaces: Spaces, h: History, id: Id, doc: Document)
    requires Safe(metas, spaces, h) && id in h.orphans
    requires LiveSpace(id) in spaces && spaces[LiveSpace(id)].marker == Some(id) && doc.owner == id
    ensures Safe(metas[LiveMeta(id) := doc], spaces, Settling(h, id))
    ensures Others(metas, metas[LiveMeta(id) := doc], spaces, spaces, id)
  {
    hide Others, Documents, Trees, PurgesKnown, Consistent;
    assert forall p :: p in metas ==> p.id != id;
    AddMeta(metas, spaces, h.used, id, doc);
    NewMetaKnown(metas, spaces, h, id, doc);
  }

  lemma NewMetaKnown(metas: Metas, spaces: Spaces, h: History, id: Id, doc: Document)
    requires PurgesKnown(metas, spaces, h.purged, h.half) && OrphansKnown(metas, spaces, h.orphans)
    requires LiveSpace(id) in spaces
    ensures PurgesKnown(metas[LiveMeta(id) := doc], spaces, h.purged, h.half)
    ensures OrphansKnown(metas[LiveMeta(id) := doc], spaces, h.orphans - {id})
  {
    var m := metas[LiveMeta(id) := doc];
    assert forall p :: p in metas ==> p in m;
    assert forall i :: HasTrash(metas, i) ==> HasTrash(m, i);
    assert HasSpace(spaces, id) && HasMeta(m, id) by {
      assert LiveMeta(id) in m && LiveSpace(id) in spaces;
    }
    assert forall i :: HasMeta(metas, i) ==> HasMeta(m, i);
    assert forall p :: p in m && p != LiveMeta(id) ==> p in metas;
  }

  lemma SafeUnlink(metas: Metas, spaces: Spaces, h: History, id: Id)
    requires Safe(metas, spaces, h) && LiveMeta(id) in metas
    ensures Safe(metas - {LiveMeta(id)}, spaces, Unowned(h, id))
    ensures Others(metas, metas - {LiveMeta(id)}, spaces, spaces, id)
  {
    LiveFacts(metas, spaces, h, id);
    hide Others, Documents, Trees, PurgesKnown, OrphansKnown, Marked, Placed;
    RemoveMeta(metas, spaces, h.used, LiveMeta(id));
    MetaGoneKnown(metas, spaces, h.purged, h.half, LiveMeta(id));
    MetaGoneOwned(metas, spaces, h.orphans, LiveMeta(id));
  }

  lemma SafeRemoveTree(metas: Metas, spaces: Spaces, h: History, id: Id)
    requires Safe(metas, spaces, h) && id in h.orphans
    ensures Safe(metas, spaces - {LiveSpace(id)}, Settling(h, id))
    ensures Others(metas, metas, spaces, spaces - {LiveSpace(id)}, id)
  {
    hide Others, Documents, Trees, PurgesKnown, Marked, Placed;
    assert forall p :: p in metas ==> p.id != id;
    RemoveSpace(metas, spaces, h.used, LiveSpace(id));
    SpaceGoneKnown(metas, spaces, h.purged, h.half, LiveSpace(id));
  }

  // ---------------------------------------------------------------- the operations

  datatype Ending = Done | Raised | Killed

  ghost predicate AllWork(fate: nat -> Fate) { forall n :: fate(n) == Works }

  function Broken(f: Fate): Ending { if f == Dies then Killed else Raised }

  // A creation: the directory, its marker, the document, the directories below it; and
  // on an exception the document is unlinked (4) and the directory removed (5).
  predicate LeavesOrphan(fate: nat -> Fate) {
    && fate(0) == Works
    && if fate(1) != Works then fate(1) == Dies || fate(5) != Works
       else if fate(2) != Works then fate(2) == Dies || fate(5) != Works
       else fate(3) == Raises && fate(4) == Works && fate(5) != Works
  }

  predicate LeavesProject(fate: nat -> Fate) {
    fate(0) == fate(1) == fate(2) == Works && (fate(3) != Raises || fate(4) != Works)
  }

  // A deletion: the trash directory, its manifest, the renames of document and workspace,
  // and the undoing of the first (4). Its document is stranded in the trash if the second
  // rename is not reached and the first not undone.
  predicate Stranded(fate: nat -> Fate) {
    fate(0) == fate(1) == fate(2) == Works && (fate(3) == Dies || (fate(3) == Raises && fate(4) != Works))
  }

  // A restore or a purge: the renames of workspace and document, the undoing of the first
  // (2), and for a purge the two removals. The first rename stands unless it failed or was
  // undone, and stands alone if the second was not reached.
  predicate Stands(fate: nat -> Fate) { fate(0) == Works && !(fate(1) == Raises && fate(2) == Works) }

  predicate Halfway(fate: nat -> Fate) {
    fate(0) == Works && (fate(1) == Dies || (fate(1) == Raises && fate(2) != Works))
  }

  ghost predicate Paired(metas: Metas, spaces: Spaces, id: Id, stamp: string) {
    TrashMeta(id, stamp) in metas && TrashSpace(id, stamp) in spaces
  }

  ghost predicate InTrash(metas: Metas, spaces: Spaces, id: Id) { exists stamp :: Paired(metas, spaces, id, stamp) }

  ghost predicate Deletable(metas: Metas, id: Id) { LiveMeta(id) in metas && !metas[LiveMeta(id)].active }

  function Made(h: History, id: Id, fate: nat -> Fate): History {
    h.(used := h.used + {id}, orphans := h.orphans + if LeavesOrphan(fate) then {id} else {})
  }

  function Destroyed(h: History, id: Id, fate: nat -> Fate): History {
    if Halfway(fate) then Quarantined(h, id) else Purged(h, id)
  }

  class Store {
    var metas: Metas
    var spaces: Spaces
    ghost var h: History

    constructor ()
      ensures Valid() && metas == map[] && spaces == map[] && h == History({}, {}, {}, {})
    {
      metas, spaces, h := map[], map[], History({}, {}, {}, {});
    }

    ghost predicate Valid()
      reads this
    {
      Safe(metas, spaces, h)
    }

    // create, for a new UUID.
    method Create(id: Id, content: string, fate: nat -> Fate) returns (ending: Ending)
      requires Valid() && id !in h.used
      modifies this
      ensures Valid() && Others(old(metas), metas, old(spaces), spaces, id)
      ensures h == Made(old(h), id, fate)
      ensures ending == Done <==> fate(0) == fate(1) == fate(2) == fate(3) == Works
      ensures metas ==
        if LeavesProject(fate) then old(metas)[LiveMeta(id) := Document(id, false, content)] else old(metas)
      ensures LeavesProject(fate) ==> spaces == old(spaces)[LiveSpace(id) := Space(Some(id), content)]
      ensures LeavesOrphan(fate) ==> exists marker :: spaces == old(spaces)[LiveSpace(id) := Space(marker, content)]
      ensures !LeavesProject(fate) && !LeavesOrphan(fate) ==> spaces == old(spaces)
    {
      hide Safe, Others, Kept, Documents, Trees;
      FreshFacts(metas, spaces, h, id);
      NoOthers(metas, spaces, id);
      h := h.(used := h.used + {id});
      if fate(0) != Works {
        return Broken(fate(0));
      }
      ghost var m0, s0, h0 := metas, spaces, h;
      SafeNewSpace(metas, spaces, h, id, Space(None, content));
      spaces, h := spaces[LiveSpace(id) := Space(None, content)], Unowned(h, id);
      ghost var m1, s1 := metas, spaces;
      var failure := Populate(id, content, fate);
      OthersChain(m0, m1, metas, s0, s1, spaces, id);
      assert Settling(Unowned(h0, id), id) == h0;
      ghost var marker := spaces[LiveSpace(id)].marker;
      assert spaces == s0[LiveSpace(id) := Space(marker, content)];
      PutAndRemove(s0, LiveSpace(id), Space(marker, content));
      PutAndRemove(m0, LiveMeta(id), Document(id, false, content));
      if failure == Works {
        return Done;
      } else if failure == Dies {
        return Killed;
      }
      ghost var m2, s2 := metas, spaces;
      ending := Rollback(id, fate);
      OthersChain(m0, m2, metas, s0, s2, spaces, id);
    }

    // The protected part of create: the marker, the document, the directories below.
    method Populate(id: Id, content: string, fate: nat -> Fate) returns (failure: Fate)
      requires Valid() && id in h.orphans && LiveSpace(id) in spaces && id !in h.purged
      requires spaces[LiveSpace(id)] == Space(None, content) && LiveMeta(id) !in metas
      modifies this
      ensures Valid() && Others(old(metas), metas, old(spaces), spaces, id)
      ensures failure == if fate(1) != Works then fate(1) else if fate(2) != Works then fate(2) else fate(3)
      ensures spaces == old(spaces)[LiveSpace(id) := Space(if fate(1) == Works then Some(id) else None, content)]
      ensures if fate(1) == Works && fate(2) == Works
        then metas == old(metas)[LiveMeta(id) := Document(id, false, content)] && h == Settling(old(h), id)
        else metas == old(metas) && h == old(h)
    {
      hide Safe, Others, Kept, Documents, Trees;
      NoOthers(metas, spaces, id);
      OrphanFacts(metas, spaces, h, id);
      if fate(1) != Works {
        return fate(1);
      }
      ghost var m0, s0 := metas, spaces;
      SafeNewSpace(metas, spaces, h, id, Space(Some(id), content));
      assert Unowned(h, id) == h;
      spaces := spaces[LiveSpace(id) := Space(Some(id), content)];
      if fate(2) != Works {
        return fate(2);
      }
      SafeNewMeta(metas, spaces, h, id, Document(id, false, content));
      OthersChain(m0, metas, metas[LiveMeta(id) := Document(id, false, content)], s0, spaces, spaces, id);
      metas, h := metas[LiveMeta(id) := Document(id, false, content)], Settling(h, id);
      failure := fate(3);
    }

    // The handler of create: the document is unlinked, then the directory removed.
    method Rollback(id: Id, fate: nat -> Fate) returns (ending: Ending)
      requires Valid() && (LiveMeta(id) in metas <==> id !in h.orphans)
      modifies this
      ensures Valid() && Others(old(metas), metas, old(spaces), spaces, id) && ending != Done
      ensures if LiveMeta(id) in old(metas) && fate(4) != Works
        then metas == old(metas) && spaces == old(spaces) && h == old(h)
        else && metas == old(metas) - {LiveMeta(id)}
             && spaces == (if fate(5) == Works then old(spaces) - {LiveSpace(id)} else old(spaces))
             && h == if fate(5) == Works then Settling(old(h), id) else Unowned(old(h), id)
    {
      hide Safe, Others;
      NoOthers(metas, spaces, id);
      ghost var m0, s0 := metas, spaces;
      if LiveMeta(id) in metas {
        if fate(4) != Works {
          return Broken(fate(4));
        }
        SafeUnlink(metas, spaces, h, id);
        h := Unowned(h, id);
      }
      assert Unowned(old(h), id) == h;
      assert LiveMeta(id) !in m0 ==> m0 - {LiveMeta(id)} == m0;
      metas := metas - {LiveMeta(id)};
      if fate(5) == Works {
        SafeRemoveTree(metas, spaces, h, id);
        OthersChain(m0, metas, metas, s0, spaces, spaces - {LiveSpace(id)}, id);
        assert Settling(h, id) == Settling(old(h), id);
        spaces, h := spaces - {LiveSpace(id)}, Settling(h, id);
      }
      ending := if fate(5) == Dies then Killed else Raised;
    }

    // delete: first the document, then the workspace.
    method Delete(id: Id, stamp: string, fate: nat -> Fate) returns (ending: Ending)
      requires Valid()
      modifies this`metas, this`spaces
      ensures Valid() && Kept(old(metas), metas, old(spaces), spaces, id, true)
      ensures ending == Done <==> Deletable(old(metas), id) && fate(0) == fate(1) == fate(2) == fate(3) == Works
      ensures ending == Done ==>
        && metas == Move(old(metas), LiveMeta(id), TrashMeta(id, stamp))
        && LiveSpace(id) in old(spaces) && spaces == Move(old(spaces), LiveSpace(id), TrashSpace(id, stamp))
      ensures ending != Done ==> spaces == old(spaces)
      ensures ending != Done ==>
        metas == if Deletable(old(metas), id) && Stranded(fate)
                 then Move(old(metas), LiveMeta(id), TrashMeta(id, stamp)) else old(metas)
    {
      hide Safe, Others, Kept, Move;
      KeptNothing(metas, spaces, id);
      if LiveMeta(id) !in metas || metas[LiveMeta(id)].active {
        return Raised;
      }
      LiveFacts(metas, spaces, h, id);
      if TrashMeta(id, stamp) in metas || TrashSpace(id, stamp) in spaces {
        return Raised;
      }
      // the trash directory, its manifest, the rename of the document
      if fate(0) != Works {
        return Broken(fate(0));
      } else if fate(1) != Works {
        return Broken(fate(1));
      } else if fate(2) != Works {
        return Broken(fate(2));
      }
      ghost var m0, s0 := metas, spaces;
      SafeMoveMeta(m0, s0, metas, spaces, h, LiveMeta(id), TrashMeta(id, stamp), LiveSpace(id));
      metas := Move(metas, LiveMeta(id), TrashMeta(id, stamp));
      if fate(3) == Works {
        SafeMoveSpace(m0, s0, metas, spaces, h, TrashMeta(id, stamp), LiveSpace(id), TrashSpace(id, stamp));
        spaces := Move(spaces, LiveSpace(id), TrashSpace(id, stamp));
        return Done;
      } else if fate(3) == Dies || fate(4) != Works {
        return if fate(3) == Dies || fate(4) == Dies then Killed else Raised;
      }
      SafeMoveMeta(m0, s0, metas, spaces, h, TrashMeta(id, stamp), LiveMeta(id), LiveSpace(id));
      MoveBack(m0, LiveMeta(id), TrashMeta(id, stamp));
      metas := Move(metas, TrashMeta(id, stamp), LiveMeta(id));
      ending := Raised;
    }

    // _trash_entry: the trashed document of the project, in a directory that may be
    // one of a purge.
    method TrashEntry(id: Id) returns (entry: Option<MetaPlace>)
      requires Valid()
      ensures entry.Some? ==> entry.value in metas && entry.value.id == id && !entry.value.LiveMeta?
      ensures entry.None? ==> forall p :: p in metas && p.id == id ==> p.LiveMeta?
    {
      var matches := set p | p in metas && p.id == id && !p.LiveMeta?;
      if matches == {} {
        assert forall p :: p in metas && p.id == id && !p.LiveMeta? ==> p in matches;
        return None;
      }
      var p: MetaPlace :| p in matches;
      entry := Some(p);
    }

    // restore: first the workspace, then the document.
    method Restore(id: Id, fate: nat -> Fate) returns (ending: Ending)
      requires Valid()
      modifies this`metas, this`spaces
      ensures Valid() && Kept(old(metas), metas, old(spaces), spaces, id, true)
      ensures ending == Done <==> InTrash(old(metas), old(spaces), id) && fate(0) == fate(1) == Works
      ensures ending != Done ==> metas == old(metas)
      ensures !InTrash(old(metas), old(spaces), id) || !Stands(fate) ==> spaces == old(spaces)
      ensures forall stamp :: Paired(old(metas), old(spaces), id, stamp) ==>
        && (ending == Done ==> metas == Move(old(metas), TrashMeta(id, stamp), LiveMeta(id)))
        && (Stands(fate) ==> spaces == Move(old(spaces), TrashSpace(id, stamp), LiveSpace(id)))
    {
      hide Safe, Others, Kept, Move, Documents, Trees;
      KeptNothing(metas, spaces, id);
      var entry := TrashEntry(id);
      if entry.None? || LiveMeta(id) in metas {
        AlreadyLive(metas, spaces, h, id);
        return Raised;
      }
      var p := entry.value;
      var q := TrashSpace(id, p.stamp);
      EntryFacts(metas, spaces, h, p);
      if q !in spaces {
        return Raised;
      }
      MarkedFacts(metas, spaces, h, p, q);
      if spaces[q].marker != Some(id) || LiveSpace(id) in spaces {
        return Raised;
      }
      assert Paired(metas, spaces, id, p.stamp);
      if fate(0) != Works {
        return Broken(fate(0));
      }
      ghost var m0, s0 := metas, spaces;
      SafeMoveSpace(m0, s0, metas, spaces, h, p, q, LiveSpace(id));
      spaces := Move(spaces, q, LiveSpace(id));
      if fate(1) == Works {
        SafeMoveMeta(m0, s0, metas, spaces, h, p, LiveMeta(id), LiveSpace(id));
        metas := Move(metas, p, LiveMeta(id));
        return Done;
      } else if fate(1) == Dies || fate(2) != Works {
        return if fate(1) == Dies || fate(2) == Dies then Killed else Raised;
      }
      SafeMoveSpace(m0, s0, metas, spaces, h, p, LiveSpace(id), q);
      MoveBack(s0, q, LiveSpace(id));
      spaces := Move(spaces, LiveSpace(id), q);
      ending := Raised;
    }

    // purge: both are renamed, the workspace first, and then removed.
    method Purge(id: Id, nonce: string, fate: nat -> Fate) returns (ending: Ending)
      requires Valid()
      modifies this
      ensures Valid() && Others(old(metas), metas, old(spaces), spaces, id)
      ensures ending == Done <==>
        InTrash(old(metas), old(spaces), id) && fate(0) == fate(1) == fate(3) == fate(4) == Works
      ensures h == if InTrash(old(metas), old(spaces), id) && Stands(fate) then Destroyed(old(h), id, fate) else old(h)
      ensures !InTrash(old(metas), old(spaces), id) || !Stands(fate) ==> metas == old(metas) && spaces == old(spaces)
      ensures forall stamp :: Paired(old(metas), old(spaces), id, stamp) && Halfway(fate) ==>
        && metas == old(metas)
        && spaces == Move(old(spaces), TrashSpace(id, stamp), PurgingSpace(id, stamp, nonce))
      ensures forall stamp :: Paired(old(metas), old(spaces), id, stamp) && fate(0) == fate(1) == Works ==>
        && spaces == (if fate(3) == Works then old(spaces) - {TrashSpace(id, stamp)}
                      else Move(old(spaces), TrashSpace(id, stamp), PurgingSpace(id, stamp, nonce)))
        && metas == (if fate(3) == fate(4) == Works then old(metas) - {TrashMeta(id, stamp)}
                     else Move(old(metas), TrashMeta(id, stamp), PurgingMeta(id, stamp, nonce)))
    {
      hide Safe, Others, Kept, Move, Documents, Trees;
      NoOthers(metas, spaces, id);
      var entry := TrashEntry(id);
      if entry.None? {
        AlreadyLive(metas, spaces, h, id);
        return Raised;
      }
      var p := entry.value;
      var q := TrashSpace(id, p.stamp);
      EntryFacts(metas, spaces, h, p);
      if q !in spaces {
        return Raised;
      }
      MarkedFacts(metas, spaces, h, p, q);
      if spaces[q].marker != Some(id) {
        return Raised;
      }
      assert Paired(metas, spaces, id, p.stamp);
      if fate(0) != Works {
        return Broken(fate(0));
      }
      ghost var m0, s0, h0 := metas, spaces, h;
      var hidden := PurgingSpace(id, p.stamp, nonce);
      SafeQuarantineSpace(metas, spaces, h, p, q, hidden);
      MoveBack(spaces, q, hidden);
      spaces, h := Move(spaces, q, hidden), Quarantined(h, id);
      if fate(1) != Works {
        if fate(1) == Dies || fate(2) != Works {
          return if fate(1) == Dies || fate(2) == Dies then Killed else Raised;
        }
        spaces, h := Move(spaces, hidden, q), h0;
        return Raised;
      }
      var hiddenMeta := PurgingMeta(id, p.stamp, nonce);
      SafeQuarantineMeta(metas, spaces, h, p, hiddenMeta, hidden);
      assert Quarantined(h0, id).(half := Quarantined(h0, id).half - {id}) == Purged(h0, id);
      OthersChain(m0, metas, Move(metas, p, hiddenMeta), s0, spaces, spaces, id);
      MoveBack(metas, p, hiddenMeta);
      metas, h := Move(metas, p, hiddenMeta), Purged(h0, id);
      ghost var m1, s1 := metas, spaces;
      ending := RemoveBoth(hiddenMeta, hidden, fate);
      OthersChain(m0, m1, metas, s0, s1, spaces, id);
    }

    // The second half of purge: the two renamed trees are removed.
    method RemoveBoth(p: MetaPlace, q: SpacePlace, fate: nat -> Fate) returns (ending: Ending)
      requires Valid() && p in metas && q in spaces && p.PurgingMeta? && q.PurgingSpace? && p.id == q.id
      modifies this`metas, this`spaces
      ensures Valid() && Others(old(metas), metas, old(spaces), spaces, p.id)
      ensures ending == Done <==> fate(3) == fate(4) == Works
      ensures spaces == if fate(3) == Works then old(spaces) - {q} else old(spaces)
      ensures metas == if fate(3) == fate(4) == Works then old(metas) - {p} else old(metas)
    {
      hide Safe, Others, Kept, Move, Documents, Trees;
      ghost var m0, s0 := metas, spaces;
      NoOthers(metas, spaces, p.id);
      if fate(3) != Works {
        return Broken(fate(3));
      }
      MarkedFacts(metas, spaces, h, p, q);
      SafeDropSpace(metas, spaces, h, q);
      spaces := spaces - {q};
      KeptAnything(m0, metas, s0, spaces, p.id);
      if fate(4) != Works {
        return Broken(fate(4));
      }
      SafeDropMeta(metas, spaces, h, p);
      KeptAnything(metas, metas - {p}, spaces, spaces, p.id);
      OthersChain(m0, metas, metas - {p}, s0, spaces, spaces, p.id);
      metas := metas - {p};
      ending := Done;
    }

    // recover_lifecycle_residuals, first loop: soft deletes that stopped halfway are finished.
    method FinishDeletes(fate: nat -> Fate) returns (ending: Ending, next: nat)
      requires Valid()
      modifies this`spaces
      ensures Valid() && Conserved(metas, metas, old(spaces), spaces, {})
      ensures forall q: SpacePlace :: q.PurgingSpace? ==> (q in spaces <==> q in old(spaces))
      ensures ending == Done ==> forall p :: p in metas && !p.LiveMeta? ==> LiveSpace(p.id) !in spaces
      ensures AllWork(fate) ==> ending == Done
    {
      hide Safe, Others, Kept, Documents, Trees, Conserved;
      next := 0;
      Unchanging(metas, spaces);
      var entries := set p | p in metas && !p.LiveMeta?;
      while entries != {}
        invariant Valid() && entries <= metas.Keys && (forall p :: p in entries ==> !p.LiveMeta?)
        invariant Conserved(metas, metas, old(spaces), spaces, {})
        invariant forall q: SpacePlace :: q.PurgingSpace? ==> (q in spaces <==> q in old(spaces))
        invariant forall p :: p in metas && !p.LiveMeta? && p !in entries ==> LiveSpace(p.id) !in spaces
        decreases entries
      {
        var p: MetaPlace :| p in entries;
        var q := TrashSpace(p.id, p.stamp);
        HalfDeleted(metas, spaces, h, p);
        if q !in spaces && LiveSpace(p.id) in spaces && spaces[LiveSpace(p.id)].marker == Some(metas[p].owner) {
          if fate(next) != Works {
            return Broken(fate(next)), next;
          }
          KeptNothing(metas, spaces, p.id);
          SafeMoveSpace(metas, spaces, metas, spaces, h, p, LiveSpace(p.id), q);
          KeptConserves(metas, metas, old(spaces), spaces, Move(spaces, LiveSpace(p.id), q), p.id, true, {});
          spaces := Move(spaces, LiveSpace(p.id), q);
          next := next + 1;
        }
        entries := entries - {p};
      }
      ending := Done;
    }

    // Second loop: quarantined workspaces of the libraries of known projects.
    method DropSpaces(fate: nat -> Fate, first: nat) returns (ending: Ending, next: nat)
      requires Valid()
      modifies this`spaces
      ensures Valid() && Conserved(metas, metas, old(spaces), spaces, h.purged)
      ensures forall q: SpacePlace :: !q.PurgingSpace? ==> (q in spaces <==> q in old(spaces))
      ensures ending == Done ==> forall q :: q in spaces ==> !q.PurgingSpace?
      ensures AllWork(fate) ==> ending == Done
    {
      hide Safe, Others, Kept, Documents, Trees, Conserved;
      next := first;
      Unchanging(metas, spaces);
      var quarantined := set q | q in spaces && q.PurgingSpace? && exists p :: p in metas && p.id == q.id;
      AllVisited(metas, spaces, h, quarantined);
      while quarantined != {}
        invariant Valid() && quarantined <= spaces.Keys && (forall q :: q in quarantined ==> q.PurgingSpace?)
        invariant Conserved(metas, metas, old(spaces), spaces, h.purged)
        invariant forall q: SpacePlace :: !q.PurgingSpace? ==> (q in spaces <==> q in old(spaces))
        invariant forall q :: q in spaces && q.PurgingSpace? ==> q in quarantined
        decreases quarantined
      {
        var q: SpacePlace :| q in quarantined;
        Quarantine(metas, spaces, h, q);
        if spaces[q].marker == Some(q.id) {
          if fate(next) != Works {
            return Broken(fate(next)), next;
          }
          SafeDropSpace(metas, spaces, h, q);
          KeptConserves(metas, metas, old(spaces), spaces, spaces - {q}, q.id, false, h.purged);
          spaces := spaces - {q};
          next := next + 1;
        }
        quarantined := quarantined - {q};
      }
      ending := Done;
    }

    // Last loop: quarantined trash directories.
    method DropMetas(fate: nat -> Fate, first: nat) returns (ending: Ending)
      requires Valid() && forall q :: q in spaces ==> !q.PurgingSpace?
      modifies this`metas
      ensures Valid() && Conserved(old(metas), metas, spaces, spaces, h.purged)
      ensures forall p: MetaPlace :: !p.PurgingMeta? ==> (p in metas <==> p in old(metas))
      ensures forall p :: p in metas ==> p in old(metas)
      ensures ending == Done ==> forall p :: p in metas ==> !p.PurgingMeta?
      ensures AllWork(fate) ==> ending == Done
    {
      hide Safe, Others, Kept, Documents, Trees, Conserved;
      var next := first;
      Unchanging(metas, spaces);
      var purging := set p | p in metas && p.PurgingMeta?;
      while purging != {}
        invariant Valid() && purging <= metas.Keys && (forall p :: p in purging ==> p.PurgingMeta?)
        invariant Conserved(old(metas), metas, spaces, spaces, h.purged)
        invariant forall p: MetaPlace :: !p.PurgingMeta? ==> (p in metas <==> p in old(metas))
        invariant forall p :: p in metas ==> p in old(metas)
        invariant forall p :: p in metas && p.PurgingMeta? ==> p in purging
        decreases purging
      {
        var p: MetaPlace :| p in purging;
        if fate(next) != Works {
          return Broken(fate(next));
        }
        PurgedMeta(metas, spaces, h, p);
        SafeDropMeta(metas, spaces, h, p);
        KeptConservesMetas(old(metas), metas, metas - {p}, spaces, p.id, h.purged);
        metas := metas - {p};
        next := next + 1;
        purging := purging - {p};
      }
      ending := Done;
    }

    // recover_lifecycle_residuals, as far as trash and purges are concerned.
    method Recover(fate: nat -> Fate) returns (ending: Ending)
      requires Valid()
      modifies this`metas, this`spaces
      ensures Valid() && Conserved(old(metas), metas, old(spaces), spaces, h.purged)
      ensures forall p: MetaPlace :: !p.PurgingMeta? ==> (p in metas <==> p in old(metas))
      ensures ending == Done ==> Settled(metas, spaces)
      ensures AllWork(fate) ==> ending == Done
    {
      hide Safe, Others, Kept, Documents, Trees, Conserved;
      var next;
      ghost var s0 := spaces;
      ending, next := FinishDeletes(fate);
      ConservedWiden(metas, metas, s0, spaces, h.purged);
      if ending == Done {
        ghost var s1 := spaces;
        ending, next := DropSpaces(fate, next);
        ConservedChain(metas, metas, metas, s0, s1, spaces, h.purged);
        if ending == Done {
          ghost var m1 := metas;
          ending := DropMetas(fate, next);
          ConservedChain(m1, m1, metas, s0, spaces, spaces, h.purged);
          if ending == Done {
            NowSettled(metas, spaces, h);
          }
        }
      }
    }

    method Perform(op: Operation)
      requires Valid() && (op.Make? ==> op.id !in h.used)
      modifies this
      ensures Valid() && h == Recorded(State(old(metas), old(spaces), old(h)), op)
      ensures KeptAll(old(metas), metas, old(spaces), spaces, old(h.used), h.purged)
    {
      hide Safe, Others, Kept, Documents, Trees, Conserved, KeptAll, LeavesOrphan, LeavesProject;
      ghost var m0, s0, h0 := metas, spaces, h;
      KeptAllNothing(m0, s0);
      match op
      case Make(id, content, fate) =>
        var _ := Create(id, content, fate);
        OthersKeepAll(m0, metas, s0, spaces, h0.used, h.purged, id);
      case Discard(id, stamp, fate) =>
        var _ := Delete(id, stamp, fate);
        KeptKeepsAll(m0, metas, s0, spaces, h0.used, h.purged, id);
      case Bring(id, fate) =>
        var _ := Restore(id, fate);
        KeptKeepsAll(m0, metas, s0, spaces, h0.used, h.purged, id);
      case Destroy(id, nonce, fate) =>
        var _ := Purge(id, nonce, fate);
        if InTrash(m0, s0, id) && Stands(fate) {
          OthersKeepAll(m0, metas, s0, spaces, h0.used, h.purged, id);
        }
      case Repair(fate) =>
        var _ := Recover(fate);
        ConservedKeepsAll(m0, metas, s0, spaces, h0.used, h.purged);
    }

    // Any operations, each failing or dying anywhere, and recoveries among them. `run` is
    // the state before each of them and after the last.
    method Execute(ops: seq<Operation>) returns (ghost run: seq<State>)
      requires Valid() && NewNames(ops, h.used)
      modifies this
      ensures Valid() && IsRun(ops, run) && |run| == |ops| + 1
      ensures run[0] == State(old(metas), old(spaces), old(h)) && run[|ops|] == State(metas, spaces, h)
      ensures forall i :: i in h.half <==> i in old(h.half) || HalvedIn(ops, run, i)
      ensures forall i :: i in h.purged <==> i in old(h.purged) || PurgedIn(ops, run, i)
      ensures forall i :: i in h.orphans <==> i in old(h.orphans) || OrphanedIn(ops, i)
      ensures forall i :: i in old(h.used) && i !in h.purged ==>
        Documents(metas, i) == Documents(old(metas), i) && Trees(spaces, i) == Trees(old(spaces), i)
    {
      hide *;
      ghost var m0, s0, h0 := metas, spaces, h;
      run := [State(metas, spaces, h)];
      RunStarts(ops, metas, spaces, h);
      KeptAllNothing(metas, spaces);
      for k := 0 to |ops|
        invariant Valid() && Pending(ops, k, h.used)
        invariant IsRun(ops, run) && |run| == k + 1
        invariant run[0] == State(m0, s0, h0) && run[k] == State(metas, spaces, h)
        invariant h0.used <= h.used && KeptAll(m0, metas, s0, spaces, h0.used, h.purged)
      {
        PendingNext(ops, k, h.used);
        ghost var m1, s1, h1 := metas, spaces, h;
        Perform(ops[k]);
        RunGoesOn(ops, run, State(metas, spaces, h));
        PendingStep(ops, k, State(m1, s1, h1));
        KeptAllChain(m0, m1, metas, s0, s1, spaces, h0.used, h1.used, h1.purged, h.purged);
        run := run + [State(metas, spaces, h)];
      }
      RunCauses(ops, run);
      KeptAllMeans(m0, metas, s0, spaces, h0.used, h.purged);
    }

    // A project in the trash, a purge of it that fails or dies anywhere, and a recovery.
    method PurgeAndRecover(id: Id, nonce: string, fate: nat -> Fate, again: nat -> Fate)
      returns (purged: Ending, recovered: Ending)
      requires Valid() && InTrash(metas, spaces, id)
      modifies this
      ensures Valid() && (AllWork(again) ==> recovered == Done) && (recovered == Done ==> Settled(metas, spaces))
      ensures recovered == Done ==> (Leftover(metas, spaces, id) <==> Halfway(fate))
      ensures recovered == Done ==> (Absent(metas, spaces, id) <==> fate(0) == fate(1) == Works)
      ensures recovered == Done ==> (Trashed(metas, spaces, id) <==> !Stands(fate))
    {
      hide Safe, Others, Kept, Move, Conserved, Settled, Documents, Trees, Leftover, Absent, Trashed, Alive, Orphan;
      ghost var stamp :| Paired(metas, spaces, id, stamp);
      TrashFacts(metas, spaces, h, id, stamp);
      purged := Purge(id, nonce, fate);
      recovered := Recover(again);
      if recovered == Done {
        IsLeftover(metas, spaces, h, id);
        if !Stands(fate) {
          StillTrashed(metas, spaces, h, id, stamp);
        } else if Halfway(fate) {
          LeftoverOnly(metas, spaces, id);
        } else {
          PurgedGone(metas, spaces, h, id);
        }
      }
    }

    // A new project, its creation failing or dying anywhere, and a recovery.
    method CreateAndRecover(id: Id, content: string, fate: nat -> Fate, again: nat -> Fate)
      returns (created: Ending, recovered: Ending)
      requires Valid() && id !in h.used
      modifies this
      ensures Valid() && (AllWork(again) ==> recovered == Done) && (recovered == Done ==> Settled(metas, spaces))
      ensures recovered == Done ==> (Orphan(metas, spaces, id) <==> LeavesOrphan(fate))
      ensures recovered == Done ==> (Alive(metas, spaces, id) <==> LeavesProject(fate))
      ensures recovered == Done ==> (Absent(metas, spaces, id) <==> !LeavesOrphan(fate) && !LeavesProject(fate))
    {
      hide Safe, Others, Kept, Move, Conserved, Settled, Documents, Trees, Leftover, Absent, Trashed, Alive, Orphan;
      FreshFacts(metas, spaces, h, id);
      created := Create(id, content, fate);
      recovered := Recover(again);
      if recovered == Done {
        IsOrphan(metas, spaces, h, id);
        if LeavesProject(fate) {
          StillAlive(metas, spaces, h, id);
        } else if LeavesOrphan(fate) {
          OrphanOnly(metas, spaces, id);
        } else {
          NothingNew(metas, spaces, id);
          NeverBorn(metas, spaces, h, id);
        }
      }
    }
  }

  // From an empty store, any operations and a completed recovery: what each project is.
  method Lifetime(ops: seq<Operation>, again: nat -> Fate)
    returns (store: Store, recovered: Ending, ghost run: seq<State>)
    requires NewNames(ops, {})
    ensures fresh(store) && store.Valid() && IsRun(ops, run) && |run| == |ops| + 1
    ensures run[0] == State(map[], map[], History({}, {}, {}, {}))
    ensures AllWork(again) ==> recovered == Done
    ensures recovered == Done ==> forall i ::
      && (Leftover(store.metas, store.spaces, i) <==> HalvedIn(ops, run, i))
      && (Orphan(store.metas, store.spaces, i) <==> OrphanedIn(ops, i))
      && (HalvedIn(ops, run, i) || OrphanedIn(ops, i) || Alive(store.metas, store.spaces, i)
          || Trashed(store.metas, store.spaces, i) || Absent(store.metas, store.spaces, i))
  {
    hide Safe, Settled, Leftover, Orphan, Alive, Trashed, Absent, IsRun, HalvedIn, OrphanedIn, NewNames;
    store := new Store();
    run := store.Execute(ops);
    recovered := store.Recover(again);
    if recovered == Done {
      forall i {
        FiveStates(store.metas, store.spaces, store.h, i);
      }
    }
  }

  // Both bad states are reached: a creation killed after the directory, and a purge killed
  // after its first rename.
  method BothHappen() returns (store: Store)
    ensures fresh(store) && store.Valid() && Settled(store.metas, store.spaces)
    ensures Orphan(store.metas, store.spaces, "a") && Leftover(store.metas, store.spaces, "b")
  {
    hide Safe, Others, Kept, Move, Conserved, Settled, Documents, Trees, Leftover, Absent, Trashed, Alive, Orphan;
    var fine, killed := (n: nat) => Works, (n: nat) => if n == 1 then Dies else Works;
    store := new Store();
    var _ := store.Create("a", "", killed);
    var _ := store.Create("b", "", fine);
    ghost var m, s := store.metas, store.spaces;
    var _ := store.Delete("b", "now", fine);
    MovedIn(m, LiveMeta("b"), TrashMeta("b", "now"));
    MovedIn(s, LiveSpace("b"), TrashSpace("b", "now"));
    assert Paired(store.metas, store.spaces, "b", "now");
    var _ := store.Purge("b", "nonce", killed);
    assert "a" in store.h.orphans && "b" in store.h.half;
    var _ := store.Recover(fine);
    IsOrphan(store.metas, store.spaces, store.h, "a");
    IsLeftover(store.metas, store.spaces, store.h, "b");
  }

  datatype State = State(metas: Metas, spaces: Spaces, h: History)

  datatype Operation =
    | Make(id: Id, content: string, fate: nat -> Fate)
    | Discard(id: Id, stamp: string, fate: nat -> Fate)
    | Bring(id: Id, fate: nat -> Fate)
    | Destroy(id: Id, nonce: string, fate: nat -> Fate)
    | Repair(fate: nat -> Fate)

  // ------------------------------------------------------------------ over a whole run

  // What the ghost state records of one operation.
  ghost function Recorded(s: State, op: Operation): History {
    match op
    case Make(id, _, fate) => Made(s.h, id, fate)
    case Destroy(id, _, fate) =>
      if InTrash(s.metas, s.spaces, id) && Stands(fate) then Destroyed(s.h, id, fate) else s.h
    case _ => s.h
  }

  // New identifiers are UUIDs.
  ghost predicate NewNames(ops: seq<Operation>, used: set<Id>) {
    && (forall i :: 0 <= i < |ops| && ops[i].Make? ==> ops[i].id !in used)
    && (forall i, j :: 0 <= i < j < |ops| && ops[i].Make? && ops[j].Make? ==> ops[i].id != ops[j].id)
  }

  ghost predicate Pending(ops: seq<Operation>, k: nat, used: set<Id>) {
    && (forall i :: k <= i < |ops| && ops[i].Make? ==> ops[i].id !in used)
    && (forall i, j :: 0 <= i < j < |ops| && ops[i].Make? && ops[j].Make? ==> ops[i].id != ops[j].id)
  }

  lemma PendingNext(ops: seq<Operation>, k: nat, used: set<Id>)
    requires Pending(ops, k, used) && k < |ops|
    ensures ops[k].Make? ==> ops[k].id !in used
  {
  }

  lemma PendingStep(ops: seq<Operation>, k: nat, s: State)
    requires Pending(ops, k, s.h.used) && k < |ops|
    ensures Pending(ops, k + 1, Recorded(s, ops[k]).used)
    ensures s.h.used <= Recorded(s, ops[k]).used && s.h.purged <= Recorded(s, ops[k]).purged
  {
  }

  // Each state's history follows from the state before and the operation between.
  ghost predicate IsRun(ops: seq<Operation>, run: seq<State>) {
    && 0 < |run| <= |ops| + 1
    && forall k :: 0 < k < |run| ==> run[k].h == Recorded(run[k - 1], ops[k - 1])
  }

  lemma RunStarts(ops: seq<Operation>, metas: Metas, spaces: Spaces, h: History)
    requires NewNames(ops, h.used)
    ensures IsRun(ops, [State(metas, spaces, h)]) && Pending(ops, 0, h.used)
  {
  }

  lemma RunGoesOn(ops: seq<Operation>, run: seq<State>, s: State)
    requires IsRun(ops, run) && |run| <= |ops|
    requires s.h == Recorded(run[|run| - 1], ops[|run| - 1])
    ensures IsRun(ops, run + [s])
  {
  }

  // A purge found the project in the trash, and its first rename stood: alone, or not.
  ghost predicate HalvedBy(op: Operation, s: State, i: Id) {
    op.Destroy? && op.id == i && InTrash(s.metas, s.spaces, i) && Halfway(op.fate)
  }

  ghost predicate PurgedBy(op: Operation, s: State, i: Id) {
    op.Destroy? && op.id == i && InTrash(s.metas, s.spaces, i) && Stands(op.fate)
  }

  ghost predicate OrphanedBy(op: Operation, i: Id) { op.Make? && op.id == i && LeavesOrphan(op.fate) }

  ghost predicate HalvedIn(ops: seq<Operation>, run: seq<State>, i: Id) {
    exists k :: 0 <= k < |ops| < |run| && HalvedBy(ops[k], run[k], i)
  }

  ghost predicate PurgedIn(ops: seq<Operation>, run: seq<State>, i: Id) {
    exists k :: 0 <= k < |ops| < |run| && PurgedBy(ops[k], run[k], i)
  }

  ghost predicate OrphanedIn(ops: seq<Operation>, i: Id) {
    exists k :: 0 <= k < |ops| && OrphanedBy(ops[k], i)
  }

  lemma RecordedBy(s: State, op: Operation, i: Id)
    ensures i in Recorded(s, op).half <==> i in s.h.half || HalvedBy(op, s, i)
    ensures i in Recorded(s, op).purged <==> i in s.h.purged || PurgedBy(op, s, i)
    ensures i in Recorded(s, op).orphans <==> i in s.h.orphans || OrphanedBy(op, i)
  {
  }

  lemma {:induction false} RunRecords(ops: seq<Operation>, run: seq<State>, n: nat, i: Id)
    requires IsRun(ops, run) && |run| == |ops| + 1 && n <= |ops|
    ensures i in run[n].h.half <==> i in run[0].h.half || exists k :: 0 <= k < n && HalvedBy(ops[k], run[k], i)
    ensures i in run[n].h.purged <==> i in run[0].h.purged || exists k :: 0 <= k < n && PurgedBy(ops[k], run[k], i)
    ensures i in run[n].h.orphans <==> i in run[0].h.orphans || exists k :: 0 <= k < n && OrphanedBy(ops[k], i)
  {
    hide Recorded, HalvedBy, PurgedBy, OrphanedBy;
    if n > 0 {
      RunRecords(ops, run, n - 1, i);
      RecordedBy(run[n - 1], ops[n - 1], i);
    }
  }

  // Over a whole run: the exact causes of the two bad states.
  lemma RunCauses(ops: seq<Operation>, run: seq<State>)
    requires IsRun(ops, run) && |run| == |ops| + 1
    ensures forall i :: i in run[|ops|].h.half <==> i in run[0].h.half || HalvedIn(ops, run, i)
    ensures forall i :: i in run[|ops|].h.purged <==> i in run[0].h.purged || PurgedIn(ops, run, i)
    ensures forall i :: i in run[|ops|].h.orphans <==> i in run[0].h.orphans || OrphanedIn(ops, i)
  {
    hide Recorded, HalvedBy, PurgedBy, OrphanedBy;
    forall i {
      RunRecords(ops, run, |ops|, i);
    }
  }

  // A restore that finds nothing to restore.
  lemma AlreadyLive(metas: Metas, spaces: Spaces, h: History, id: Id)
    requires Safe(metas, spaces, h)
    requires LiveMeta(id) in metas || forall p :: p in metas && p.id == id ==> p.LiveMeta?
    ensures !InTrash(metas, spaces, id)
  {
  }

  lemma EntryFacts(metas: Metas, spaces: Spaces, h: History, p: MetaPlace)
    requires Safe(metas, spaces, h) && p in metas && !p.LiveMeta?
    ensures forall stamp :: Paired(metas, spaces, p.id, stamp) ==> stamp == p.stamp
    ensures TrashSpace(p.id, p.stamp) in spaces ==> p.TrashMeta? && LiveSpace(p.id) !in spaces
  {
  }

  lemma OrphanFacts(metas: Metas, spaces: Spaces, h: History, id: Id)
    requires Safe(metas, spaces, h) && id in h.orphans
    ensures id in h.used && forall p :: p in metas ==> p.id != id
    ensures LiveSpace(id) in spaces && forall q :: q in spaces && q.id == id ==> q == LiveSpace(id)
  {
  }

  lemma NoOthers(metas: Metas, spaces: Spaces, id: Id)
    ensures Others(metas, metas, spaces, spaces, id)
  {
  }

  lemma KeptAnything(metas: Metas, metas': Metas, spaces: Spaces, spaces': Spaces, id: Id)
    requires Kept(metas, metas', spaces, spaces', id, false)
    ensures Others(metas, metas', spaces, spaces', id)
  {
  }

  // ------------------------------------------------------------- what is conserved

  ghost predicate Conserved(metas: Metas, metas': Metas, spaces: Spaces, spaces': Spaces, except: set<Id>) {
    forall i :: i !in except ==>
      Documents(metas', i) == Documents(metas, i) && Trees(spaces', i) == Trees(spaces, i)
  }

  lemma Unchanging(metas: Metas, spaces: Spaces)
    ensures forall except: set<Id> :: Conserved(metas, metas, spaces, spaces, except)
  {
  }

  lemma ConservedWiden(m0: Metas, m1: Metas, s0: Spaces, s1: Spaces, except: set<Id>)
    requires Conserved(m0, m1, s0, s1, {})
    ensures Conserved(m0, m1, s0, s1, except)
  {
  }

  lemma ConservedChain(m0: Metas, m1: Metas, m2: Metas, s0: Spaces, s1: Spaces, s2: Spaces, except: set<Id>)
    requires Conserved(m0, m1, s0, s1, except) && Conserved(m1, m2, s1, s2, except)
    ensures Conserved(m0, m2, s0, s2, except)
  {
  }

  lemma KeptConserves(m0: Metas, m: Metas, s0: Spaces, s: Spaces, s': Spaces, id: Id, all: bool, except: set<Id>)
    requires Conserved(m0, m, s0, s, except) && Kept(m, m, s, s', id, all) && (all || id in except)
    ensures Conserved(m0, m, s0, s', except)
  {
    OthersKeep(m, m, s, s', id);
  }

  lemma KeptConservesMetas(m0: Metas, m: Metas, m': Metas, s: Spaces, id: Id, except: set<Id>)
    requires Conserved(m0, m, s, s, except) && Kept(m, m', s, s, id, false) && id in except
    ensures Conserved(m0, m', s, s, except)
  {
    OthersKeep(m, m', s, s, id);
  }

  lemma OthersKeep(m: Metas, m': Metas, s: Spaces, s': Spaces, id: Id)
    requires Others(m, m', s, s', id)
    ensures forall i :: i != id ==> Documents(m', i) == Documents(m, i) && Trees(s', i) == Trees(s, i)
  {
    forall i | i != id ensures Documents(m', i) == Documents(m, i) && Trees(s', i) == Trees(s, i) {
      assert forall p :: p in m && p.id == i ==> p in m' && m'[p] == m[p];
      assert forall p :: p in m' && p.id == i ==> p in m && m'[p] == m[p];
      assert forall q :: q in s && q.id == i ==> q in s' && s'[q] == s[q];
      assert forall q :: q in s' && q.id == i ==> q in s && s'[q] == s[q];
    }
  }

  // The projects that existed are as they were, except the purged ones.
  ghost predicate KeptAll(m0: Metas, m: Metas, s0: Spaces, s: Spaces, existing: set<Id>, purged: set<Id>) {
    forall i :: i in existing && i !in purged ==>
      Documents(m, i) == Documents(m0, i) && Trees(s, i) == Trees(s0, i)
  }

  lemma KeptAllMeans(m0: Metas, m: Metas, s0: Spaces, s: Spaces, existing: set<Id>, purged: set<Id>)
    requires KeptAll(m0, m, s0, s, existing, purged)
    ensures forall i :: i in existing && i !in purged ==>
      Documents(m, i) == Documents(m0, i) && Trees(s, i) == Trees(s0, i)
  {
  }

  lemma KeptAllNothing(m: Metas, s: Spaces)
    ensures forall existing: set<Id>, purged: set<Id> :: KeptAll(m, m, s, s, existing, purged)
  {
  }

  lemma OthersKeepAll(m: Metas, m': Metas, s: Spaces, s': Spaces, existing: set<Id>, purged: set<Id>, id: Id)
    requires Others(m, m', s, s', id) && (id !in existing || id in purged)
    ensures KeptAll(m, m', s, s', existing, purged)
  {
    OthersKeep(m, m', s, s', id);
  }

  lemma KeptKeepsAll(m: Metas, m': Metas, s: Spaces, s': Spaces, existing: set<Id>, purged: set<Id>, id: Id)
    requires Kept(m, m', s, s', id, true)
    ensures KeptAll(m, m', s, s', existing, purged)
  {
    OthersKeep(m, m', s, s', id);
  }

  lemma ConservedKeepsAll(m: Metas, m': Metas, s: Spaces, s': Spaces, existing: set<Id>, purged: set<Id>)
    requires Conserved(m, m', s, s', purged)
    ensures KeptAll(m, m', s, s', existing, purged)
  {
  }

  lemma KeptAllChain(m0: Metas, m1: Metas, m2: Metas, s0: Spaces, s1: Spaces, s2: Spaces,
                     used0: set<Id>, used1: set<Id>, purged1: set<Id>, purged2: set<Id>)
    requires KeptAll(m0, m1, s0, s1, used0, purged1) && KeptAll(m1, m2, s1, s2, used1, purged2)
    requires used0 <= used1 && purged1 <= purged2
    ensures KeptAll(m0, m2, s0, s2, used0, purged2)
  {
  }

  // ---------------------------------------------------------------- after recovery

  lemma HalfDeleted(metas: Metas, spaces: Spaces, h: History, p: MetaPlace)
    requires Safe(metas, spaces, h) && p in metas && !p.LiveMeta?
    ensures LiveSpace(p.id) in spaces ==>
      p.TrashMeta? && TrashSpace(p.id, p.stamp) !in spaces && spaces[LiveSpace(p.id)].marker == Some(metas[p].owner)
  {
  }

  // Every quarantined workspace still has metadata, so its library is a known one.
  lemma AllVisited(metas: Metas, spaces: Spaces, h: History, quarantined: set<SpacePlace>)
    requires Safe(metas, spaces, h)
    requires quarantined == set q | q in spaces && q.PurgingSpace? && exists p :: p in metas && p.id == q.id
    ensures forall q :: q in spaces && q.PurgingSpace? ==> q in quarantined
  {
  }

  lemma Quarantine(metas: Metas, spaces: Spaces, h: History, q: SpacePlace)
    requires Safe(metas, spaces, h) && q in spaces && q.PurgingSpace?
    ensures q.id in h.purged && spaces[q].marker == Some(q.id)
  {
    var p :| p in metas && p.id == q.id;
  }

  lemma PurgedMeta(metas: Metas, spaces: Spaces, h: History, p: MetaPlace)
    requires Safe(metas, spaces, h) && p in metas && p.PurgingMeta?
    ensures p.id in h.purged
  {
  }

  // No quarantine is left, and no trashed document has its workspace elsewhere.
  ghost predicate Settled(metas: Metas, spaces: Spaces) {
    && (forall p :: p in metas ==> !p.PurgingMeta?)
    && (forall q :: q in spaces ==> !q.PurgingSpace?)
    && (forall p, q :: p in metas && q in spaces && p.id == q.id && p.TrashMeta? ==> q == TrashSpace(p.id, p.stamp))
  }

  lemma NowSettled(metas: Metas, spaces: Spaces, h: History)
    requires Safe(metas, spaces, h)
    requires forall p :: p in metas ==> !p.PurgingMeta?
    requires forall q :: q in spaces ==> !q.PurgingSpace?
    requires forall p :: p in metas && !p.LiveMeta? ==> LiveSpace(p.id) !in spaces
    ensures Settled(metas, spaces)
  {
    forall p, q | p in metas && q in spaces && p.id == q.id && p.TrashMeta? ensures q == TrashSpace(p.id, p.stamp) {
      assert Fits(p, q);
    }
  }

  ghost predicate Alive(metas: Metas, spaces: Spaces, id: Id) {
    && (forall p :: p in metas && p.id == id <==> p == LiveMeta(id))
    && (forall q :: q in spaces && q.id == id <==> q == LiveSpace(id))
  }

  ghost predicate Trashed(metas: Metas, spaces: Spaces, id: Id) {
    exists stamp ::
      && (forall p :: p in metas && p.id == id <==> p == TrashMeta(id, stamp))
      && (forall q :: q in spaces && q.id == id <==> q == TrashSpace(id, stamp))
  }

  ghost predicate Absent(metas: Metas, spaces: Spaces, id: Id) {
    (forall p :: p in metas ==> p.id != id) && (forall q :: q in spaces ==> q.id != id)
  }

  // Metadata in the trash and no workspace: what a purge killed between its two
  // renames leaves for ever, as neither restore nor purge accepts it.
  ghost predicate Leftover(metas: Metas, spaces: Spaces, id: Id) {
    && (exists stamp :: forall p :: p in metas && p.id == id <==> p == TrashMeta(id, stamp))
    && (forall q :: q in spaces ==> q.id != id)
  }

  // A workspace and no metadata: what a creation killed before its first save leaves
  // for ever, as recovery looks only for the markers of copies.
  ghost predicate Orphan(metas: Metas, spaces: Spaces, id: Id) {
    && (forall p :: p in metas ==> p.id != id)
    && (forall q :: q in spaces && q.id == id <==> q == LiveSpace(id))
  }

  // After a recovery every project is in one of five states: in the last two exactly where
  // a purge stopped between its renames, and where a creation left its workspace behind.
  lemma FiveStates(metas: Metas, spaces: Spaces, h: History, id: Id)
    requires Safe(metas, spaces, h) && Settled(metas, spaces)
    ensures Leftover(metas, spaces, id) <==> id in h.half
    ensures Orphan(metas, spaces, id) <==> id in h.orphans
    ensures
      || Alive(metas, spaces, id) || Trashed(metas, spaces, id) || Absent(metas, spaces, id)
      || Leftover(metas, spaces, id) || Orphan(metas, spaces, id)
  {
    hide Leftover, Orphan, Alive, Trashed, Absent;
    IsLeftover(metas, spaces, h, id);
    IsOrphan(metas, spaces, h, id);
    if p :| p in metas && p.id == id {
      if q :| q in spaces && q.id == id {
        IsWhole(metas, spaces, h, p, q);
      } else {
        assert id in h.half;
      }
    } else if q :| q in spaces && q.id == id {
      assert id in h.orphans;
    } else {
      IsAbsent(metas, spaces, id);
    }
  }

  lemma IsLeftover(metas: Metas, spaces: Spaces, h: History, id: Id)
    requires Safe(metas, spaces, h) && Settled(metas, spaces)
    ensures Leftover(metas, spaces, id) <==> id in h.half
  {
    if id in h.half {
      var p :| p in metas && p.id == id && p.TrashMeta?;
      assert p == TrashMeta(id, p.stamp);
      assert forall x :: x in metas && x.id == id <==> x == TrashMeta(id, p.stamp);
    }
    if Leftover(metas, spaces, id) {
      var stamp :| forall p :: p in metas && p.id == id <==> p == TrashMeta(id, stamp);
      assert TrashMeta(id, stamp) in metas;
    }
  }

  lemma IsOrphan(metas: Metas, spaces: Spaces, h: History, id: Id)
    requires Safe(metas, spaces, h) && Settled(metas, spaces)
    ensures Orphan(metas, spaces, id) <==> id in h.orphans
  {
    if Orphan(metas, spaces, id) {
      assert LiveSpace(id) in spaces;
    }
  }

  lemma IsWhole(metas: Metas, spaces: Spaces, h: History, p: MetaPlace, q: SpacePlace)
    requires Safe(metas, spaces, h) && Settled(metas, spaces) && p in metas && q in spaces && p.id == q.id
    ensures if p.LiveMeta? then Alive(metas, spaces, p.id) else Trashed(metas, spaces, p.id)
  {
    MarkedFacts(metas, spaces, h, p, q);
    if !p.LiveMeta? {
      assert p == TrashMeta(p.id, p.stamp) && q == TrashSpace(p.id, p.stamp);
    }
  }

  lemma IsAbsent(metas: Metas, spaces: Spaces, id: Id)
    requires forall p :: p in metas ==> p.id != id
    requires forall q :: q in spaces ==> q.id != id
    ensures Absent(metas, spaces, id)
  {
  }

  lemma TrashedIsPaired(metas: Metas, spaces: Spaces, id: Id)
    ensures Trashed(metas, spaces, id) ==> InTrash(metas, spaces, id)
  {
    if Trashed(metas, spaces, id) {
      var stamp :|
        && (forall p :: p in metas && p.id == id <==> p == TrashMeta(id, stamp))
        && (forall q :: q in spaces && q.id == id <==> q == TrashSpace(id, stamp));
      assert TrashMeta(id, stamp) in metas && TrashSpace(id, stamp) in spaces;
      assert Paired(metas, spaces, id, stamp);
    }
  }

  // The states exclude one another, and what recovery makes of a project.
  lemma LeftoverOnly(metas: Metas, spaces: Spaces, id: Id)
    requires Leftover(metas, spaces, id)
    ensures !Absent(metas, spaces, id) && !Trashed(metas, spaces, id)
  {
    var stamp :| forall p :: p in metas && p.id == id <==> p == TrashMeta(id, stamp);
    assert TrashMeta(id, stamp) in metas;
    TrashedIsPaired(metas, spaces, id);
  }

  lemma OrphanOnly(metas: Metas, spaces: Spaces, id: Id)
    requires Orphan(metas, spaces, id)
    ensures !Absent(metas, spaces, id) && !Alive(metas, spaces, id)
  {
    assert LiveSpace(id) in spaces && LiveMeta(id) !in metas;
  }

  lemma TrashFacts(metas: Metas, spaces: Spaces, h: History, id: Id, stamp: string)
    requires Safe(metas, spaces, h) && Paired(metas, spaces, id, stamp)
    ensures id !in h.purged && id !in h.half
  {
    assert TrashSpace(id, stamp) in spaces;
  }

  lemma StillTrashed(metas: Metas, spaces: Spaces, h: History, id: Id, stamp: string)
    requires Safe(metas, spaces, h) && Settled(metas, spaces)
    requires TrashMeta(id, stamp) in metas && id !in h.purged
    ensures Trashed(metas, spaces, id) && !Absent(metas, spaces, id)
  {
    var q :| q in spaces && q.id == id;
    IsWhole(metas, spaces, h, TrashMeta(id, stamp), q);
  }

  lemma PurgedGone(metas: Metas, spaces: Spaces, h: History, id: Id)
    requires Safe(metas, spaces, h) && Settled(metas, spaces) && id in h.purged && id !in h.half
    ensures Absent(metas, spaces, id) && !Trashed(metas, spaces, id)
  {
    TrashedIsPaired(metas, spaces, id);
  }

  lemma StillAlive(metas: Metas, spaces: Spaces, h: History, id: Id)
    requires Safe(metas, spaces, h) && Settled(metas, spaces) && LiveMeta(id) in metas
    ensures Alive(metas, spaces, id) && !Absent(metas, spaces, id)
  {
    LiveFacts(metas, spaces, h, id);
  }

  lemma NeverBorn(metas: Metas, spaces: Spaces, h: History, id: Id)
    requires Safe(metas, spaces, h) && (forall p :: p in metas ==> p.id != id) && id !in h.orphans
    ensures Absent(metas, spaces, id) && !Alive(metas, spaces, id)
  {
    assert LiveMeta(id) !in metas;
  }

  lemma NothingNew(metas: Metas, spaces: Spaces, id: Id)
    requires Settled(metas, spaces) && forall p :: p in metas && p.id == id ==> p.PurgingMeta?
    ensures forall p :: p in metas ==> p.id != id
  {
  }

  // A leftover stays one: neither delete, restore nor purge accepts it.
  lemma LeftoverIsStuck(metas: Metas, spaces: Spaces, h: History, id: Id)
    requires Safe(metas, spaces, h) && id in h.half
    ensures !Deletable(metas, id) && !InTrash(metas, spaces, id)
  {
    var p :| p in metas && p.id == id && p.TrashMeta?;
    assert forall stamp :: TrashSpace(id, stamp) !in spaces;
  }

  // An orphan stays one: there is no document to delete, restore or purge.
  lemma OrphanIsStuck(metas: Metas, spaces: Spaces, h: History, id: Id)
    requires Safe(metas, spaces, h) && id in h.orphans
    ensures id in h.used && !Deletable(metas, id) && !InTrash(metas, spaces, id)
  {
    assert forall p :: p in metas ==> p.id != id;
  }
}

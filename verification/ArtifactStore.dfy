// packages/artifact_store/store.py: validation of the outputs of an attempt and the
// all-or-nothing publication of several artifact directories.
module ArtifactStore {
  import opened Wrappers

  type Bytes = seq<nat>

  // An entry below an artifact directory, under its POSIX relative path.
  datatype Entry = Regular(content: Bytes) | Folder | Link | Special

  // What an output path is: a directory, or something the store refuses.
  datatype Output = Tree(entries: map<string, Entry>) | Unsafe

  datatype Declared = Declared(path: string, size: nat, digest: string)

  datatype Manifest = Manifest(id: string, attempt: string, request: string, files: seq<Declared>)

  type Place = map<string, Output>

  const MANIFEST := "artifact.manifest.json"

  // The contract of a manifest forbids the one name the store writes itself.
  predicate Contracted(manifests: seq<Manifest>) {
    forall m :: m in manifests ==> forall f :: f in m.files ==> f.path != MANIFEST
  }

  function Ids(manifests: seq<Manifest>): set<string> { set m | m in manifests :: m.id }

  predicate UniqueIds(manifests: seq<Manifest>) {
    forall i, j :: 0 <= i < j < |manifests| ==> manifests[i].id != manifests[j].id
  }

  // What the destination holds: the files of the output directory and the manifest.
  function Finished(o: Output, payload: Bytes): Output {
    match o
    case Tree(entries) => Tree(entries[MANIFEST := Regular(payload)])
    case Unsafe => Unsafe
  }

  function FilesOf(entries: map<string, Entry>): map<string, Bytes> {
    map p | p in entries && entries[p].Regular? :: entries[p].content
  }

  // `Escaped`: the operating system's error in taking a lock is not one of the store's own.
  datatype Outcome = Committed | Conflict | Invalid | Escaped | Failed(rollbackFailed: bool) | Killed

  function Restrict(place: Place, ids: set<string>): Place { map i | i in place && i in ids :: place[i] }

  // The directories of `moved` are published, the others are still in the attempt.
  ghost predicate Split(published0: Place, work: Place, moved: set<string>, published: Place, outputs: Place) {
    && moved <= work.Keys && moved !! published0.Keys
    && published == published0 + Restrict(work, moved)
    && outputs == work - moved
  }

  // Outputs as they were, except that some have got their manifest.
  ghost predicate Stamped(outputs: Place, work: Place, manifests: seq<Manifest>, render: Manifest -> Bytes) {
    && work.Keys == outputs.Keys
    && forall i :: i in work ==>
         || work[i] == outputs[i]
         || exists m :: m in manifests && m.id == i && work[i] == Finished(outputs[i], render(m))
  }

  lemma NoIds(manifests: seq<Manifest>)
    ensures Ids(manifests[..0]) == {}
  {
  }

  lemma LastId(manifests: seq<Manifest>, k: nat)
    requires UniqueIds(manifests) && k < |manifests|
    ensures Ids(manifests[..k + 1]) == Ids(manifests[..k]) + {manifests[k].id}
    ensures manifests[k].id !in Ids(manifests[..k])
  {
    assert manifests[..k + 1] == manifests[..k] + [manifests[k]];
  }

  lemma NothingSplit(published: Place, outputs: Place)
    ensures Split(published, outputs, {}, published, outputs)
  {
    assert published + Restrict(outputs, {}) == published;
  }

  lemma SplitOut(published0: Place, work: Place, moved: set<string>, published: Place, outputs: Place, id: string)
    requires Split(published0, work, moved, published, outputs) && id in outputs && id !in published
    ensures Split(published0, work, moved + {id}, published[id := outputs[id]], outputs - {id})
    ensures id in work && outputs[id] == work[id]
  {
    assert published[id := outputs[id]] == published0 + Restrict(work, moved + {id});
    assert outputs - {id} == work - (moved + {id});
  }

  lemma SplitBack(published0: Place, work: Place, moved: set<string>, published: Place, outputs: Place, id: string)
    requires Split(published0, work, moved, published, outputs) && id in moved
    ensures id in published && id !in outputs
    ensures Split(published0, work, moved - {id}, published - {id}, outputs[id := published[id]])
  {
    assert published - {id} == published0 + Restrict(work, moved - {id});
    assert outputs[id := published[id]] == work - (moved - {id});
  }

  class Store {
    const digest: Bytes -> string
    const render: Manifest -> Bytes
    var published: Place
    var outputs: Place
    var locks: set<string>

    constructor (digest: Bytes -> string, render: Manifest -> Bytes, published: Place, outputs: Place)
      ensures this.digest == digest && this.render == render
      ensures this.published == published && this.outputs == outputs && locks == {}
    {
      this.digest, this.render := digest, render;
      this.published, this.outputs, locks := published, outputs, {};
    }

    // _validate_artifact, as a predicate.
    predicate ValidArtifact(attempt: string, request: string, m: Manifest, place: Place) {
      && m.attempt == attempt && m.request == request
      && m.id in place && place[m.id].Tree?
      && var entries := place[m.id].entries;
      && (forall p :: p in entries ==> !entries[p].Link? && !entries[p].Special?)
      && FilesOf(entries).Keys == (set f | f in m.files :: f.path)
      && forall f :: f in m.files ==>
           |FilesOf(entries)[f.path]| == f.size && digest(FilesOf(entries)[f.path]) == f.digest
    }

    predicate Acceptable(attempt: string, request: string, manifests: seq<Manifest>, place: Place) {
      && manifests != [] && UniqueIds(manifests)
      && forall m :: m in manifests ==> ValidArtifact(attempt, request, m, place)
    }

    // validate_artifacts
    method Validate(attempt: string, request: string, manifests: seq<Manifest>) returns (ok: bool)
      ensures ok == Acceptable(attempt, request, manifests, outputs)
    {
      if manifests == [] || !UniqueIds(manifests) {
        return false;
      }
      for k := 0 to |manifests|
        invariant forall i :: 0 <= i < k ==> ValidArtifact(attempt, request, manifests[i], outputs)
      {
        if !ValidArtifact(attempt, request, manifests[k], outputs) {
          return false;
        }
      }
      ok := true;
    }

    // _acquire_commit_locks: `busy` are the locks held by other committers.
    method AcquireLocks(order: seq<string>, busy: set<string>, fate: nat -> Fate) returns (outcome: Outcome)
      requires locks == {}
      modifies this`locks
      ensures outcome == Committed || outcome == Conflict || outcome == Escaped || outcome == Killed
      ensures outcome == Committed ==> locks == (set id | id in order) && locks !! busy
      ensures outcome == Committed ==> forall i, j :: 0 <= i < j < |order| ==> order[i] != order[j]
      ensures outcome != Committed ==> locks == {}
      ensures outcome == Conflict ==>
        exists k :: 0 <= k < |order| && (order[k] in busy || order[k] in order[..k])
      ensures (forall n :: fate(n) == Works) ==> outcome == Committed || outcome == Conflict
    {
      var k := 0;
      while k < |order|
        invariant 0 <= k <= |order| && locks == (set id | id in order[..k]) && locks !! busy
        invariant forall i, j :: 0 <= i < j < k ==> order[i] != order[j]
      {
        if fate(k) != Works || order[k] in busy || order[k] in locks {
          outcome := if fate(k) == Dies then Killed else if fate(k) == Raises then Escaped else Conflict;
          locks := {};
          return;
        }
        assert order[..k + 1] == order[..k] + [order[k]];
        locks := locks + {order[k]};
        k := k + 1;
      }
      assert order[..k] == order;
      outcome := Committed;
    }

    // The first loop of commit: every manifest is written beside its files.
    method WriteManifests(manifests: seq<Manifest>, fate: nat -> Fate) returns (outcome: Outcome)
      requires UniqueIds(manifests) && forall m :: m in manifests ==> m.id in outputs
      modifies this`outputs
      ensures outcome == Committed || outcome == Failed(false) || outcome == Killed
      ensures Stamped(old(outputs), outputs, manifests, render)
      ensures outcome == Committed ==>
        forall m :: m in manifests ==> outputs[m.id] == Finished(old(outputs)[m.id], render(m))
      ensures (forall n :: fate(n) == Works) ==> outcome == Committed
    {
      hide Stamped, Finished;
      ghost var before := outputs;
      for k := 0 to |manifests|
        invariant outputs.Keys == before.Keys
        invariant forall i :: i in outputs && i !in Ids(manifests[..k]) ==> outputs[i] == before[i]
        invariant forall j :: 0 <= j < k ==>
          outputs[manifests[j].id] == Finished(before[manifests[j].id], render(manifests[j]))
      {
        var m := manifests[k];
        assert m in manifests;
        if fate(k) != Works {
          StampedSoFar(before, outputs, manifests, k, render);
          return if fate(k) == Dies then Killed else Failed(false);
        }
        LastId(manifests, k);
        outputs := outputs[m.id := Finished(outputs[m.id], render(m))];
      }
      assert manifests[..|manifests|] == manifests;
      StampedSoFar(before, outputs, manifests, |manifests|, render);
      outcome := Committed;
    }

    // The second loop: the renames.
    method Publish(manifests: seq<Manifest>, ghost published0: Place, ghost work: Place, fate: nat -> Fate)
      returns (outcome: Outcome, done: nat, ghost moved: set<string>)
      requires UniqueIds(manifests) && Ids(manifests) <= work.Keys
      requires published == published0 && outputs == work
      modifies this`published, this`outputs
      ensures Split(published0, work, moved, published, outputs)
      ensures done <= |manifests| && moved == Ids(manifests[..done])
      ensures outcome == Committed || outcome == Conflict || outcome == Failed(false) || outcome == Killed
      ensures outcome == Committed ==> done == |manifests|
      ensures outcome == Conflict ==> exists m :: m in manifests && m.id in published0
      ensures (forall n :: fate(n) == Works) ==> outcome == Committed || outcome == Conflict
    {
      NothingSplit(published, outputs);
      done, moved := 0, {};
      while done < |manifests|
        invariant done <= |manifests| && moved == Ids(manifests[..done])
        invariant Split(published0, work, moved, published, outputs)
      {
        var m := manifests[done];
        assert m in manifests && m.id in Ids(manifests) && m.id !in Ids(manifests[..done]);
        if m.id in published {
          return Conflict, done, moved;
        } else if fate(done) != Works {
          return if fate(done) == Dies then Killed else Failed(false), done, moved;
        }
        SplitOut(published0, work, moved, published, outputs, m.id);
        published, outputs := published[m.id := outputs[m.id]], outputs - {m.id};
        moved := moved + {m.id};
        assert manifests[..done + 1] == manifests[..done] + [m];
        done := done + 1;
      }
      outcome := Committed;
    }

    // The handler: the renames are undone in reverse order, past any that fail.
    method RollBack(manifests: seq<Manifest>, done: nat, ghost published0: Place, ghost work: Place,
                    ghost moved0: set<string>, fate: nat -> Fate)
      returns (failed: bool, killed: bool, ghost moved: set<string>)
      requires UniqueIds(manifests) && done <= |manifests| && moved0 == Ids(manifests[..done])
      requires Split(published0, work, moved0, published, outputs)
      modifies this`published, this`outputs
      ensures Split(published0, work, moved, published, outputs) && moved <= moved0
      ensures !failed && !killed ==> moved == {}
      ensures (forall n :: fate(n) == Works) ==> !failed && !killed
    {
      hide Split, Ids;
      moved, failed, killed := moved0, false, false;
      var k := done;
      while k > 0
        invariant 0 <= k <= done && Ids(manifests[..k]) <= moved <= moved0
        invariant Split(published0, work, moved, published, outputs)
        invariant !failed ==> moved == Ids(manifests[..k])
        invariant (forall n :: fate(n) == Works) ==> !failed
      {
        k := k - 1;
        var id := manifests[k].id;
        LastId(manifests, k);
        if fate(k) == Dies {
          killed := true;
          return;
        } else if fate(k) == Raises {
          failed := true;
        } else {
          SplitBack(published0, work, moved, published, outputs, id);
          published, outputs := published - {id}, outputs[id := published[id]];
          moved := moved - {id};
        }
      }
      NoIds(manifests);
    }

    // The part of commit that runs under the locks.
    method CommitLocked(attempt: string, request: string, manifests: seq<Manifest>,
                        stamping: nat -> Fate, renaming: nat -> Fate, undoing: nat -> Fate)
      returns (outcome: Outcome, ghost work: Place, ghost moved: set<string>)
      modifies this`published, this`outputs
      ensures outcome != Escaped && Stamped(old(outputs), work, manifests, render)
      ensures Split(old(published), work, moved, published, outputs) && moved <= Ids(manifests)
      ensures outcome == Committed ==>
        && Acceptable(attempt, request, manifests, old(outputs)) && moved == Ids(manifests)
        && forall m :: m in manifests ==> m.id in work && work[m.id] == Finished(old(outputs)[m.id], render(m))
      ensures outcome == Conflict || outcome == Invalid || outcome == Failed(false) ==> moved == {}
      ensures outcome == Invalid <==> !Acceptable(attempt, request, manifests, old(outputs))
      ensures outcome == Invalid ==> work == old(outputs)
      ensures outcome == Conflict ==> Ids(manifests) * old(published).Keys != {}
      ensures (forall n :: stamping(n) == renaming(n) == undoing(n) == Works) ==>
        outcome == Committed || outcome == Conflict || outcome == Invalid
    {
      hide Split, Stamped;
      ghost var published0 := published;
      moved := {};
      NothingSplit(published, outputs);
      NothingStamped(outputs, manifests, render);
      work := outputs;
      var ok := Validate(attempt, request, manifests);
      if !ok {
        return Invalid, work, moved;
      }
      outcome := WriteManifests(manifests, stamping);
      work := outputs;
      NothingSplit(published, outputs);
      if outcome != Committed {
        return;
      }
      StampedKeys(old(outputs), work, manifests, render);
      var done;
      outcome, done, moved := Publish(manifests, published0, work, renaming);
      assert manifests[..|manifests|] == manifests;
      assert moved <= Ids(manifests);
      if outcome == Conflict || outcome == Failed(false) {
        var failed, killed;
        failed, killed, moved := RollBack(manifests, done, published0, work, moved, undoing);
        outcome := if killed then Killed else if failed then Failed(true) else outcome;
      }
    }

    // commit: `order` lists the identifiers in the order in which they are locked, and
    // `busy` the locks that other committers hold.
    method Commit(attempt: string, request: string, manifests: seq<Manifest>, order: seq<string>, busy: set<string>,
                  locking: nat -> Fate, stamping: nat -> Fate, renaming: nat -> Fate, undoing: nat -> Fate)
      returns (outcome: Outcome, ghost work: Place, ghost moved: set<string>)
      requires locks == {} && (forall id :: id in order <==> id in Ids(manifests)) && |order| == |manifests|
      modifies this
      ensures locks == {}
      // every directory is in exactly one of the two places, and what was published stays
      ensures Stamped(old(outputs), work, manifests, render)
      ensures Split(old(published), work, moved, published, outputs) && moved <= Ids(manifests)
      // all ...
      ensures outcome == Committed ==>
        && Acceptable(attempt, request, manifests, old(outputs)) && Ids(manifests) !! busy && moved == Ids(manifests)
        && forall m :: m in manifests ==> m.id in work && work[m.id] == Finished(old(outputs)[m.id], render(m))
      // ... or nothing
      ensures outcome == Conflict || outcome == Invalid || outcome == Escaped || outcome == Failed(false) ==>
        moved == {}
      ensures outcome == Invalid ==> !Acceptable(attempt, request, manifests, old(outputs)) && work == old(outputs)
      ensures outcome == Conflict ==>
        Ids(manifests) * busy != {} || Ids(manifests) * old(published).Keys != {} || !UniqueIds(manifests)
      ensures (forall n :: locking(n) == stamping(n) == renaming(n) == undoing(n) == Works) ==>
        outcome == Committed || outcome == Conflict || outcome == Invalid
    {
      hide Split, Stamped, Acceptable;
      moved, work := {}, outputs;
      NothingSplit(published, outputs);
      NothingStamped(outputs, manifests, render);
      outcome := AcquireLocks(order, busy, locking);
      if outcome == Conflict {
        ghost var k :| 0 <= k < |order| && (order[k] in busy || order[k] in order[..k]);
        if order[k] in busy {
          assert order[k] in Ids(manifests) * busy;
        } else {
          NoRepeats(manifests, order, k);
        }
      }
      if outcome == Committed {
        outcome, work, moved := CommitLocked(attempt, request, manifests, stamping, renaming, undoing);
        locks := {};
      }
    }
  }

  lemma {:induction false} SetAtMost(s: seq<string>)
    ensures |(set x | x in s)| <= |s|
  {
    if s != [] {
      SetAtMost(s[1..]);
      assert (set x | x in s) == (set x | x in s[1..]) + {s[0]};
    }
  }

  lemma {:induction false} IdsSize(manifests: seq<Manifest>)
    requires UniqueIds(manifests)
    ensures |Ids(manifests)| == |manifests|
  {
    if manifests != [] {
      var n := |manifests| - 1;
      IdsSize(manifests[..n]);
      LastId(manifests, n);
      assert manifests[..n + 1] == manifests;
    }
  }

  lemma RepeatShrinks(order: seq<string>, k: nat)
    requires k < |order| && order[k] in order[..k]
    ensures |(set x | x in order)| < |order|
  {
    var rest := order[..k] + order[k + 1..];
    SetAtMost(rest);
    forall id | id in order ensures id in rest {
      var i :| 0 <= i < |order| && order[i] == id;
      if i > k {
        assert rest[i - 1] == id;
      } else if i < k {
        assert rest[i] == id;
      }
    }
    assert (set x | x in rest) == (set x | x in order);
  }

  lemma NoRepeats(manifests: seq<Manifest>, order: seq<string>, k: nat)
    requires |order| == |manifests| && forall id :: id in order <==> id in Ids(manifests)
    requires k < |order| && order[k] in order[..k]
    ensures !UniqueIds(manifests)
  {
    assert (set x | x in order) == Ids(manifests);
    RepeatShrinks(order, k);
    if UniqueIds(manifests) {
      IdsSize(manifests);
    }
  }

  lemma NothingStamped(outputs: Place, manifests: seq<Manifest>, render: Manifest -> Bytes)
    ensures Stamped(outputs, outputs, manifests, render)
  {
  }

  lemma StampedKeys(outputs: Place, work: Place, manifests: seq<Manifest>, render: Manifest -> Bytes)
    requires Stamped(outputs, work, manifests, render)
    ensures work.Keys == outputs.Keys
  {
  }

  lemma StampedSoFar(before: Place, work: Place, manifests: seq<Manifest>, k: nat, render: Manifest -> Bytes)
    requires k <= |manifests| && work.Keys == before.Keys
    requires forall m :: m in manifests ==> m.id in before
    requires forall i :: i in work && i !in Ids(manifests[..k]) ==> work[i] == before[i]
    requires forall j :: 0 <= j < k ==> work[manifests[j].id] == Finished(before[manifests[j].id], render(manifests[j]))
    ensures Stamped(before, work, manifests, render)
  {
    forall i | i in work && i in Ids(manifests[..k])
      ensures exists m :: m in manifests && m.id == i && work[i] == Finished(before[i], render(m))
    {
      var m :| m in manifests[..k] && m.id == i;
      var j :| 0 <= j < k && manifests[j] == m;
      assert m in manifests;
    }
  }

  // What a committed destination holds: the declared files, each with its size and
  // digest, the manifest, and no other file.
  lemma PublishedExactly(s: Store, attempt: string, request: string, m: Manifest, place: Place, payload: Bytes)
    requires s.ValidArtifact(attempt, request, m, place) && Contracted([m])
    ensures Finished(place[m.id], payload).Tree?
    ensures var files := FilesOf(Finished(place[m.id], payload).entries);
      && files.Keys == (set f | f in m.files :: f.path) + {MANIFEST}
      && files[MANIFEST] == payload
      && forall f :: f in m.files ==> |files[f.path]| == f.size && s.digest(files[f.path]) == f.digest
  {
    var before := FilesOf(place[m.id].entries);
    var files := FilesOf(Finished(place[m.id], payload).entries);
    assert files == before[MANIFEST := payload];
    forall f | f in m.files ensures files[f.path] == before[f.path] {
      assert m in [m] && f.path != MANIFEST;
      assert f.path in before;
    }
  }
}

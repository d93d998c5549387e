// packages/artifact_store/store.py, _acquire_commit_locks: any number of concurrent
// committers that try-lock their artifact identifiers in sorted order. Identifiers
// are represented by their ranks in that order.
module CommitLocks {
  datatype Phase =
    | Acquiring(taken: nat)                              // the first `taken` locks are held
    | Backing(at: nat, conflict: bool, left: nat)        // lock number `at` was refused
    | Lost(at: nat, conflict: bool)
    | Owning                                             // all locks held: the commit proper
    | Unwinding(left: nat)
    | Won
    | Crashed(at: nat)

  // wants[c] is the sorted list of committer c, phase[c] its progress, and holder[x]
  // the committer that holds lock x.
  datatype State = State(wants: seq<seq<nat>>, phase: seq<Phase>, holder: map<nat, nat>)

  // A committer goes on (`error`: acquiring fails for another reason than a held
  // lock, such as a full disk), or its process dies.
  datatype Action = Advance(error: bool) | Die

  predicate Sorted(s: seq<nat>) { forall i, j :: 0 <= i < j < |s| ==> s[i] <= s[j] }

  predicate Unique(s: seq<nat>) { forall i, j :: 0 <= i < j < |s| ==> s[i] != s[j] }

  predicate Over(p: Phase) { p.Lost? || p.Won? || p.Crashed? }

  function Initial(wants: seq<seq<nat>>): State {
    State(wants, seq(|wants|, c => Acquiring(0)), map[])
  }

  function Relabel(s: State, c: nat, p: Phase): State
    requires c < |s.phase|
  {
    s.(phase := s.phase[c := p])
  }

  function Take(s: State, c: nat, k: nat): State
    requires c < |s.phase| == |s.wants| && k < |s.wants[c]|
  {
    State(s.wants, s.phase[c := Acquiring(k + 1)], s.holder[s.wants[c][k] := c])
  }

  function Release(s: State, c: nat, k: nat, p: Phase): State
    requires c < |s.phase| == |s.wants| && k < |s.wants[c]|
  {
    State(s.wants, s.phase[c := p], s.holder - {s.wants[c][k]})
  }

  // The operating system drops the locks of a dead process.
  function Kill(s: State, c: nat, at: nat): State
    requires c < |s.phase|
  {
    State(s.wants, s.phase[c := Crashed(at)], map x | x in s.holder && s.holder[x] != c :: s.holder[x])
  }

  function Next(s: State, c: nat, action: Action): State
    requires c < |s.phase| == |s.wants|
  {
    var p, ids := s.phase[c], s.wants[c];
    if Over(p) then s
    else if action.Die? then Kill(s, c, Passed(p, |ids|))
    else
      match p
      case Acquiring(k) =>
        if k >= |ids| then Relabel(s, c, Owning)
        else if action.error || ids[k] in s.holder then Relabel(s, c, Backing(k, !action.error, k))
        else Take(s, c, k)
      case Backing(at, conflict, left) =>
        if left == 0 || left > |ids| then Relabel(s, c, Lost(at, conflict))
        else Release(s, c, left - 1, Backing(at, conflict, left - 1))
      case Owning => Relabel(s, c, Unwinding(|ids|))
      case Unwinding(left) =>
        if left == 0 || left > |ids| then Relabel(s, c, Won)
        else Release(s, c, left - 1, Unwinding(left - 1))
      case _ => s
  }

  // Every interleaving of the committers.
  function Run(s: State, steps: seq<(nat, Action)>): State
    requires |s.phase| == |s.wants|
    decreases |steps|
  {
    if steps == [] then s
    else
      var before := Run(s, steps[..|steps| - 1]);
      var (c, action) := steps[|steps| - 1];
      if |before.phase| == |before.wants| && c < |before.phase| then Next(before, c, action) else before
  }

  // ------------------------------------------------------------------ the invariant

  // How many locks a committer ever got, and how many it has.
  function Passed(p: Phase, n: nat): nat {
    match p
    case Acquiring(k) => k
    case Backing(at, _, _) => at
    case Lost(at, _) => at
    case Crashed(at) => at
    case _ => n
  }

  function Held(p: Phase, n: nat): nat {
    match p
    case Acquiring(k) => k
    case Backing(_, _, left) => left
    case Owning => n
    case Unwinding(left) => left
    case _ => 0
  }

  predicate Refused(p: Phase) { (p.Backing? || p.Lost?) && p.conflict }

  ghost predicate Bounded(s: State) {
    && |s.phase| == |s.wants|
    && forall c :: 0 <= c < |s.phase| ==>
         && Held(s.phase[c], |s.wants[c]|) <= Passed(s.phase[c], |s.wants[c]|) <= |s.wants[c]|
         && (Refused(s.phase[c]) ==> s.phase[c].at < |s.wants[c]|)
  }

  // Every lock has the one holder that the phases say.
  ghost predicate Exclusive(s: State)
    requires Bounded(s)
  {
    && (forall c, i :: 0 <= c < |s.phase| && 0 <= i < Held(s.phase[c], |s.wants[c]|) ==>
          s.wants[c][i] in s.holder && s.holder[s.wants[c][i]] == c)
    && (forall x :: x in s.holder ==> s.holder[x] < |s.phase| && HeldBy(s, x, s.holder[x]))
  }

  ghost predicate HeldBy(s: State, x: nat, c: nat)
    requires Bounded(s) && c < |s.phase|
  {
    exists i :: 0 <= i < Held(s.phase[c], |s.wants[c]|) && s.wants[c][i] == x
  }

  // Whatever a committer got, it got once.
  ghost predicate Once(s: State)
    requires Bounded(s)
  {
    forall c, i, j :: 0 <= c < |s.phase| && 0 <= i < j < Passed(s.phase[c], |s.wants[c]|) ==>
      s.wants[c][i] != s.wants[c][j]
  }

  // A refused lock had been got by somebody.
  ghost predicate Explained(s: State)
    requires Bounded(s)
  {
    forall c :: 0 <= c < |s.phase| && Refused(s.phase[c]) ==> Got(s, s.wants[c][s.phase[c].at])
  }

  ghost predicate Got(s: State, x: nat)
    requires Bounded(s)
  {
    exists h, i :: 0 <= h < |s.phase| && 0 <= i < Passed(s.phase[h], |s.wants[h]|) && s.wants[h][i] == x
  }

  ghost predicate Inv(s: State) {
    Bounded(s) && Exclusive(s) && Once(s) && Explained(s)
  }

  lemma InitialInv(wants: seq<seq<nat>>)
    ensures Inv(Initial(wants))
  {
  }

  lemma GotStays(s: State, t: State, x: nat)
    requires Bounded(s) && Bounded(t) && s.wants == t.wants && Got(s, x)
    requires forall c :: 0 <= c < |s.phase| ==> Passed(s.phase[c], |s.wants[c]|) <= Passed(t.phase[c], |s.wants[c]|)
    ensures Got(t, x)
  {
    var h, i :| 0 <= h < |s.phase| && 0 <= i < Passed(s.phase[h], |s.wants[h]|) && s.wants[h][i] == x;
    assert i < Passed(t.phase[h], |t.wants[h]|);
  }

  lemma HeldIsGot(s: State, x: nat)
    requires Inv(s) && x in s.holder
    ensures Got(s, x)
  {
    var i :| 0 <= i < Held(s.phase[s.holder[x]], |s.wants[s.holder[x]]|) && s.wants[s.holder[x]][i] == x;
    assert i < Passed(s.phase[s.holder[x]], |s.wants[s.holder[x]]|);
  }

  // One committer changes its phase and possibly its locks; the others keep theirs.
  ghost predicate Step(s: State, t: State, c: nat)
    requires c < |s.phase|
  {
    && Bounded(s) && Bounded(t) && Exclusive(t) && Once(t) && t.wants == s.wants
    && (forall d :: 0 <= d < |s.phase| && d != c ==> t.phase[d] == s.phase[d])
    && Passed(s.phase[c], |s.wants[c]|) <= Passed(t.phase[c], |s.wants[c]|)
  }

  lemma RelabelSteps(s: State, c: nat, p: Phase)
    requires Inv(s) && c < |s.phase|
    requires Held(p, |s.wants[c]|) == Held(s.phase[c], |s.wants[c]|)
    requires Passed(p, |s.wants[c]|) == Passed(s.phase[c], |s.wants[c]|)
    requires Refused(p) ==> p.at < |s.wants[c]|
    ensures Step(s, Relabel(s, c, p), c)
  {
    var t := Relabel(s, c, p);
    forall x | x in t.holder ensures t.holder[x] < |t.phase| && HeldBy(t, x, t.holder[x]) {
      var i :| 0 <= i < Held(s.phase[s.holder[x]], |s.wants[s.holder[x]]|) && s.wants[s.holder[x]][i] == x;
      assert t.wants[t.holder[x]][i] == x;
    }
  }

  lemma TakeOnce(s: State, c: nat, k: nat)
    requires Inv(s) && c < |s.phase| && s.phase[c] == Acquiring(k) && k < |s.wants[c]|
    requires s.wants[c][k] !in s.holder
    ensures Bounded(Take(s, c, k)) && Once(Take(s, c, k))
  {
    forall i | 0 <= i < k ensures s.wants[c][i] != s.wants[c][k] {
      assert s.wants[c][i] in s.holder;
    }
  }

  lemma TakeSteps(s: State, c: nat, k: nat)
    requires Inv(s) && c < |s.phase| && s.phase[c] == Acquiring(k) && k < |s.wants[c]|
    requires s.wants[c][k] !in s.holder
    ensures Step(s, Take(s, c, k), c)
  {
    hide Once, Explained;
    TakeOnce(s, c, k);
    var t := Take(s, c, k);
    forall x | x in t.holder ensures t.holder[x] < |t.phase| && HeldBy(t, x, t.holder[x]) {
      if x == s.wants[c][k] {
        assert t.wants[c][k] == x;
      } else {
        var i :| 0 <= i < Held(s.phase[s.holder[x]], |s.wants[s.holder[x]]|) && s.wants[s.holder[x]][i] == x;
        assert t.wants[t.holder[x]][i] == x;
      }
    }
  }

  lemma ReleaseSteps(s: State, c: nat, k: nat, p: Phase)
    requires Inv(s) && c < |s.phase| && Held(s.phase[c], |s.wants[c]|) == k + 1 && Held(p, |s.wants[c]|) == k
    requires Passed(p, |s.wants[c]|) == Passed(s.phase[c], |s.wants[c]|)
    requires Refused(p) ==> p.at < |s.wants[c]|
    ensures Step(s, Release(s, c, k, p), c)
  {
    var t := Release(s, c, k, p);
    assert s.wants[c][k] in s.holder && s.holder[s.wants[c][k]] == c;
    forall x | x in t.holder ensures t.holder[x] < |t.phase| && HeldBy(t, x, t.holder[x]) {
      var i :| 0 <= i < Held(s.phase[s.holder[x]], |s.wants[s.holder[x]]|) && s.wants[s.holder[x]][i] == x;
      assert t.wants[t.holder[x]][i] == x;
    }
    forall d, i | 0 <= d < |t.phase| && 0 <= i < Held(t.phase[d], |t.wants[d]|)
      ensures t.wants[d][i] in t.holder && t.holder[t.wants[d][i]] == d
    {
      assert s.wants[d][i] in s.holder && s.holder[s.wants[d][i]] == d;
    }
  }

  lemma KillSteps(s: State, c: nat)
    requires Inv(s) && c < |s.phase|
    ensures Step(s, Kill(s, c, Passed(s.phase[c], |s.wants[c]|)), c)
  {
    var t := Kill(s, c, Passed(s.phase[c], |s.wants[c]|));
    forall x | x in t.holder ensures t.holder[x] < |t.phase| && HeldBy(t, x, t.holder[x]) {
      var i :| 0 <= i < Held(s.phase[s.holder[x]], |s.wants[s.holder[x]]|) && s.wants[s.holder[x]][i] == x;
      assert t.wants[t.holder[x]][i] == x;
    }
  }

  lemma NextSteps(s: State, c: nat, action: Action)
    requires Inv(s) && c < |s.phase|
    ensures Step(s, Next(s, c, action), c)
  {
    hide Exclusive, Once, Explained, Relabel, Take, Release, Kill, Step;
    var p, ids := s.phase[c], s.wants[c];
    if Over(p) {
      StandsStill(s, c);
    } else if action.Die? {
      KillSteps(s, c);
    } else {
      match p
      case Acquiring(k) =>
        if k >= |ids| {
          RelabelSteps(s, c, Owning);
        } else if action.error || ids[k] in s.holder {
          RelabelSteps(s, c, Backing(k, !action.error, k));
        } else {
          TakeSteps(s, c, k);
        }
      case Backing(at, conflict, left) =>
        if left == 0 {
          RelabelSteps(s, c, Lost(at, conflict));
        } else {
          ReleaseSteps(s, c, left - 1, Backing(at, conflict, left - 1));
        }
      case Owning => RelabelSteps(s, c, Unwinding(|ids|));
      case Unwinding(left) =>
        if left == 0 {
          RelabelSteps(s, c, Won);
        } else {
          ReleaseSteps(s, c, left - 1, Unwinding(left - 1));
        }
      case _ =>
    }
  }

  lemma StandsStill(s: State, c: nat)
    requires Inv(s) && c < |s.phase|
    ensures Step(s, s, c)
  {
  }

  lemma NextInv(s: State, c: nat, action: Action)
    requires Inv(s) && c < |s.phase|
    ensures Inv(Next(s, c, action)) && Next(s, c, action).wants == s.wants
  {
    hide Exclusive, Once;
    NextSteps(s, c, action);
    var t := Next(s, c, action);
    forall d | 0 <= d < |t.phase| && Refused(t.phase[d]) ensures Got(t, t.wants[d][t.phase[d].at]) {
      var x := t.wants[d][t.phase[d].at];
      if Refused(s.phase[d]) {
        assert s.phase[d].at == t.phase[d].at;
      } else {
        HeldIsGot(s, x);
      }
      GotStays(s, t, x);
    }
  }

  lemma {:induction false} RunInv(s: State, steps: seq<(nat, Action)>)
    requires Inv(s)
    ensures Inv(Run(s, steps)) && Run(s, steps).wants == s.wants
    decreases |steps|
  {
    if steps != [] {
      RunInv(s, steps[..|steps| - 1]);
      var before := Run(s, steps[..|steps| - 1]);
      var (c, action) := steps[|steps| - 1];
      if c < |before.phase| {
        NextInv(before, c, action);
      }
    }
  }

  // ------------------------------------------------------------------ the theorems

  // No two committers ever hold all their locks if they share an artifact, and
  // whoever is through holds nothing any more.
  lemma MutualExclusion(wants: seq<seq<nat>>, steps: seq<(nat, Action)>)
    ensures var s := Run(Initial(wants), steps);
      && |s.phase| == |wants|
      && (forall c, d :: 0 <= c < d < |wants| && s.phase[c].Owning? && s.phase[d].Owning? ==>
            forall i, j :: 0 <= i < |wants[c]| && 0 <= j < |wants[d]| ==> wants[c][i] != wants[d][j])
      && (forall x :: x in s.holder ==> s.holder[x] < |wants| && !Over(s.phase[s.holder[x]]))
  {
    InitialInv(wants);
    RunInv(Initial(wants), steps);
    var s := Run(Initial(wants), steps);
    forall c, d, i, j | 0 <= c < d < |wants| && s.phase[c].Owning? && s.phase[d].Owning?
                        && 0 <= i < |wants[c]| && 0 <= j < |wants[d]|
      ensures wants[c][i] != wants[d][j]
    {
      assert s.holder[s.wants[c][i]] == c && s.holder[s.wants[d][j]] == d;
    }
    forall x | x in s.holder ensures !Over(s.phase[s.holder[x]]) {
      assert HeldBy(s, x, s.holder[x]);
    }
  }

  // The number of steps a committer still has before it.
  function Remaining(p: Phase, n: nat): int {
    match p
    case Acquiring(k) => 2 * n - k + 3
    case Backing(_, _, left) => left + 1
    case Owning => n + 2
    case Unwinding(left) => left + 1
    case _ => 0
  }

  lemma Nearer(s: State, c: nat, action: Action)
    requires Bounded(s) && c < |s.phase| && !Over(s.phase[c])
    ensures 0 <= Remaining(Next(s, c, action).phase[c], |s.wants[c]|) < Remaining(s.phase[c], |s.wants[c]|)
  {
  }

  // Nobody waits: whatever the others do, each step of a committer brings it nearer
  // to its end, and only its own steps change its phase.
  lemma NobodyWaits(wants: seq<seq<nat>>, steps: seq<(nat, Action)>, c: nat, action: Action)
    requires c < |wants|
    ensures var s := Run(Initial(wants), steps);
      && |s.phase| == |s.wants| == |wants|
      && (!Over(s.phase[c]) ==>
            0 <= Remaining(Next(s, c, action).phase[c], |wants[c]|) < Remaining(s.phase[c], |wants[c]|))
      && (forall d :: 0 <= d < |wants| && d != c ==> Next(s, c, action).phase[d] == s.phase[d])
  {
    hide Exclusive, Once, Explained, Next, Remaining;
    InitialInv(wants);
    RunInv(Initial(wants), steps);
    var s := Run(Initial(wants), steps);
    NextSteps(s, c, action);
    if !Over(s.phase[c]) {
      Nearer(s, c, action);
    }
  }

  // The largest identifier on which anyone was refused.
  lemma {:induction false} LargestRefusal(s: State, n: nat) returns (c: nat)
    requires Bounded(s) && n <= |s.phase|
    requires exists d :: 0 <= d < n && Refused(s.phase[d])
    ensures c < n && Refused(s.phase[c])
    ensures forall d :: 0 <= d < n && Refused(s.phase[d]) ==>
      s.wants[d][s.phase[d].at] <= s.wants[c][s.phase[c].at]
  {
    if exists d :: 0 <= d < n - 1 && Refused(s.phase[d]) {
      c := LargestRefusal(s, n - 1);
      if Refused(s.phase[n - 1]) && s.wants[c][s.phase[c].at] < s.wants[n - 1][s.phase[n - 1].at] {
        c := n - 1;
      }
    } else {
      c := n - 1;
    }
  }

  lemma PassedIsSmaller(s: State, h: nat, i: nat)
    requires Bounded(s) && h < |s.phase| && Sorted(s.wants[h]) && Unique(s.wants[h])
    requires i < Passed(s.phase[h], |s.wants[h]|)
    ensures Refused(s.phase[h]) ==> s.wants[h][i] < s.wants[h][s.phase[h].at]
  {
    if Refused(s.phase[h]) {
      var at := s.phase[h].at;
      assert s.wants[h][i] <= s.wants[h][at] && s.wants[h][i] != s.wants[h][at];
    }
  }

  predicate GotThrough(p: Phase) {
    p.Owning? || p.Unwinding? || p.Won? || p.Crashed? || ((p.Backing? || p.Lost?) && !p.conflict)
  }

  // If anyone was refused a held lock, then once nobody is acquiring any more someone
  // got all of its locks, or died, or was stopped by another error.
  lemma SomeoneGetsThrough(wants: seq<seq<nat>>, steps: seq<(nat, Action)>)
    requires forall c :: 0 <= c < |wants| ==> Sorted(wants[c]) && Unique(wants[c])
    requires |Run(Initial(wants), steps).phase| == |wants|
    requires exists c :: 0 <= c < |wants| && Refused(Run(Initial(wants), steps).phase[c])
    requires forall c :: 0 <= c < |wants| ==> !Run(Initial(wants), steps).phase[c].Acquiring?
    ensures exists w :: 0 <= w < |wants| && GotThrough(Run(Initial(wants), steps).phase[w])
  {
    InitialInv(wants);
    RunInv(Initial(wants), steps);
    var s := Run(Initial(wants), steps);
    var c := LargestRefusal(s, |s.phase|);
    var x := s.wants[c][s.phase[c].at];
    var h, i :| 0 <= h < |s.phase| && 0 <= i < Passed(s.phase[h], |s.wants[h]|) && s.wants[h][i] == x;
    PassedIsSmaller(s, h, i);
    assert !Refused(s.phase[h]);
    assert GotThrough(s.phase[h]);
  }

  predicate GotAll(p: Phase) { p.Owning? || p.Unwinding? || p.Won? }

  predicate Smooth(p: Phase) { !p.Crashed? && (p.Backing? || p.Lost? ==> p.conflict) }

  lemma {:induction false} SmoothRun(s: State, steps: seq<(nat, Action)>)
    requires |s.phase| == |s.wants| && forall c :: 0 <= c < |s.phase| ==> Smooth(s.phase[c])
    requires forall i :: 0 <= i < |steps| ==> steps[i].1 == Advance(false)
    ensures forall c :: 0 <= c < |Run(s, steps).phase| ==> Smooth(Run(s, steps).phase[c])
    decreases |steps|
  {
    if steps != [] {
      SmoothRun(s, steps[..|steps| - 1]);
    }
  }

  // Without deaths and other errors someone got all of its locks.
  lemma SomeoneOwns(wants: seq<seq<nat>>, steps: seq<(nat, Action)>)
    requires forall c :: 0 <= c < |wants| ==> Sorted(wants[c]) && Unique(wants[c])
    requires forall i :: 0 <= i < |steps| ==> steps[i].1 == Advance(false)
    requires |Run(Initial(wants), steps).phase| == |wants|
    requires exists c :: 0 <= c < |wants| && Refused(Run(Initial(wants), steps).phase[c])
    requires forall c :: 0 <= c < |wants| ==> !Run(Initial(wants), steps).phase[c].Acquiring?
    ensures exists w :: 0 <= w < |wants| && GotAll(Run(Initial(wants), steps).phase[w])
  {
    SmoothRun(Initial(wants), steps);
    SomeoneGetsThrough(wants, steps);
    var w :| 0 <= w < |wants| && GotThrough(Run(Initial(wants), steps).phase[w]);
    assert Smooth(Run(Initial(wants), steps).phase[w]) && GotAll(Run(Initial(wants), steps).phase[w]);
  }

  lemma FullIsUnique(s: State, c: nat)
    requires Inv(s) && c < |s.phase| && Passed(s.phase[c], |s.wants[c]|) == |s.wants[c]|
    ensures Unique(s.wants[c])
  {
  }

  // A committer that names an artifact twice refuses itself.
  lemma DuplicateNeverOwns(wants: seq<seq<nat>>, steps: seq<(nat, Action)>, c: nat)
    requires c < |wants| && !Unique(wants[c])
    ensures |Run(Initial(wants), steps).phase| == |wants|
    ensures var p := Run(Initial(wants), steps).phase[c]; !p.Owning? && !p.Unwinding? && !p.Won?
  {
    InitialInv(wants);
    RunInv(Initial(wants), steps);
    var s := Run(Initial(wants), steps);
    if Passed(s.phase[c], |s.wants[c]|) == |s.wants[c]| {
      FullIsUnique(s, c);
    }
  }
}

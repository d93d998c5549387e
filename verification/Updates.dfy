// apps/desktop/project_store.py: update_project, save and load of one project document
// by many threads of many processes, and the atomic replacement below them.
module Updates {
  import opened Wrappers

  // ---------------------------------------------------------------- _write_json

  // How one attempt to replace the destination by the temporary file ends.
  datatype Attempt = Replaced | SharingViolation | OtherError

  // Five pauses, so six attempts.
  const ATTEMPTS: nat := 6

  // The destination and the temporary file beside it.
  class JsonFile {
    var content: string
    var temporary: Option<string>

    constructor (content: string)
      ensures this.content == content && temporary == None
    {
      this.content, temporary := content, None;
    }

    // `written` says whether the temporary file could be written and flushed.
    method Write(payload: string, written: bool, replies: nat -> Attempt) returns (done: bool)
      modifies this
      ensures temporary == None
      ensures content == if done then payload else old(content)
      ensures done <==> (written && exists k ::
        0 <= k < ATTEMPTS && replies(k) == Replaced && forall j :: 0 <= j < k ==> replies(j) == SharingViolation)
    {
      done := false;
      temporary := Some(payload);
      if written {
        var attempt := 0;
        while attempt < ATTEMPTS && !done && (attempt == 0 || replies(attempt - 1) == SharingViolation)
          invariant 0 <= attempt <= ATTEMPTS
          invariant content == if done then payload else old(content)
          invariant !done ==> forall j :: 0 <= j < attempt ==>
            replies(j) == SharingViolation || (j == attempt - 1 && replies(j) == OtherError)
          invariant done ==> 0 < attempt && replies(attempt - 1) == Replaced
          invariant done ==> forall j :: 0 <= j < attempt - 1 ==> replies(j) == SharingViolation
          decreases ATTEMPTS - attempt
        {
          if replies(attempt) == Replaced {
            content, done := payload, true;
          }
          attempt := attempt + 1;
        }
      }
      temporary := None;
    }
  }

  // ------------------------------------------------------------- the step machine

  // Where a thread is inside update_project (or save, whose update ignores what it
  // loads) or load.
  datatype Pc<!D> =
    | Idle
    | Waiting                           // holds the RLock of the process
    | Entered(ticket: nat)              // holds the state lock too
    | Loaded(ticket: nat, seen: D)
    | Computed(ticket: nat, seen: D, update: D -> Option<D>, result: D)
    | Reading                           // a load that holds the RLock
    | Dead

  datatype Thread<!D> = Thread(process: nat, pc: Pc<D>)

  datatype Commit<!D> = Commit(ticket: nat, update: D -> Option<D>)

  // What a load returned, when `version` updates had been committed.
  datatype Read<D> = Read(value: D, version: nat)

  // `tickets` counts the acquisitions of the state lock.
  datatype State<!D> = State(
    threads: seq<Thread<D>>, locals: map<nat, nat>, owner: Option<nat>,
    doc: D, tickets: nat, log: seq<Commit<D>>, loads: seq<Read<D>>)

  datatype Step<!D> =
    | EnterProcess(t: nat, loading: bool)
    | EnterState(t: nat, timeout: bool)
    | ReadDocument(t: nat)
    | Compute(t: nat, update: D -> Option<D>)
    | WriteDocument(t: nat, works: bool)
    | Crash(process: nat)

  function Put<D>(s: State<D>, t: nat, pc: Pc<D>): State<D>
    requires t < |s.threads|
  {
    s.(threads := s.threads[t := s.threads[t].(pc := pc)])
  }

  // Leaving gives both locks back.
  function Leave<D>(s: State<D>, t: nat): State<D>
    requires t < |s.threads|
  {
    Put(s, t, Idle).(
      locals := s.locals - {s.threads[t].process},
      owner := if s.owner == Some(t) then None else s.owner)
  }

  function Killed<D>(threads: seq<Thread<D>>, p: nat): seq<Thread<D>> {
    seq(|threads|, i requires 0 <= i < |threads| =>
      if threads[i].process == p then Thread(p, Dead) else threads[i])
  }

  function Do<D>(s: State<D>, step: Step<D>): State<D> {
    match step
    case Crash(p) =>
      s.(threads := Killed(s.threads, p), locals := s.locals - {p},
         owner := if s.owner.Some? && s.owner.value < |s.threads| && s.threads[s.owner.value].process == p
                  then None else s.owner)
    case EnterProcess(t, loading) =>
      if t >= |s.threads| || !s.threads[t].pc.Idle? || s.threads[t].process in s.locals then s
      else Put(s, t, if loading then Reading else Waiting).(locals := s.locals[s.threads[t].process := t])
    case EnterState(t, timeout) =>
      if t >= |s.threads| || !s.threads[t].pc.Waiting? then s
      else if s.owner.None? then
        Put(s, t, Entered(s.tickets)).(owner := Some(t), tickets := s.tickets + 1)
      else if timeout then Leave(s, t) else s
    case ReadDocument(t) =>
      if t >= |s.threads| then s
      else if s.threads[t].pc.Entered? then Put(s, t, Loaded(s.threads[t].pc.ticket, s.doc))
      else if s.threads[t].pc.Reading? then Leave(s, t).(loads := s.loads + [Read(s.doc, |s.log|)])
      else s
    case Compute(t, update) =>
      if t >= |s.threads| || !s.threads[t].pc.Loaded? then s
      else
        var pc := s.threads[t].pc;
        var made := update(pc.seen);
        if made.None? then Leave(s, t)
        else Put(s, t, Computed(pc.ticket, pc.seen, update, made.value))
    case WriteDocument(t, works) =>
      if t >= |s.threads| || !s.threads[t].pc.Computed? then s
      else if !works then Leave(s, t)
      else
        var pc := s.threads[t].pc;
        Leave(s, t).(doc := pc.result, log := s.log + [Commit(pc.ticket, pc.update)])
  }

  function Run<D>(s: State<D>, steps: seq<Step<D>>): State<D>
    decreases |steps|
  {
    if steps == [] then s else Do(Run(s, steps[..|steps| - 1]), steps[|steps| - 1])
  }

  // The updates of a log applied one after the other.
  function Applied<D>(doc: D, log: seq<Commit<D>>): D
    decreases |log|
  {
    if log == [] then doc
    else
      var before := Applied(doc, log[..|log| - 1]);
      match log[|log| - 1].update(before)
      case Some(after) => after
      case None => before
  }

  // ------------------------------------------------------------------ the invariant

  predicate Inside<D>(pc: Pc<D>) { pc.Entered? || pc.Loaded? || pc.Computed? }

  ghost predicate Locked<D(!new)>(s: State<D>) {
    && (forall t :: 0 <= t < |s.threads| && Inside(s.threads[t].pc) ==> s.owner == Some(t))
    && (s.owner.Some? ==> s.owner.value < |s.threads| && Inside(s.threads[s.owner.value].pc))
    && (forall t :: 0 <= t < |s.threads| && !s.threads[t].pc.Idle? && !s.threads[t].pc.Dead? ==>
          s.threads[t].process in s.locals && s.locals[s.threads[t].process] == t)
  }

  // Whoever is inside has seen the document as it still is, and is the last to have
  // entered.
  ghost predicate UpToDate<D(!new)>(s: State<D>) {
    forall t :: 0 <= t < |s.threads| ==>
      var pc := s.threads[t].pc;
      && (Inside(pc) ==> pc.ticket + 1 == s.tickets && forall i :: 0 <= i < |s.log| ==> s.log[i].ticket < pc.ticket)
      && (pc.Loaded? || pc.Computed? ==> pc.seen == s.doc)
      && (pc.Computed? ==> pc.update(pc.seen) == Some(pc.result))
  }

  ghost predicate Serial<D(!new)>(s: State<D>, first: D) {
    && s.doc == Applied(first, s.log)
    && (forall i, j :: 0 <= i < j < |s.log| ==> s.log[i].ticket < s.log[j].ticket)
    && (forall i :: 0 <= i < |s.log| ==> s.log[i].ticket < s.tickets)
    // every committed update succeeded on the state that the ones before it made
    && (forall i :: 0 <= i < |s.log| ==>
          s.log[i].update(Applied(first, s.log[..i])) == Some(Applied(first, s.log[..i + 1])))
  }

  ghost predicate ReadsCommitted<D(!new)>(s: State<D>, first: D) {
    && (forall k :: 0 <= k < |s.loads| ==>
          s.loads[k].version <= |s.log| && s.loads[k].value == Applied(first, s.log[..s.loads[k].version]))
    && (forall j, k :: 0 <= j < k < |s.loads| ==> s.loads[j].version <= s.loads[k].version)
  }

  ghost predicate Inv<D(!new)>(s: State<D>, first: D) {
    Locked(s) && UpToDate(s) && Serial(s, first) && ReadsCommitted(s, first)
  }

  // Only a successful write touches the document and the log.
  lemma LockedStep<D(!new)>(s: State<D>, step: Step<D>)
    requires Locked(s)
    ensures Locked(Do(s, step))
  {
  }

  lemma UpToDateStep<D(!new)>(s: State<D>, step: Step<D>, first: D)
    requires Locked(s) && UpToDate(s) && Serial(s, first)
    ensures UpToDate(Do(s, step))
  {
    hide Applied;
  }

  lemma AppliedMore<D(!new)>(first: D, log: seq<Commit<D>>, c: Commit<D>)
    requires c.update(Applied(first, log)).Some?
    ensures Applied(first, log + [c]) == c.update(Applied(first, log)).value
    ensures forall i :: 0 <= i <= |log| ==> Applied(first, (log + [c])[..i]) == Applied(first, log[..i])
  {
    assert (log + [c])[..|log|] == log;
    assert forall i :: 0 <= i <= |log| ==> (log + [c])[..i] == log[..i];
  }

  lemma CommitKeeps<D(!new)>(s: State<D>, first: D, t: nat)
    requires Inv(s, first) && t < |s.threads| && s.threads[t].pc.Computed?
    ensures Serial(Do(s, WriteDocument(t, true)), first) && ReadsCommitted(Do(s, WriteDocument(t, true)), first)
  {
    var pc, after := s.threads[t].pc, Do(s, WriteDocument(t, true));
    var c := Commit(pc.ticket, pc.update);
    AppliedMore(first, s.log, c);
    hide Applied;
    assert after.log == s.log + [c];
    assert after.log[..|s.log|] == s.log && after.log[..|after.log|] == after.log;
    forall i | 0 <= i < |after.log|
      ensures after.log[i].update(Applied(first, after.log[..i])) == Some(Applied(first, after.log[..i + 1]))
    {
      if i < |s.log| {
        assert after.log[i] == s.log[i];
      }
    }
  }

  lemma StepInv<D(!new)>(s: State<D>, step: Step<D>, first: D)
    requires Inv(s, first)
    ensures Inv(Do(s, step), first)
  {
    LockedStep(s, step);
    UpToDateStep(s, step, first);
    hide Applied, Locked, UpToDate;
    if step.WriteDocument? && step.works && step.t < |s.threads| && s.threads[step.t].pc.Computed? {
      CommitKeeps(s, first, step.t);
    } else {
      assert Do(s, step).log == s.log && Do(s, step).doc == s.doc;
      assert s.log[..|s.log|] == s.log;
    }
  }

  ghost predicate Initial<D(!new)>(s: State<D>) {
    && s.locals == map[] && s.owner == None && s.log == [] && s.loads == []
    && forall t :: 0 <= t < |s.threads| ==> s.threads[t].pc == Idle
  }

  lemma {:induction false} RunInv<D(!new)>(s: State<D>, steps: seq<Step<D>>)
    requires Initial(s)
    ensures Inv(Run(s, steps), s.doc)
    decreases |steps|
  {
    if steps != [] {
      RunInv(s, steps[..|steps| - 1]);
      StepInv(Run(s, steps[..|steps| - 1]), steps[|steps| - 1], s.doc);
    }
  }

  // ------------------------------------------------------------------ the theorems

  // After any interleaving, with failed updates, failed writes and crashes, the durable
  // document is what the successful updates make of the first one, applied one after
  // the other in the order in which they took the state lock.
  lemma Serializable<D(!new)>(s: State<D>, steps: seq<Step<D>>)
    requires Initial(s)
    ensures var t := Run(s, steps);
      && t.doc == Applied(s.doc, t.log)
      && (forall i, j :: 0 <= i < j < |t.log| ==> t.log[i].ticket < t.log[j].ticket)
      && (forall i :: 0 <= i < |t.log| ==>
            t.log[i].update(Applied(s.doc, t.log[..i])) == Some(Applied(s.doc, t.log[..i + 1])))
  {
    RunInv(s, steps);
  }

  // Every load returns the document after a whole number of committed updates, and
  // never an older one than a load before it.
  lemma LoadsAreCommitted<D(!new)>(s: State<D>, steps: seq<Step<D>>)
    requires Initial(s)
    ensures var t := Run(s, steps);
      && (forall k :: 0 <= k < |t.loads| ==>
            t.loads[k].version <= |t.log| && t.loads[k].value == Applied(s.doc, t.log[..t.loads[k].version]))
      && (forall j, k :: 0 <= j < k < |t.loads| ==> t.loads[j].version <= t.loads[k].version)
  {
    RunInv(s, steps);
  }

  // No update is lost: between two committed updates nobody else has written, so the
  // later one saw the earlier one's result.
  lemma NobodyElseInside<D(!new)>(s: State<D>, steps: seq<Step<D>>, t: nat, u: nat)
    requires Initial(s)
    requires t < |Run(s, steps).threads| && Inside(Run(s, steps).threads[t].pc)
    requires u < |Run(s, steps).threads| && Inside(Run(s, steps).threads[u].pc)
    ensures t == u
    ensures var pc := Run(s, steps).threads[t].pc; pc.Loaded? || pc.Computed? ==> pc.seen == Run(s, steps).doc
  {
    RunInv(s, steps);
  }
}

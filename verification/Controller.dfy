// apps/desktop/pipeline.py, PipelineController: the stage machine of one project.
// The in-memory project is a field that every step mutates; a persist replaces the
// durable document; every durable state there ever was is kept in a ghost trace, so
// that a crash between any two writes leaves a state of that trace.
module Controller {
  import opened Wrappers
  import opened Projects

  const STAGES: seq<Stage> := [Ingest, Colmap, Fallback, Train, Validate, Export]

  // ------------------------------------------------------------- transitions

  function Start(p: Project, s: Stage): Project {
    WithStatus(p, s, Running).(currentStage := Some(s))
  }

  function Complete(p: Project, s: Stage, artifacts: seq<Path>): Project {
    WithState(p, s, StageState(Succeeded, artifacts))
  }

  function Terminate(p: Project, status: StageStatus): Project {
    if p.currentStage.Some? && StatusOf(p, p.currentStage.value) == Running
    then WithStatus(p, p.currentStage.value, status)
    else p
  }

  function MarkStale(p: Project): Project {
    p.(stages := map s | s in p.stages ::
                   if p.stages[s].status == Pending || p.stages[s].status == Running then p.stages[s]
                   else p.stages[s].(status := Stale),
       runId := None, currentStage := None)
  }

  const RESTARTED := "Desktop restarted while this task was running; resume to continue."

  function Interrupt(p: Project): Project {
    p.(stages := map s | s in p.stages ::
                   if p.stages[s].status == Running then p.stages[s].(status := Interrupted) else p.stages[s],
       status := Stopped, currentStage := None, warnings := p.warnings + [RESTARTED])
  }

  function Begin(p: Project, run: string): Project {
    p.(runId := Some(run), status := Active, currentStage := None)
  }

  // A finished stage whose artifacts are all where they were.
  predicate Reusable(p: Project, s: Stage, missing: set<Path>) {
    StatusOf(p, s) == Succeeded && forall a :: a in StateOf(p, s).artifacts ==> a !in missing
  }

  // ---------------------------------------------------------------- invariants

  // What every durable document satisfies.
  ghost predicate Sound(p: Project, viewer: bool) {
    && PendingIsEmpty(p)
    && ViewerImpliesExport(p, viewer)
    && (forall s, t :: StatusOf(p, s) == Running && StatusOf(p, t) == Running ==> s == t)
    && (forall s :: StatusOf(p, s) == Running ==> p.status == Active)
  }

  // What it is after the one failure that the handlers do not cope with: sound but for a
  // stage that is still running in a project that has failed.
  ghost predicate Stuck(p: Project, viewer: bool) {
    && PendingIsEmpty(p) && ViewerImpliesExport(p, viewer)
    && (forall s, t :: StatusOf(p, s) == Running && StatusOf(p, t) == Running ==> s == t)
    && (exists s :: StatusOf(p, s) == Running) && p.status == Broken && p.currentStage == None
  }

  // What it satisfies unless artifacts are removed from outside.
  ghost predicate Ordered(p: Project) {
    && (StatusOf(p, Train) == Succeeded ==> StatusOf(p, Colmap) == Succeeded || StatusOf(p, Fallback) == Succeeded)
    && (StatusOf(p, Fallback) == Running || StatusOf(p, Fallback) == Succeeded ==>
          StatusOf(p, Colmap) == FallbackRequired)
  }

  ghost predicate Good(p: Project, viewer: bool, lost: bool) {
    Sound(p, viewer) && (!lost ==> Ordered(p))
  }

  predicate AllTerminal(p: Project) { forall s :: s in STAGES ==> Terminal(StatusOf(p, s)) }

  // The in-memory project of a run under way.
  ghost predicate InRun(p: Project, run: string) {
    && p.hasInput && p.status == Active && p.runId == Some(run)
    && (forall s :: StatusOf(p, s) == Running ==> p.currentStage == Some(s))
  }

  predicate Quiet(p: Project) { forall s: Stage :: StatusOf(p, s) != Running }

  ghost predicate Unchanged(p: Project, q: Project, except: set<Stage>) {
    forall s :: s !in except ==> StatusOf(q, s) == StatusOf(p, s) && StateOf(q, s).artifacts == StateOf(p, s).artifacts
  }

  ghost predicate Reconstructed(p: Project) {
    || (StatusOf(p, Colmap) == Succeeded && StatusOf(p, Fallback) == Skipped)
    || (StatusOf(p, Colmap) == FallbackRequired && StatusOf(p, Fallback) == Succeeded)
  }

  // ------------------------------------------------- what each transition keeps

  lemma StatesAfter(p: Project, s: Stage, state: StageState)
    ensures forall t :: StateOf(WithState(p, s, state), t) == if t == s then state else StateOf(p, t)
    ensures forall t :: StatusOf(WithState(p, s, state), t) == if t == s then state.status else StatusOf(p, t)
    ensures PendingIsEmpty(p) && state.status != Pending ==> PendingIsEmpty(WithState(p, s, state))
  {
  }

  // Changing the status of one stage, when no other is running.
  lemma StepKeeps(p: Project, s: Stage, state: StageState, viewer: bool, run: string)
    requires Sound(p, viewer) && InRun(p, run) && state.status != Pending
    requires forall t :: StatusOf(p, t) == Running ==> t == s
    ensures var q := WithState(p, s, state).(currentStage := Some(s)); Sound(q, viewer) && InRun(q, run)
    ensures state.status != Running ==>
      var q := WithState(p, s, state); Sound(q, viewer) && InRun(q, run) && Quiet(q)
  {
    StatesAfter(p, s, state);
    var q := WithState(p, s, state);
    var r := q.(currentStage := Some(s));
    assert forall t :: StatusOf(r, t) == StatusOf(q, t);
  }

  lemma StartKeeps(p: Project, s: Stage, viewer: bool, lost: bool, run: string)
    requires Good(p, viewer, lost) && InRun(p, run) && Quiet(p)
    requires !lost && s == Colmap ==> StatusOf(p, Train) != Succeeded && StatusOf(p, Fallback) != Succeeded
    requires !lost && s == Fallback ==> StatusOf(p, Colmap) == FallbackRequired && StatusOf(p, Train) != Succeeded
    ensures Good(Start(p, s), viewer, lost) && InRun(Start(p, s), run)
    ensures Start(p, s).currentStage == Some(s)
    ensures StatusOf(Start(p, s), s) == Running && Unchanged(p, Start(p, s), {s})
  {
    var state := StateOf(p, s).(status := Running);
    StatesAfter(p, s, state);
    StepKeeps(p, s, state, viewer, run);
    assert forall t :: StateOf(Start(p, s), t) == StateOf(WithState(p, s, state), t);
    assert forall t :: StatusOf(Start(p, s), t) == StatusOf(WithState(p, s, state), t);
  }

  lemma CompleteKeeps(p: Project, s: Stage, artifacts: seq<Path>, viewer: bool, lost: bool, run: string)
    requires Good(p, viewer, lost) && InRun(p, run) && StatusOf(p, s) == Running
    requires !lost && s == Train ==> StatusOf(p, Colmap) == Succeeded || StatusOf(p, Fallback) == Succeeded
    ensures Good(Complete(p, s, artifacts), viewer, lost) && InRun(Complete(p, s, artifacts), run)
    ensures Quiet(Complete(p, s, artifacts)) && Unchanged(p, Complete(p, s, artifacts), {s})
    ensures StateOf(Complete(p, s, artifacts), s) == StageState(Succeeded, artifacts)
    ensures StatusOf(Complete(p, s, artifacts), s) == Succeeded
  {
    StatesAfter(p, s, StageState(Succeeded, artifacts));
    StepKeeps(p, s, StageState(Succeeded, artifacts), viewer, run);
  }

  // Colmap's failure opens the fallback; its success closes it.
  lemma ColmapFailedKeeps(p: Project, viewer: bool, lost: bool, run: string)
    requires Good(p, viewer, lost) && InRun(p, run) && StatusOf(p, Colmap) == Running
    ensures var q := WithStatus(p, Colmap, FallbackRequired);
      && Good(q, viewer, lost) && InRun(q, run) && Quiet(q)
      && StatusOf(q, Colmap) == FallbackRequired && Unchanged(p, q, {Colmap})
  {
    var state := StateOf(p, Colmap).(status := FallbackRequired);
    StatesAfter(p, Colmap, state);
    StepKeeps(p, Colmap, state, viewer, run);
  }

  lemma SkipKeeps(p: Project, viewer: bool, lost: bool, run: string)
    requires Good(p, viewer, lost) && InRun(p, run) && Quiet(p) && StatusOf(p, Colmap) == Succeeded
    ensures var q := WithStatus(p, Fallback, Skipped);
      && Good(q, viewer, lost) && InRun(q, run) && Quiet(q)
      && StatusOf(q, Fallback) == Skipped && Unchanged(p, q, {Fallback})
      && StateOf(q, Fallback).artifacts == StateOf(p, Fallback).artifacts
  {
    var state := StateOf(p, Fallback).(status := Skipped);
    StatesAfter(p, Fallback, state);
    StepKeeps(p, Fallback, state, viewer, run);
  }

  lemma TerminateKeeps(p: Project, status: StageStatus, viewer: bool, lost: bool, run: string, ended: ProjectStatus)
    requires Good(p, viewer, lost) && InRun(p, run) && (status == Interrupted || status == Failed)
    ensures var q := Terminate(p, status).(status := ended, currentStage := None);
      Good(q, viewer, lost) && Quiet(q) && q.runId == Some(run)
  {
    var r := Terminate(p, status);
    if p.currentStage.Some? {
      StatesAfter(p, p.currentStage.value, StateOf(p, p.currentStage.value).(status := status));
    }
    var q := r.(status := ended, currentStage := None);
    assert forall t :: StatusOf(r, t) == if StatusOf(p, t) == Running then status else StatusOf(p, t);
    assert forall t :: StatusOf(q, t) == StatusOf(r, t);
  }

  lemma TerminateMarks(p: Project, status: StageStatus, run: string, ended: ProjectStatus)
    requires InRun(p, run)
    ensures forall s :: StatusOf(p, s) == Running ==> StatusOf(Terminate(p, status).(status := ended), s) == status
  {
    if p.currentStage.Some? {
      StatesAfter(p, p.currentStage.value, StateOf(p, p.currentStage.value).(status := status));
    }
    assert forall s :: StatusOf(Terminate(p, status).(status := ended), s) == StatusOf(Terminate(p, status), s);
  }

  lemma BeginKeeps(p: Project, run: string, viewer: bool, lost: bool)
    requires Good(p, viewer, lost) && p.status != Active && p.hasInput
    ensures Good(Begin(p, run), viewer, lost) && InRun(Begin(p, run), run) && Quiet(Begin(p, run))
    ensures forall t :: StateOf(Begin(p, run), t) == StateOf(p, t)
  {
    assert forall t :: StatusOf(Begin(p, run), t) == StatusOf(p, t);
  }

  lemma MarkStaleKeeps(p: Project, viewer: bool, lost: bool)
    requires Good(p, viewer, lost) && p.status != Active
    ensures Good(MarkStale(p), viewer, lost) && Quiet(MarkStale(p))
  {
    forall t ensures StatusOf(p, t) != Running && StatusOf(MarkStale(p), t) != Running {}
  }

  lemma InterruptKeeps(p: Project, viewer: bool, lost: bool)
    requires Good(p, viewer, lost)
    ensures Good(Interrupt(p), viewer, lost) && Quiet(Interrupt(p))
  {
  }

  lemma CleanedKeeps(p: Project, t: Target, viewer: bool, lost: bool)
    requires Good(p, viewer, lost) && p.status != Active
    ensures Good(Cleaned(p, t), false, lost) && Quiet(Cleaned(p, t))
  {
    CleanedLooksCleaned(p, t);
    assert forall s :: StatusOf(Cleaned(p, t), s) == if s in ResetStages(t) then Pending else StatusOf(p, s);
  }

  // Colmap is started again whenever neither reconstruction can be reused, and that keeps
  // the order exactly when none of the later facts is recorded -- which the code does not
  // check.
  lemma RestartKeepsOrder(p: Project)
    requires Ordered(p)
    ensures Ordered(Start(p, Colmap)) <==>
      StatusOf(p, Train) != Succeeded && StatusOf(p, Fallback) != Running && StatusOf(p, Fallback) != Succeeded
  {
    assert forall t :: StatusOf(Start(p, Colmap), t) == if t == Colmap then Running else StatusOf(p, t);
  }

  // What breaks the order: artifacts were removed so that neither reconstruction can be
  // reused, although training or the fallback is recorded as done.
  predicate Breaks(p: Project, missing: set<Path>) {
    && !Reusable(p, Colmap, missing) && !Reusable(p, Fallback, missing)
    && (StatusOf(p, Train) == Succeeded || StatusOf(p, Fallback) == Succeeded)
  }

  // Colmap was started and has come to no result.
  predicate Begun(p: Project) { StatusOf(p, Colmap) in {Running, Interrupted, StageStatus.Failed} }

  predicate Overtaken(p: Project) {
    Begun(p) && (StatusOf(p, Train) == Succeeded || StatusOf(p, Fallback) == Succeeded)
  }

  lemma OvertakenIsUnordered(p: Project)
    ensures Overtaken(p) ==> Begun(p) && !Ordered(p)
  {
  }

  // The statuses that the order is about.
  predicate SameSoFar(p: Project, q: Project) {
    && StatusOf(q, Colmap) == StatusOf(p, Colmap) && StatusOf(q, Fallback) == StatusOf(p, Fallback)
    && StatusOf(q, Train) == StatusOf(p, Train)
  }

  // What the handlers do to the stages: one that was running may have been terminated.
  ghost predicate Ended(p: Project, q: Project) {
    forall s :: StatusOf(q, s) == StatusOf(p, s)
                || (StatusOf(p, s) == Running && StatusOf(q, s) in {Interrupted, StageStatus.Failed})
  }

  lemma EndedKeeps(p: Project, q: Project)
    requires Ended(p, q)
    ensures Ordered(p) ==> Ordered(q)
    ensures Overtaken(p) ==> Overtaken(q)
    ensures forall o :: Quiet(o) && SameSoFar(o, p) ==> SameSoFar(o, q)
  {
  }

  lemma EndedSame(p: Project, q: Project)
    requires q.stages == p.stages
    ensures Ended(p, q)
  {
  }

  lemma EndedChain(p: Project, q: Project, r: Project)
    requires Ended(p, q) && Ended(q, r)
    ensures Ended(p, r)
  {
  }

  // ------------------------------------------------------------ the environment

  // How a step of a run ends: normally, with one of the exceptions that `run`
  // tells apart, or with the death of the process.
  datatype Signal = Fine | Cancelled | StoreError | LockError | Failure | Crash {
    predicate IsFailure() { this != Fine }
    function PropagateFailure(): Signal { this }
  }

  // What becomes of one write of the project document.
  datatype Reply = Written | Unwritable | Busy | Death

  // What becomes of the work of a stage: a result of the worker, or an exception.
  datatype Verdict = Succeeds(artifacts: seq<Path>) | Fails | Stops(signal: Signal)

  datatype Env = Env(
    persist: nat -> Reply, cancelled: nat -> bool, work: Stage -> Verdict, prepare: Signal,
    publish: Fate, missing: set<Path>, ingestCurrent: bool)

  // The stages whose first artifact a later run reuses.
  const CACHED: set<Stage> := {Ingest, Colmap, Fallback, Train}

  // Every write of the document succeeds; the run is cancelled before it begins.
  ghost predicate AllWritten(env: Env) { forall n :: env.persist(n) == Written }

  ghost predicate AllCancelled(env: Env) { forall n :: env.cancelled(n) }

  // Nothing goes wrong, except that colmap may fail its quality gate.
  ghost predicate AllWell(env: Env) {
    && AllWritten(env) && (forall n :: !env.cancelled(n))
    && env.prepare == Fine && env.publish == Works && env.missing == {}
    && forall s :: (env.work(s).Succeeds? && env.work(s).artifacts != []) || (s == Colmap && env.work(s) == Fails)
  }

  // No lock of the store is ever waited for in vain.
  ghost predicate NoTimeouts(env: Env) {
    (forall n :: env.persist(n) != Busy) && env.prepare != LockError && forall s :: env.work(s) != Stops(LockError)
  }

  // Nobody cancels the run, or the work of a stage.
  ghost predicate NeverCancelled(env: Env) {
    (forall n :: !env.cancelled(n)) && env.prepare != Cancelled && forall s :: env.work(s) != Stops(Cancelled)
  }

  // The status that the cause of the end leaves behind.
  function EndStatus(cause: Signal): ProjectStatus {
    if cause == Fine then Finished else if cause == Cancelled then Stopped else Broken
  }

  // What the answer to a write means to a run that owns the document.
  function Answer(r: Reply): Signal {
    match r
    case Written => Fine
    case Unwritable => StoreError
    case Busy => LockError
    case Death => Crash
  }

  // The one way to an unsound document: a lock timeout ended the run while a stage was
  // running, the final write (the one numbered `final`) failed, and the write that reports
  // this failure succeeded.
  predicate Forgotten(env: Env, cause: Signal, stopped: Project, final: nat) {
    cause == LockError && !Quiet(stopped) && env.persist(final) == Unwritable && env.persist(final + 1) == Written
  }

  // An environment in which the first stage of the run waits in vain for the lock.
  ghost predicate BusyAtIngest(env: Env, p: Project, n: nat) {
    && env.persist(n) == Written && !env.cancelled(n + 1) && env.persist(n + 2) == Busy
    && !(Reusable(p, Ingest, env.missing) && env.ingestCurrent)
  }

  ghost predicate Indexed(p: Project) {
    forall s :: s in CACHED && StatusOf(p, s) == Succeeded ==> StateOf(p, s).artifacts != []
  }

  // Colmap is reused, or run and not refused by its quality gate.
  ghost predicate ColmapPasses(env: Env, p: Project) {
    Reusable(p, Colmap, env.missing) || (!Reusable(p, Fallback, env.missing) && env.work(Colmap).Succeeds?)
  }

  // Colmap succeeded, with the artifacts of the worker if it was run; the fallback is
  // skipped and keeps the artifacts it had.
  ghost predicate SkippedOver(env: Env, p: Project, q: Project) {
    && StatusOf(q, Colmap) == Succeeded && StatusOf(q, Fallback) == Skipped
    && StateOf(q, Fallback).artifacts == StateOf(p, Fallback).artifacts
    && (!Reusable(p, Colmap, env.missing) ==>
          env.work(Colmap).Succeeds? && StateOf(q, Colmap).artifacts == env.work(Colmap).artifacts)
  }

  datatype Snapshot = Snapshot(project: Project, viewer: bool, lost: bool)

  // Of the documents written from number `from` up to number `to`: one is not ordered, one
  // shows colmap begun, one shows it begun too late.
  ghost predicate Unordered(docs: seq<Snapshot>, from: nat, to: nat) {
    exists i :: from <= i < to <= |docs| && !Ordered(docs[i].project)
  }

  ghost predicate BegunIn(docs: seq<Snapshot>, from: nat, to: nat) {
    exists i :: from <= i < to <= |docs| && Begun(docs[i].project)
  }

  ghost predicate Overtook(docs: seq<Snapshot>, from: nat) {
    exists i :: from <= i < |docs| && Overtaken(docs[i].project)
  }

  ghost predicate AllSame(p: Project, docs: seq<Snapshot>, from: nat) {
    forall i :: from <= i < |docs| ==> SameSoFar(p, docs[i].project)
  }

  // How a run goes that breaks the order of the document o it began with; p is the project
  // in memory.
  ghost predicate Course(o: Project, p: Project, docs: seq<Snapshot>, from: nat) {
    Overtook(docs, from) || ((SameSoFar(o, p) || Overtaken(p)) && AllSame(o, docs, from))
  }

  // Everything written since changes only the given stages.
  ghost predicate Wrote(docs: seq<Snapshot>, docs': seq<Snapshot>, p: Project, except: set<Stage>) {
    docs <= docs' && forall i :: |docs| <= i < |docs'| ==> Unchanged(p, docs'[i].project, except)
  }

  ghost predicate WroteEnds(docs: seq<Snapshot>, docs': seq<Snapshot>, p: Project) {
    docs <= docs' && forall i :: |docs| <= i < |docs'| ==> Ended(p, docs'[i].project)
  }

  // Nothing fails and nobody cancels until ingest is done.
  ghost predicate Undisturbed(env: Env) {
    AllWritten(env) && (forall n :: !env.cancelled(n)) && env.work(Ingest).Succeeds?
  }

  datatype Exit = Refused | Returned | Escaped | Crashed

  class Controller {
    var durable: Project
    var viewer: bool
    var project: Project
    var running: bool
    var calls: nat
    ghost var lost: bool                 // the operation under way may lose the order
    ghost var trace: seq<Snapshot>
    ghost var before: seq<Snapshot>

    constructor (p: Project)
      requires Good(p, false, false)
      ensures Valid() && durable == p && !running && !lost && calls == 0 && trace == [Snapshot(p, false, false)]
    {
      durable, project, viewer, running, calls := p, p, false, false, 0;
      lost, trace, before := false, [Snapshot(p, false, false)], [];
    }

    // Every durable state there ever was is sound.
    ghost predicate Valid()
      reads `durable, `viewer, `lost, `trace
    {
      && Good(durable, viewer, lost)
      && 0 < |trace| && trace[|trace| - 1].project == durable
      && forall i :: 0 <= i < |trace| ==> Good(trace[i].project, trace[i].viewer, trace[i].lost)
    }

    // The last document is that of a failed project with a running stage, and every one
    // before it was sound.
    ghost predicate Damaged()
      reads `durable, `viewer, `lost, `trace
    {
      && 1 < |trace| && trace[|trace| - 1] == Snapshot(durable, viewer, lost) && Stuck(durable, viewer)
      && forall i :: 0 <= i < |trace| - 1 ==> Good(trace[i].project, trace[i].viewer, trace[i].lost)
    }

    // Whatever this run has written carries its name and claims success truthfully.
    ghost predicate Honest(run: string)
      reads `trace, `before, `lost
    {
      && before <= trace
      && forall i :: |before| <= i < |trace| ==>
           && trace[i].project.runId == Some(run) && trace[i].lost == lost
           && (trace[i].project.status == Finished ==> AllTerminal(trace[i].project))
    }

    // The invariant of a run under way.
    ghost predicate UnderWay(run: string)
      reads `durable, `viewer, `project, `lost, `trace, `before
    {
      && Valid() && Honest(run)
      && Good(project, viewer, lost) && InRun(project, run)
      && durable.runId == Some(run) && durable.status == Active
    }

    // _persist: the guards on the run identity, then the atomic replacement.
    method Persist(env: Env, begin: bool) returns (sig: Signal)
      requires Valid()
      modifies this`durable, this`trace, this`calls
      ensures calls == old(calls) + 1
      ensures sig != Fine || Good(project, viewer, lost) ==> Valid()
      ensures sig == Fine && Stuck(project, viewer) ==> Damaged()
      ensures old(durable).runId == project.runId || (begin && old(durable).status != Active) ==>
        sig == Answer(env.persist(old(calls)))
      ensures sig == Fine ==> durable == project && trace == old(trace) + [Snapshot(project, viewer, lost)]
      ensures sig != Fine ==> durable == old(durable) && trace == old(trace)
      ensures sig == Fine && !begin ==> old(durable).runId == project.runId
      ensures sig == Fine && project.runId.Some? ==>
        Accepted(old(durable).runId, old(durable).status == Active, Write(project.runId.value, begin))
      ensures sig == Failure ==> durable.runId != project.runId
      ensures sig != Cancelled
      ensures AllWritten(env) && !begin && durable.runId == project.runId ==> sig == Fine
      ensures AllWritten(env) && begin && old(durable).status != Active ==> sig == Fine
      ensures sig == LockError ==> !NoTimeouts(env)
    {
      hide Good, Sound;
      var reply := env.persist(calls);
      calls := calls + 1;
      if reply == Death {
        return Crash;
      } else if reply == Busy {
        return LockError;
      } else if durable.runId != project.runId && (!begin || durable.status == Active) {
        return Failure;
      } else if reply == Unwritable {
        return StoreError;
      }
      durable := project;
      trace := trace + [Snapshot(project, viewer, lost)];
      return Fine;
    }

    method CheckCancelled(env: Env) returns (sig: Signal)
      modifies this`calls
      ensures calls == old(calls) + 1
      ensures sig == if env.cancelled(old(calls)) then Cancelled else Fine
      ensures sig == Cancelled ==> !NeverCancelled(env)
    {
      sig := if env.cancelled(calls) then Cancelled else Fine;
      calls := calls + 1;
    }

    method Save(env: Env, ghost run: string, ghost well: bool) returns (sig: Signal)
      requires UnderWay(run) && (well ==> AllWell(env))
      modifies this`durable, this`trace, this`calls
      ensures UnderWay(run) && (well ==> sig == Fine)
      ensures sig == Answer(env.persist(old(calls))) && calls == old(calls) + 1
      ensures sig == Fine ==> durable == project
      ensures trace == if sig == Fine then old(trace) + [Snapshot(project, viewer, lost)] else old(trace)
      ensures sig == LockError ==> !NoTimeouts(env)
      ensures sig != Cancelled
    {
      hide Good;
      sig := Persist(env, false);
    }

    // _stage
    method StartStage(env: Env, s: Stage, ghost run: string, ghost well: bool) returns (sig: Signal)
      requires UnderWay(run) && Quiet(project) && (well ==> AllWell(env))
      requires !lost && s == Colmap ==>
        StatusOf(project, Train) != Succeeded && StatusOf(project, Fallback) != Succeeded
      requires !lost && s == Fallback ==>
        StatusOf(project, Colmap) == FallbackRequired && StatusOf(project, Train) != Succeeded
      modifies this`project, this`durable, this`trace, this`calls
      ensures UnderWay(run) && (well ==> sig == Fine)
      ensures sig == Answer(env.persist(old(calls))) && calls == old(calls) + 1
      ensures StatusOf(project, s) == Running && project.currentStage == Some(s)
      ensures trace == if sig == Fine then old(trace) + [Snapshot(project, viewer, lost)] else old(trace)
      ensures Unchanged(old(project), project, {s})
      ensures sig == LockError ==> !NoTimeouts(env)
      ensures sig != Cancelled
    {
      hide Good, Start, Unchanged, StatusOf, StateOf;
      if project.status != Active || project.runId == None {
        return Failure;
      }
      if project.currentStage.Some? {
        var c := project.currentStage.value;
        if StatusOf(project, c) == Running && c != s {
          return Failure;
        }
      }
      StartKeeps(project, s, viewer, lost, run);
      project := Start(project, s);
      sig := Save(env, run, well);
    }

    // _complete
    method CompleteStage(env: Env, s: Stage, artifacts: seq<Path>, ghost run: string, ghost well: bool)
      returns (sig: Signal)
      requires UnderWay(run) && StatusOf(project, s) == Running && (well ==> AllWell(env))
      requires !lost && s == Train ==>
        StatusOf(project, Colmap) == Succeeded || StatusOf(project, Fallback) == Succeeded
      modifies this`project, this`durable, this`trace, this`calls
      ensures UnderWay(run) && (well ==> sig == Fine)
      ensures sig == Fine ==> Quiet(project) && StatusOf(project, s) == Succeeded && durable == project
      ensures sig == Fine ==> StateOf(project, s).artifacts == artifacts
      ensures trace == if sig == Fine then old(trace) + [Snapshot(project, viewer, lost)] else old(trace)
      ensures AllWritten(env) ==> sig == Fine
      ensures Unchanged(old(project), project, {s})
      ensures sig == LockError ==> !NoTimeouts(env)
      ensures sig != Cancelled
    {
      hide Good, Complete, Unchanged, StatusOf, StateOf;
      if project.currentStage != Some(s) || StatusOf(project, s) != Running {
        return Failure;
      }
      CompleteKeeps(project, s, artifacts, viewer, lost, run);
      project := Complete(project, s, artifacts);
      sig := Save(env, run, well);
    }

    // The first artifact of a finished stage; an empty list raises.
    method First(artifacts: seq<Path>) returns (sig: Signal)
      ensures sig == Fine || sig == Failure
      ensures artifacts != [] ==> sig == Fine
    {
      sig := if artifacts == [] then Failure else Fine;
    }

    // _ingest
    method RunIngest(env: Env, ghost run: string, ghost well: bool) returns (sig: Signal)
      requires UnderWay(run) && Quiet(project)
      requires well ==> AllWell(env) && Indexed(project)
      modifies this`project, this`durable, this`trace, this`calls
      ensures UnderWay(run) && (well ==> sig == Fine && Indexed(project))
      ensures sig == Fine ==> Quiet(project) && StatusOf(project, Ingest) == Succeeded
      ensures !(Reusable(old(project), Ingest, env.missing) && env.ingestCurrent) && env.persist(old(calls)) == Busy ==>
        sig == LockError && StatusOf(project, Ingest) == Running && calls == old(calls) + 1
      ensures Wrote(old(trace), trace, old(project), {Ingest})
      ensures Undisturbed(env) && Indexed(old(project)) ==> sig == Fine
      ensures Unchanged(old(project), project, {Ingest})
      ensures sig == LockError ==> !NoTimeouts(env)
      ensures sig == Cancelled ==> !NeverCancelled(env)
    {
      hide Good, Quiet, InRun, UnderWay, Valid, Honest, StatusOf, StateOf;
      if Reusable(project, Ingest, env.missing) && env.ingestCurrent {
        sig := First(StateOf(project, Ingest).artifacts);
        return;
      }
      :- StartStage(env, Ingest, run, well);
      match env.work(Ingest)
      case Stops(signal) =>
        return if signal == Fine then Failure else signal;
      case Fails =>
        return Failure;
      case Succeeds(artifacts) =>
        :- CompleteStage(env, Ingest, artifacts, run, well);
        return Fine;
    }

    // _skip(fallback)
    method SkipFallback(env: Env, ghost run: string, ghost well: bool) returns (sig: Signal)
      requires UnderWay(run) && Quiet(project) && StatusOf(project, Colmap) == Succeeded
      requires well ==> AllWell(env) && Indexed(project)
      modifies this`project, this`durable, this`trace, this`calls
      ensures UnderWay(run) && Quiet(project) && (well ==> sig == Fine && Indexed(project))
      ensures StatusOf(project, Fallback) == Skipped && Unchanged(old(project), project, {Fallback})
      ensures StateOf(project, Fallback).artifacts == StateOf(old(project), Fallback).artifacts
      ensures old(trace) <= trace
      ensures sig == LockError ==> !NoTimeouts(env)
      ensures sig != Cancelled
    {
      hide Good, Quiet, InRun, StatusOf, StateOf, WithStatus;
      SkipKeeps(project, viewer, lost, run);
      project := WithStatus(project, Fallback, Skipped);
      sig := Save(env, run, well);
    }

    // _reconstruct
    method Reconstruct(env: Env, ghost run: string, ghost well: bool) returns (sig: Signal)
      requires UnderWay(run) && Quiet(project) && (!lost ==> !Breaks(project, env.missing))
      requires well ==> AllWell(env) && Indexed(project)
      modifies this`project, this`durable, this`trace, this`calls
      ensures UnderWay(run) && (well ==> sig == Fine && Indexed(project))
      ensures sig == Fine ==> Quiet(project)
      ensures sig == Fine && !lost ==> Reconstructed(project)
      ensures sig == Fine ==> StatusOf(project, Colmap) == Succeeded || StatusOf(project, Fallback) == Succeeded
      ensures Unchanged(old(project), project, {Colmap, Fallback})
      ensures sig == Fine && ColmapPasses(env, old(project)) ==> SkippedOver(env, old(project), project)
      ensures old(trace) <= trace
      ensures Breaks(old(project), env.missing) ==>
        && Course(old(project), project, trace, |old(trace)|)
        && (sig == Fine || env.persist(old(calls)) == Written ==> Overtook(trace, |old(trace)|))
      ensures sig == LockError ==> !NoTimeouts(env)
      ensures sig == Cancelled ==> !NeverCancelled(env)
    {
      hide Good, Quiet, InRun, Valid, Honest, StatusOf, StateOf, WithStatus;
      if Reusable(project, Colmap, env.missing) {
        if StatusOf(project, Fallback) != Skipped {
          :- SkipFallback(env, run, well);
        }
        sig := First(StateOf(project, Colmap).artifacts);
        return;
      }
      CacheMissed(project, viewer, lost, env.missing);
      if Reusable(project, Fallback, env.missing) {
        sig := First(StateOf(project, Fallback).artifacts);
        return;
      }
      sig := RunColmap(env, run, well);
    }

    // The rest of _reconstruct: colmap, and the fallback when its quality gate fails.
    method RunColmap(env: Env, ghost run: string, ghost well: bool) returns (sig: Signal)
      requires UnderWay(run) && Quiet(project)
      requires !lost ==> StatusOf(project, Train) != Succeeded && StatusOf(project, Fallback) != Succeeded
      requires well ==> AllWell(env) && Indexed(project)
      modifies this`project, this`durable, this`trace, this`calls
      ensures UnderWay(run) && (well ==> sig == Fine && Indexed(project))
      ensures sig == Fine ==> Quiet(project) && Reconstructed(project)
      ensures Unchanged(old(project), project, {Colmap, Fallback})
      ensures sig == Fine && env.work(Colmap).Succeeds? && !Reusable(old(project), Colmap, env.missing) ==>
        SkippedOver(env, old(project), project)
      ensures old(trace) <= trace
      ensures StatusOf(old(project), Train) == Succeeded || StatusOf(old(project), Fallback) == Succeeded ==>
        && Course(old(project), project, trace, |old(trace)|)
        && (sig == Fine || env.persist(old(calls)) == Written ==> Overtook(trace, |old(trace)|))
      ensures sig == LockError ==> !NoTimeouts(env)
      ensures sig == Cancelled ==> !NeverCancelled(env)
    {
      hide Good, Quiet, InRun, UnderWay, Valid, Honest, StatusOf, StateOf, WithStatus, Unchanged, Course, Overtook,
        Reconstructed, SkippedOver, Reusable;
      ghost var p0, t0 := project, trace;
      sig := StartStage(env, Colmap, run, well);
      ghost var p1, t1 := project, trace;
      ColmapBegins(p0, p1, t0, t1);
      if sig != Fine {
        return;
      }
      sig := JudgeColmap(env, run, well);
      CourseGoesOn(p0, p1, project, t1, trace, |t0|);
      ColmapJudged(env, p0, p1, project);
    }

    // Colmap's work, its quality gate, and what follows from it.
    method JudgeColmap(env: Env, ghost run: string, ghost well: bool) returns (sig: Signal)
      requires UnderWay(run) && StatusOf(project, Colmap) == Running
      requires !lost ==> StatusOf(project, Train) != Succeeded && StatusOf(project, Fallback) != Succeeded
      requires well ==> AllWell(env) && Indexed(project)
      modifies this`project, this`durable, this`trace, this`calls
      ensures UnderWay(run) && (well ==> sig == Fine && Indexed(project))
      ensures sig == Fine ==> Quiet(project) && Reconstructed(project)
      ensures Unchanged(old(project), project, {Colmap, Fallback})
      ensures sig == Fine && env.work(Colmap).Succeeds? ==>
        && StatusOf(project, Colmap) == Succeeded && StateOf(project, Colmap).artifacts == env.work(Colmap).artifacts
        && StatusOf(project, Fallback) == Skipped
        && StateOf(project, Fallback).artifacts == StateOf(old(project), Fallback).artifacts
      ensures old(trace) <= trace
      ensures sig == LockError ==> !NoTimeouts(env)
      ensures sig == Cancelled ==> !NeverCancelled(env)
    {
      hide Good, Quiet, InRun, UnderWay, Valid, Honest, StatusOf, StateOf, WithStatus;
      if env.work(Colmap).Stops? {
        return if env.work(Colmap).signal == Fine then Failure else env.work(Colmap).signal;
      }
      :- CheckCancelled(env);
      if env.work(Colmap).Succeeds? {
        :- CompleteStage(env, Colmap, env.work(Colmap).artifacts, run, well);
        :- SkipFallback(env, run, well);
        sig := First(env.work(Colmap).artifacts);
        return;
      }
      :- CheckCancelled(env);
      :- RequireFallback(env, run, well);
      sig := RunFallback(env, run, well);
    }

    // Colmap failed its quality gate.
    method RequireFallback(env: Env, ghost run: string, ghost well: bool) returns (sig: Signal)
      requires UnderWay(run) && StatusOf(project, Colmap) == Running
      requires well ==> AllWell(env)
      modifies this`project, this`durable, this`trace, this`calls
      ensures UnderWay(run) && Quiet(project) && (well ==> sig == Fine)
      ensures StatusOf(project, Colmap) == FallbackRequired && Unchanged(old(project), project, {Colmap})
      ensures old(trace) <= trace
      ensures sig == LockError ==> !NoTimeouts(env)
      ensures sig != Cancelled
    {
      hide Good, Quiet, InRun, StatusOf, StateOf, WithStatus;
      ColmapFailedKeeps(project, viewer, lost, run);
      project := WithStatus(project, Colmap, FallbackRequired);
      sig := Save(env, run, well);
    }

    // _fallback
    method RunFallback(env: Env, ghost run: string, ghost well: bool) returns (sig: Signal)
      requires UnderWay(run) && Quiet(project) && StatusOf(project, Colmap) == FallbackRequired
      requires !lost ==> StatusOf(project, Train) != Succeeded
      requires well ==> AllWell(env) && Indexed(project)
      modifies this`project, this`durable, this`trace, this`calls
      ensures UnderWay(run) && (well ==> sig == Fine && Indexed(project))
      ensures sig == Fine ==> Quiet(project) && StatusOf(project, Fallback) == Succeeded
      ensures Unchanged(old(project), project, {Fallback}) && old(trace) <= trace
      ensures sig == LockError ==> !NoTimeouts(env)
      ensures sig == Cancelled ==> !NeverCancelled(env)
    {
      hide Good, Quiet, InRun, UnderWay, Valid, Honest, StatusOf, StateOf, WithStatus;
      :- StartStage(env, Fallback, run, well);
      if env.work(Fallback).Stops? {
        return if env.work(Fallback).signal == Fine then Failure else env.work(Fallback).signal;
      }
      :- CheckCancelled(env);
      if env.work(Fallback) == Fails {
        return Failure;
      }
      :- CompleteStage(env, Fallback, env.work(Fallback).artifacts, run, well);
      sig := First(env.work(Fallback).artifacts);
    }

    // _train
    method RunTrain(env: Env, ghost run: string, ghost well: bool) returns (sig: Signal)
      requires UnderWay(run) && Quiet(project)
      requires !lost ==> StatusOf(project, Colmap) == Succeeded || StatusOf(project, Fallback) == Succeeded
      requires well ==> AllWell(env) && Indexed(project)
      modifies this`project, this`durable, this`trace, this`calls
      ensures UnderWay(run) && (well ==> sig == Fine && Indexed(project))
      ensures sig == Fine ==> Quiet(project) && StatusOf(project, Train) == Succeeded
      ensures Unchanged(old(project), project, {Train}) && old(trace) <= trace
      ensures sig == LockError ==> !NoTimeouts(env)
      ensures sig == Cancelled ==> !NeverCancelled(env)
    {
      hide Good, Quiet, InRun, UnderWay, Valid, Honest, StatusOf, StateOf, WithStatus;
      if Reusable(project, Train, env.missing) {
        sig := First(StateOf(project, Train).artifacts);
        return;
      }
      :- StartStage(env, Train, run, well);
      if env.work(Train).Stops? {
        return if env.work(Train).signal == Fine then Failure else env.work(Train).signal;
      }
      :- CheckCancelled(env);
      if env.work(Train) == Fails {
        :- CheckCancelled(env);
        return Failure;
      }
      :- CompleteStage(env, Train, env.work(Train).artifacts, run, well);
      sig := First(env.work(Train).artifacts);
    }

    // _validate_and_export: the viewer manifest is written after the export is durable.
    method ValidateAndExport(env: Env, ghost run: string, ghost well: bool) returns (sig: Signal)
      requires UnderWay(run) && Quiet(project)
      requires well ==> AllWell(env)
      modifies this`project, this`durable, this`trace, this`calls, this`viewer
      ensures UnderWay(run) && (well ==> sig == Fine)
      ensures sig == Fine ==> Quiet(project) && viewer
      ensures sig == Fine ==> StatusOf(project, Validate) == Succeeded && StatusOf(project, Export) == Succeeded
      ensures Unchanged(old(project), project, {Validate, Export}) && old(trace) <= trace
      ensures sig == LockError ==> !NoTimeouts(env)
      ensures sig == Cancelled ==> !NeverCancelled(env)
    {
      hide Good, Quiet, InRun, UnderWay, Valid, Honest, StatusOf, StateOf, WithStatus;
      :- CheckCancelled(env);
      :- Produce(env, Validate, run, well);
      :- CheckCancelled(env);
      :- Produce(env, Export, run, well);
      sig := Publish(env, run);
    }

    // The atomic write of the viewer manifest.
    method Publish(env: Env, ghost run: string) returns (sig: Signal)
      requires UnderWay(run) && durable == project && StatusOf(project, Export) == Succeeded
      modifies this`trace, this`viewer
      ensures UnderWay(run) && old(trace) <= trace
      ensures sig == Fine ==> viewer
      ensures sig == if env.publish == Works then Fine else if env.publish == Raises then Failure else Crash
    {
      hide Good, Quiet, InRun, StatusOf, StateOf;
      if env.publish != Works {
        return if env.publish == Raises then Failure else Crash;
      }
      PublishKeeps(project, viewer, lost);
      viewer := true;
      trace := trace + [Snapshot(durable, viewer, lost)];
      return Fine;
    }

    // The body of the validate and of the export stage.
    method Produce(env: Env, s: Stage, ghost run: string, ghost well: bool) returns (sig: Signal)
      requires UnderWay(run) && Quiet(project) && (s == Validate || s == Export)
      requires well ==> AllWell(env)
      modifies this`project, this`durable, this`trace, this`calls
      ensures UnderWay(run) && (well ==> sig == Fine)
      ensures sig == Fine ==> Quiet(project) && durable == project && StatusOf(project, s) == Succeeded
      ensures Unchanged(old(project), project, {s}) && old(trace) <= trace
      ensures sig == LockError ==> !NoTimeouts(env)
      ensures sig == Cancelled ==> !NeverCancelled(env)
    {
      hide Good, Quiet, InRun, UnderWay, Valid, Honest, StatusOf, StateOf, WithStatus;
      :- StartStage(env, s, run, well);
      match env.work(s)
      case Stops(signal) =>
        return if signal == Fine then Failure else signal;
      case Fails =>
        return Failure;
      case Succeeds(artifacts) =>
        if s == Export {
          :- CheckCancelled(env);
        }
        sig := CompleteStage(env, s, artifacts, run, well);
    }

    // The part of `run` between the first persist and the claim of success.
    method Body(env: Env, ghost run: string, ghost well: bool) returns (sig: Signal)
      requires UnderWay(run) && Quiet(project) && (!lost ==> !Breaks(project, env.missing))
      requires well ==> AllWell(env) && Indexed(project) && !lost
      modifies this`project, this`durable, this`trace, this`calls, this`viewer
      ensures UnderWay(run) && (well ==> sig == Fine && Indexed(project))
      ensures sig == Fine ==> Quiet(project) && AllTerminal(project) && viewer
      ensures sig == Fine ==> StatusOf(project, Train) == Succeeded
      ensures sig == Fine && ColmapPasses(env, old(project)) ==> SkippedOver(env, old(project), project)
      ensures old(trace) <= trace
      ensures Breaks(old(project), env.missing) ==>
        && Course(old(project), project, trace, |old(trace)|)
        && (Undisturbed(env) && Indexed(old(project)) ==> Overtook(trace, |old(trace)|))
      ensures sig == LockError ==> !NoTimeouts(env)
      ensures sig == Cancelled ==> !NeverCancelled(env)
      ensures AllCancelled(env) ==> sig == Cancelled
      ensures !env.cancelled(old(calls)) && env.persist(old(calls) + 1) == Busy
              && !(Reusable(old(project), Ingest, env.missing) && env.ingestCurrent) ==>
                sig == LockError && StatusOf(project, Ingest) == Running && calls == old(calls) + 2
    {
      hide Good, Quiet, InRun, StatusOf, StateOf, WithStatus, AllTerminal, Indexed, UnderWay, Valid, Honest, Unchanged,
        Reconstructed, ColmapPasses, SkippedOver, Breaks, Course, Overtook, Wrote, Undisturbed, AllWell, Reusable;
      UndisturbedMeans(env);
      ghost var p0, t0 := project, trace;
      sig := RunPrelude(env, run, well);
      ghost var p1, t1 := project, trace;
      IngestKeeps(env, p0, p1, t0, t1, viewer, lost);
      if sig != Fine {
        return;
      }
      sig := Reconstruct(env, run, well);
      ghost var p2, t2 := project, trace;
      CourseJoins(p0, p1, p2, t0, t1, t2);
      if sig != Fine {
        return;
      }
      IngestStays(p1, p2);
      sig := RunRest(env, run, well);
      CourseGoesOn(p0, p2, project, t2, trace, |t0|);
      StillSkipped(env, p0, p1, p2, project);
    }

    // Up to the end of ingest.
    method RunPrelude(env: Env, ghost run: string, ghost well: bool) returns (sig: Signal)
      requires UnderWay(run) && Quiet(project)
      requires well ==> AllWell(env) && Indexed(project)
      modifies this`project, this`durable, this`trace, this`calls
      ensures UnderWay(run) && (well ==> sig == Fine && Indexed(project))
      ensures sig == Fine ==> Quiet(project) && StatusOf(project, Ingest) == Succeeded
      ensures Unchanged(old(project), project, {Ingest}) && Wrote(old(trace), trace, old(project), {Ingest})
      ensures Undisturbed(env) && Indexed(old(project)) ==> sig == Fine
      ensures sig == LockError ==> !NoTimeouts(env)
      ensures sig == Cancelled ==> !NeverCancelled(env)
      ensures AllCancelled(env) ==> sig == Cancelled
      ensures !env.cancelled(old(calls)) && env.persist(old(calls) + 1) == Busy
              && !(Reusable(old(project), Ingest, env.missing) && env.ingestCurrent) ==>
                sig == LockError && StatusOf(project, Ingest) == Running && calls == old(calls) + 2
    {
      hide Good, Quiet, InRun, StatusOf, StateOf, Indexed, UnderWay, Valid, Honest, Unchanged, Reusable;
      UnchangedItself(project, trace);
      :- CheckCancelled(env);
      :- RunIngest(env, run, well);
      sig := CheckCancelled(env);
    }

    // From the end of the reconstruction to the claim of success.
    method RunRest(env: Env, ghost run: string, ghost well: bool) returns (sig: Signal)
      requires UnderWay(run) && Quiet(project)
      requires !lost ==> StatusOf(project, Colmap) == Succeeded || StatusOf(project, Fallback) == Succeeded
      requires well ==> AllWell(env) && Indexed(project)
      requires well ==> StatusOf(project, Ingest) == Succeeded && Reconstructed(project)
      modifies this`project, this`durable, this`trace, this`calls, this`viewer
      ensures UnderWay(run) && (well ==> sig == Fine && Indexed(project)) && old(trace) <= trace
      ensures sig == Fine ==> Quiet(project) && AllTerminal(project) && viewer
      ensures sig == Fine ==> StatusOf(project, Train) == Succeeded
      ensures Unchanged(old(project), project, {Train, Validate, Export})
      ensures sig == LockError ==> !NoTimeouts(env)
      ensures sig == Cancelled ==> !NeverCancelled(env)
      ensures AllCancelled(env) ==> sig == Cancelled
    {
      hide Good, Quiet, InRun, StatusOf, StateOf, WithStatus, AllTerminal, Indexed, UnderWay, Valid, Honest,
        Reconstructed;
      :- CheckCancelled(env);
      ghost var p2 := project;
      :- PrepareInput(env, run, well);
      :- CheckCancelled(env);
      :- RunTrain(env, run, well);
      :- CheckCancelled(env);
      ghost var p3 := project;
      :- ValidateAndExport(env, run, well);
      :- CheckCancelled(env);
      if well {
        AllDone(p2, p3, project);
        IndexedStays(p3, project);
      }
      // _normalize_success
      sig := if AllTerminal(project) then Fine else Failure;
    }

    // _prepare_training_input, as far as the project is concerned.
    method PrepareInput(env: Env, ghost run: string, ghost well: bool) returns (sig: Signal)
      requires UnderWay(run) && (well ==> AllWell(env))
      modifies this`durable, this`trace, this`calls
      ensures UnderWay(run) && (well ==> sig == Fine) && old(trace) <= trace
      ensures sig == LockError ==> !NoTimeouts(env)
      ensures sig == Cancelled ==> !NeverCancelled(env)
    {
      hide Good, Quiet, InRun, StatusOf, StateOf;
      if env.prepare != Fine {
        return env.prepare;
      }
      sig := Save(env, run, well);
    }

    // _mark_persistence_failure, with its best-effort persist.
    method MarkFailure(env: Env, ghost run: string) returns (sig: Signal)
      requires Valid() && Honest(run) && Good(project, viewer, lost) && project.runId == Some(run)
      requires InRun(project, run) || project.currentStage == None
      modifies this`project, this`durable, this`trace, this`calls
      ensures Honest(run) && (sig == Fine || sig == Crash) && calls == old(calls) + 1
      ensures Ended(old(project), project) && WroteEnds(old(trace), trace, old(project))
      ensures InRun(old(project), run) || Quiet(old(project)) || env.persist(old(calls)) != Written ==> Valid()
      ensures old(durable).runId == Some(run) && env.persist(old(calls)) == Written ==>
        durable == project && (Quiet(project) || Damaged())
      ensures Quiet(project) <==> InRun(old(project), run) || Quiet(old(project))
      ensures project.status == Broken && project.runId == Some(run)
      ensures AllWritten(env) && old(durable).runId == Some(run) ==>
        sig == Fine && durable == project && durable.status == Broken
    {
      hide Good, Sound, Quiet, InRun, Terminate, Ended;
      FailureKeeps(project, viewer, lost, run);
      ghost var p0, t0 := project, trace;
      TerminateEnds(project, StageStatus.Failed, Terminate(project, Failed).(status := Broken, currentStage := None));
      project := Terminate(project, Failed).(status := Broken, currentStage := None);
      sig := Persist(env, false);
      WroteLast(t0, trace, p0, project);
      if sig != Crash {
        sig := Fine;
      }
    }

    // The handlers of `run`.
    method Handle(env: Env, sig: Signal, ghost run: string) returns (crashed: bool)
      requires sig != Fine && sig != Crash && Valid() && Honest(run)
      requires Good(project, viewer, lost) && InRun(project, run)
      modifies this`project, this`durable, this`trace, this`calls
      ensures Valid() && Honest(run) && project.runId == Some(run)
      ensures Ended(old(project), project) && WroteEnds(old(trace), trace, old(project))
      ensures !crashed && sig != StoreError ==>
        durable == old(durable) && Good(project.(currentStage := None), viewer, lost)
      ensures sig != StoreError && sig != LockError ==> Quiet(project.(currentStage := None))
      ensures project.status == if sig == LockError then Active else EndStatus(sig)
      ensures sig != StoreError ==> calls == old(calls) && !crashed
      ensures sig == LockError ==> project == old(project)
      ensures forall s :: StatusOf(old(project), s) == Running && (sig == Cancelled || sig == Failure) ==>
        StatusOf(project, s) == if sig == Cancelled then Interrupted else StageStatus.Failed
      ensures AllWritten(env) && old(durable).runId == Some(run) ==> !crashed
      ensures AllWritten(env) && old(durable).runId == Some(run) && sig == StoreError ==>
        durable == project
    {
      hide Good, Sound, Quiet, InRun, Ended, Terminate;
      crashed := false;
      InRunFacts(project, run);
      WroteLast(trace, trace, project, project);
      if sig == Cancelled {
        TerminateKeeps(project, Interrupted, viewer, lost, run, Stopped);
        TerminateMarks(project, Interrupted, run, Stopped);
        TerminateEnds(project, Interrupted, Terminate(project, Interrupted).(status := Stopped));
        project := Terminate(project, Interrupted).(status := Stopped);
      } else if sig == Failure {
        TerminateKeeps(project, Failed, viewer, lost, run, Broken);
        TerminateMarks(project, Failed, run, Broken);
        TerminateEnds(project, StageStatus.Failed, Terminate(project, Failed).(status := Broken));
        project := Terminate(project, Failed).(status := Broken);
      } else if sig == LockError {
        ForgetStageKeeps(project, viewer, lost);
        EndedSame(project, project);
      } else {
        var last := MarkFailure(env, run);
        crashed := last == Crash;
      }
    }

    // The last persist of the final block of `run`.
    method Settle(env: Env, ghost run: string) returns (sig: Signal)
      requires Valid() && Honest(run) && Good(project, viewer, lost)
      requires project.runId == Some(run) && durable.runId == Some(run) && project.currentStage == None
      requires project.status == Finished ==> AllTerminal(project)
      modifies this`project, this`durable, this`trace, this`calls
      ensures Honest(run)
      ensures Ended(old(project), project) && WroteEnds(old(trace), trace, old(project))
      ensures if !Quiet(old(project)) && env.persist(old(calls)) == Unwritable && env.persist(old(calls) + 1) == Written
        then Damaged() && durable == project && project.status == Broken else Valid()
      ensures Quiet(project) <==> Quiet(old(project))
      ensures calls == old(calls) + if env.persist(old(calls)) == Unwritable then 2 else 1
      ensures sig == Fine || sig == LockError || sig == Crash
      ensures sig == LockError ==> !NoTimeouts(env)
      ensures project == old(project) || project.status == Broken
      ensures AllWritten(env) ==> sig == Fine && durable == project == old(project)
    {
      hide Good, Sound, Stuck, Quiet, AllTerminal, Ended;
      EndedSame(project, project);
      ghost var t0 := trace;
      sig := Persist(env, false);
      WroteLast(t0, trace, project, project);
      if sig == StoreError {
        NotUnderWay(project, run);
        sig := MarkFailure(env, run);
      }
    }

    // The handlers of `run`, then its final block. `final` is the number of its last
    // persist, if it comes to one.
    method Conclude(env: Env, sig: Signal, started: bool, ghost run: string) returns (exit: Exit, final: nat)
      requires sig != Crash && Valid() && Honest(run)
      requires Good(project, viewer, lost) && project.runId == Some(run)
      requires sig == Fine ==> started && Quiet(project) && AllTerminal(project) && project.status == Finished
      requires sig != Fine ==> InRun(project, run)
      requires sig == LockError ==> !NoTimeouts(env)
      requires if started then durable.runId == Some(run) else Quiet(project)
      modifies this`project, this`durable, this`trace, this`calls, this`running
      ensures Honest(run) && exit != Refused
      ensures WroteEnds(old(trace), trace, old(project))
      ensures if Forgotten(env, sig, project, final)
        then Damaged() && durable == project && project.status == Broken else Valid()
      ensures sig == LockError ==> (Quiet(project) <==> Quiet(old(project))) && final == old(calls)
      ensures sig == LockError && started ==> calls == final + if env.persist(final) == Unwritable then 2 else 1
      ensures exit == Returned ==> !running
      ensures exit == Escaped ==> !NoTimeouts(env)
      ensures sig == LockError ==> exit != Returned
      ensures exit == Returned && project.status == Finished ==> sig == Fine && AllTerminal(project)
      ensures AllWritten(env) && exit == Returned && started ==>
        durable == project && durable.status == EndStatus(sig)
      ensures AllWritten(env) && sig == Fine ==>
        exit == Returned && project == old(project).(currentStage := None)
    {
      hide *;
      EndStatusFacts(sig);
      ghost var p0, t0 := project, trace;
      EndedSame(project, project);
      WroteLast(trace, trace, project, project);
      if sig == Fine {
        ForgetStageKeeps(project, viewer, lost);
      } else {
        var crashed := Handle(env, sig, run);
        if crashed {
          ForgottenIs(env, sig, project, calls);
          return Crashed, calls;
        }
        ForgetStageQuiet(project);
      }
      final := calls;
      if started && sig != StoreError {
        ghost var p1, t1 := project, trace;
        project := project.(currentStage := None);
        ghost var p2 := project;
        EndedSame(p1, p2);
        EndedChain(p0, p1, p2);
        var last := Settle(env, run);
        WroteChain(t0, t1, trace, p0, p2);
        ForgottenIs(env, sig, project, final);
        if last == Crash {
          return Crashed, final;
        } else if last == LockError {
          return Escaped, final;
        }
      }
      ForgottenIs(env, sig, project, final);
      running := false;
      return if sig == LockError then Escaped else Returned, final;
    }

    lemma NothingWritten(run: string)
      requires before == trace
      ensures Honest(run)
    {
    }

    // Whether what comes next may write a document that is not ordered.
    ghost method Judge(breaks: bool)
      requires Valid()
      modifies this`lost
      ensures Valid() && lost == (!Ordered(durable) || breaks)
    {
      hide Sound;
      lost := !Ordered(durable) || breaks;
    }

    // run
    method Run(env: Env, run: string, lockFree: bool) returns (exit: Exit, cause: Signal, final: nat)
      requires Valid()
      modifies this
      ensures Honest(run) && before == old(trace)
      ensures if exit != Refused && Forgotten(env, cause, project, final)
        then Damaged() && durable == project && project.status == Broken else Valid()
      ensures exit != Refused && cause == LockError ==> !NoTimeouts(env) && exit != Returned
      ensures exit != Refused && cause == LockError && !Quiet(project) ==>
        calls == final + if env.persist(final) == Unwritable then 2 else 1
      ensures exit != Refused && BusyAtIngest(env, old(durable), old(calls)) ==>
        cause == LockError && !Quiet(project) && final == old(calls) + 3
      ensures exit == Refused <==>
        !old(durable).hasInput || old(running) || !lockFree || old(durable).status == Active
      ensures exit == Refused ==> durable == old(durable) && trace == old(trace) && running == old(running)
      // The order of the stages: it is lost exactly where artifacts were removed so that
      // colmap has to be started again behind what is recorded as done.
      ensures old(trace) <= trace
      ensures Ordered(old(durable)) ==>
        (Unordered(trace, |old(trace)|, |trace|) <==>
         Breaks(old(durable), env.missing) && BegunIn(trace, |old(trace)|, |trace|))
      ensures exit != Refused && Breaks(old(durable), env.missing) && Undisturbed(env) && Indexed(old(durable)) ==>
        Overtook(trace, |old(trace)|)
      ensures exit == Returned ==> !running
      ensures AllWritten(env) && exit == Returned ==>
        durable == project && durable.status == EndStatus(cause)
      ensures exit != Refused && cause == Cancelled ==> !NeverCancelled(env)
      ensures AllCancelled(env) && AllWritten(env) && exit != Refused ==>
        cause == Cancelled
      ensures exit == Returned && project.status == Finished ==> AllTerminal(project) && viewer
      ensures AllWritten(env) && exit != Refused && cause == Fine ==>
        && project.hasInput && StatusOf(project, Train) == Succeeded
        && (ColmapPasses(env, old(durable)) ==> SkippedOver(env, old(durable), project))
      ensures exit != Refused && old(Ordered(durable)) && AllWell(env) && old(Indexed(durable)) ==>
        exit == Returned && durable.status == Finished && AllTerminal(durable) && Indexed(durable) && viewer
    {
      hide Good, Sound, Quiet, InRun, Indexed, AllTerminal, ColmapPasses, SkippedOver, BusyAtIngest, NoTimeouts,
        NeverCancelled, Valid, Damaged, Forgotten, AllWell, Honest, Breaks, Ordered, Undisturbed, AllWritten,
        AllCancelled, Unordered, BegunIn, Overtook, StatusOf;
      AllWellMeans(env, durable);
      before := trace;
      NothingWritten(run);
      NoneSince(trace);
      if !durable.hasInput || running || !lockFree || durable.status == Active {
        return Refused, Fine, calls;
      }
      ghost var well := Ordered(durable) && AllWell(env) && Indexed(durable);
      QuietAtRest();
      Judge(Breaks(durable, env.missing));
      exit, cause, final := Proceed(env, run, well);
    }

    // `run` once the run lock is held and the project is not running.
    method Proceed(env: Env, run: string, ghost well: bool) returns (exit: Exit, cause: Signal, final: nat)
      requires Valid() && durable.status != Active && durable.hasInput && before == trace && Quiet(durable)
      requires lost == (!Ordered(durable) || Breaks(durable, env.missing))
      requires well ==> AllWell(env) && Indexed(durable) && !lost
      modifies this`project, this`durable, this`trace, this`calls, this`viewer, this`running
      ensures Honest(run) && exit != Refused
      ensures if Forgotten(env, cause, project, final)
        then Damaged() && durable == project && project.status == Broken else Valid()
      ensures cause == LockError ==> !NoTimeouts(env) && exit != Returned
      ensures cause == LockError && !Quiet(project) ==>
        calls == final + if env.persist(final) == Unwritable then 2 else 1
      ensures BusyAtIngest(env, old(durable), old(calls)) ==>
        cause == LockError && !Quiet(project) && final == old(calls) + 3
      ensures OrderAfter(old(durable), env, old(trace), trace)
      ensures exit == Returned ==> !running
      ensures AllWritten(env) && exit == Returned ==> durable == project && durable.status == EndStatus(cause)
      ensures cause == Cancelled ==> !NeverCancelled(env)
      ensures AllCancelled(env) && AllWritten(env) ==> cause == Cancelled
      ensures exit == Returned && project.status == Finished ==> AllTerminal(project) && viewer
      ensures AllWritten(env) && cause == Fine ==>
        && exit == Returned && project.hasInput && StatusOf(project, Train) == Succeeded
        && (ColmapPasses(env, old(durable)) ==> SkippedOver(env, old(durable), project))
      ensures well ==> cause == Fine && Indexed(project)
    {
      hide *;
      AllWellMeans(env, durable);
      running := true;
      ghost var p0, t0 := durable, trace;
      var sig, started := Launch(env, run, well);
      cause := sig;
      EndStatusFacts(cause);
      Reckon(env, run, p0);
      ghost var p1, t1 := project, trace;
      if sig == Crash {
        OnlyTimeouts(env, sig, project, calls);
        WroteLast(trace, trace, project, project);
        OrderOfRun(p0, p1, env, t0, t1, t1);
        return Crashed, cause, calls;
      }
      exit, final := Conclude(env, sig, started, run);
      SameSkipped(env, p0, p0, p1, p1.(currentStage := None));
      IndexedSame(p1, p1.(currentStage := None));
      OrderOfRun(p0, p1, env, t0, t1, trace);
    }

    lemma Reckon(env: Env, run: string, o: Project)
      requires Valid() && Honest(run) && Good(project, viewer, lost) && Quiet(o)
      requires lost == (!Ordered(o) || Breaks(o, env.missing))
      requires Breaks(o, env.missing) ==> Course(o, project, trace, |before|)
      ensures OrderSoFar(o, project, env, before, trace)
    {
      hide Sound, Breaks, Course, Quiet, Ordered;
    }

    lemma QuietAtRest()
      requires Valid() && durable.status != Active
      ensures Quiet(durable)
    {
    }

    // `run` from the first persist to the claim of success.
    method Launch(env: Env, run: string, ghost well: bool) returns (sig: Signal, started: bool)
      requires Valid() && durable.status != Active && durable.hasInput && before == trace
      requires lost == (!Ordered(durable) || Breaks(durable, env.missing))
      requires well ==> AllWell(env) && Indexed(durable) && !lost
      modifies this`project, this`durable, this`trace, this`calls, this`viewer
      ensures Valid() && Honest(run)
      ensures Good(project, viewer, lost) && project.runId == Some(run)
      ensures sig == Fine ==> started && Quiet(project) && AllTerminal(project) && project.status == Finished && viewer
      ensures sig == Fine ==> project.hasInput && StatusOf(project, Train) == Succeeded
      ensures sig == Fine && ColmapPasses(env, old(durable)) ==> SkippedOver(env, old(durable), project)
      ensures old(trace) <= trace && lost == old(lost)
      ensures Breaks(old(durable), env.missing) ==>
        && Course(old(durable), project, trace, |old(trace)|)
        && (Undisturbed(env) && Indexed(old(durable)) ==> Overtook(trace, |old(trace)|))
      ensures sig != Fine && sig != Crash ==> InRun(project, run)
      ensures sig == LockError ==> !NoTimeouts(env)
      ensures started ==> durable.runId == Some(run)
      ensures AllWritten(env) ==> started
      ensures !started && sig != Crash ==> Quiet(project)
      ensures BusyAtIngest(env, old(durable), old(calls)) ==>
        started && sig == LockError && !Quiet(project) && calls == old(calls) + 3
      ensures well ==> sig == Fine && Indexed(project)
      ensures sig == Cancelled ==> !NeverCancelled(env)
      ensures AllCancelled(env) && started ==> sig == Cancelled
    {
      hide Good, Sound, Quiet, InRun, Indexed, AllTerminal, StatusOf, StateOf, Reusable, BusyAtIngest, Begin,
        ColmapPasses, SkippedOver, Breaks, Course, Overtook, Undisturbed, AllWell, NoTimeouts, NeverCancelled,
        Accepted, Damaged, Ordered, Unchanged;
      BeginKeeps(durable, run, viewer, lost);
      BeginSame(env, durable, run, calls);
      UndisturbedMeans(env);
      AllWellMeans(env, durable);
      ghost var p0, t0 := durable, trace;
      project := Begin(durable, run);
      sig := Persist(env, true);
      started := sig == Fine;
      ghost var t1 := trace;
      CourseNone(p0, project, t0);
      if started {
        sig := Body(env, run, well);
        CourseBegins(p0, Begin(p0, run), project, t0, t1, trace);
        InRunFacts(project, run);
        RunningIsLoud(project);
        if sig == Fine {
          FinishKeeps(project, viewer, lost);
          SameSkipped(env, p0, Begin(p0, run), project, project.(status := Finished));
          CourseSame(p0, project, project.(status := Finished), trace, |t0|);
          IndexedSame(project, project.(status := Finished));
          project := project.(status := Finished);
        }
      }
    }

    // import_input, set_profile, configure_sampling and their kin, which hold the run lock.
    method Configure(input: bool, ready: bool) returns (done: bool)
      requires Valid()
      modifies this`durable, this`trace, this`lost
      ensures Valid() && done == (old(durable).status != Active)
      ensures old(trace) <= trace && (Ordered(old(durable)) ==> !Unordered(trace, |old(trace)|, |trace|))
      ensures done ==> durable == MarkStale(old(durable)).(
        hasInput := old(durable).hasInput || input, status := if ready then Ready else old(durable).status)
      ensures !done ==> durable == old(durable)
    {
      hide Good, Quiet, MarkStale, Ordered;
      Judge(false);
      done := durable.status != Active;
      if done {
        MarkStaleKeeps(durable, viewer, lost);
        RelabelKeeps(MarkStale(durable), viewer, lost, durable.hasInput || input,
                     if ready then Ready else durable.status);
        durable := MarkStale(durable).(
          hasInput := durable.hasInput || input, status := if ready then Ready else durable.status);
        GoodIsOrdered(durable, viewer, lost);
        trace := trace + [Snapshot(durable, viewer, lost)];
      }
    }

    // cleanup_project, which first takes the viewer manifest away and either commits
    // the document or puts everything back.
    method CleanUp(target: Target, commits: bool) returns (done: bool)
      requires Valid()
      modifies this`durable, this`trace, this`viewer, this`lost
      ensures Valid() && done == (old(durable).status != Active && old(durable).isolated && commits)
      ensures old(trace) <= trace && (Ordered(old(durable)) ==> !Unordered(trace, |old(trace)|, |trace|))
      ensures done ==> durable == Cleaned(old(durable), target) && !viewer
      ensures !done ==> durable == old(durable) && viewer == old(viewer)
    {
      hide Good, Quiet, Cleaned, Ordered;
      Judge(false);
      if durable.status == Active || !durable.isolated {
        return false;
      }
      NoViewerKeeps(durable, viewer, lost);
      trace := trace + [Snapshot(durable, false, lost)];
      if commits {
        CleanedKeeps(durable, target, viewer, lost);
        GoodIsOrdered(Cleaned(durable, target), false, lost);
        durable, viewer := Cleaned(durable, target), false;
        trace := trace + [Snapshot(durable, viewer, lost)];
      }
      done := commits;
    }

    // recover_interrupted_projects, in the process that replaces a dead one.
    method Restart(written: bool)
      requires Valid()
      modifies this`durable, this`trace, this`running, this`lost
      ensures Valid() && !running
      ensures old(trace) <= trace && (Ordered(old(durable)) ==> !Unordered(trace, |old(trace)|, |trace|))
      ensures durable == if old(durable).status == Active && written then Interrupt(old(durable)) else old(durable)
    {
      hide Good, Quiet, Interrupt, Ordered;
      Judge(false);
      running := false;
      if durable.status == Active && written {
        InterruptKeeps(durable, viewer, lost);
        GoodIsOrdered(Interrupt(durable), viewer, lost);
        durable := Interrupt(durable);
        trace := trace + [Snapshot(durable, viewer, lost)];
      }
    }

    // Every sequence of operations, with every failure and crash inside a run, up to the
    // first run, if any, that ends in an unsound document: each durable state on the way is
    // sound. `marks` are the numbers of documents written before each operation and after
    // the last: starting from an ordered document, one that is not ordered is written exactly
    // if an operation that finds an ordered one breaks the order and begins colmap.
    method Execute(ops: seq<Operation>) returns (done: nat, final: nat, ghost marks: seq<nat>)
      requires Valid()
      modifies this
      ensures done <= |ops| && if done == |ops| then Valid() else Damaged()
      ensures done < |ops| ==>
        && ops[done].RunPipeline? && !NoTimeouts(ops[done].env)
        && Forgotten(ops[done].env, LockError, project, final) && calls == final + 2
      ensures |marks| == 1 + if done == |ops| then done else done + 1
      ensures Accounted(ops, trace, marks) && marks[0] == |old(trace)| && marks[|marks| - 1] == |trace|
      ensures old(trace) <= trace
      ensures old(Ordered(durable)) ==>
        (Unordered(trace, |old(trace)|, |trace|) <==>
         exists k :: 0 <= k < |marks| - 1 && LosesOrder(ops[k], trace, marks[k], marks[k + 1]))
    {
      hide Valid, Honest, Damaged, Quiet, Ordered, Breaks, Unordered, BegunIn, LosesOrder, Accounted;
      final := 0;
      marks := [|trace|];
      LastIsDurable();
      NoneSince(trace);
      AccountNothing(ops, trace);
      ghost var t0, p0 := trace, durable;
      for k := 0 to |ops|
        invariant Valid() && t0 <= trace && |marks| == k + 1 && marks[0] == |t0| && marks[k] == |trace|
        invariant Accounted(ops, trace, marks)
      {
        var o := ops[k];
        ghost var t1 := trace;
        LastIsDurable();
        match o {
        case RunPipeline(env, run, lockFree) =>
          var exit, cause;
          exit, cause, final := Run(env, run, lockFree);
          AccountOp(ops, t1, trace, marks);
          if exit != Refused && Forgotten(env, cause, project, final) {
            marks := marks + [|trace|];
            OrderLost(ops, trace, marks, k + 1);
            return k, final, marks;
          }
        case Reconfigure(input, ready) =>
          var _ := Configure(input, ready);
          AccountOp(ops, t1, trace, marks);
        case Clean(target, commits) =>
          var _ := CleanUp(target, commits);
          AccountOp(ops, t1, trace, marks);
        case Reopen(written) =>
          Restart(written);
          AccountOp(ops, t1, trace, marks);
        }
        marks := marks + [|trace|];
      }
      done := |ops|;
      OrderLost(ops, trace, marks, |ops|);
    }

    lemma LastIsDurable()
      requires Valid()
      ensures 0 < |trace| && trace[|trace| - 1].project == durable
    {
    }
  }

  datatype Operation =
    | RunPipeline(env: Env, run: string, lockFree: bool)
    | Reconfigure(input: bool, ready: bool)
    | Clean(target: Target, commits: bool)
    | Reopen(written: bool)

  // What one operation does to the order, when it finds it kept.
  ghost predicate OpKept(op: Operation, p: Project, docs: seq<Snapshot>, from: nat, to: nat) {
    Ordered(p) ==>
      (Unordered(docs, from, to) <==> op.RunPipeline? && Breaks(p, op.env.missing) && BegunIn(docs, from, to))
  }

  ghost predicate LosesOrder(op: Operation, docs: seq<Snapshot>, from: nat, to: nat) {
    && 0 < from <= |docs| && Ordered(docs[from - 1].project)
    && op.RunPipeline? && Breaks(docs[from - 1].project, op.env.missing) && BegunIn(docs, from, to)
  }

  // Each operation after the document before it.
  ghost predicate Accounted(ops: seq<Operation>, docs: seq<Snapshot>, marks: seq<nat>) {
    && 0 < |marks| <= |ops| + 1
    && (forall k :: 0 <= k < |marks| ==> 0 < marks[k] <= |docs|)
    && forall k :: 0 <= k < |marks| - 1 ==>
         marks[k] <= marks[k + 1] && OpKept(ops[k], docs[marks[k] - 1].project, docs, marks[k], marks[k + 1])
  }

  lemma AccountNothing(ops: seq<Operation>, docs: seq<Snapshot>)
    requires 0 < |docs|
    ensures Accounted(ops, docs, [|docs|])
  {
  }

  lemma Earlier(docs: seq<Snapshot>, docs': seq<Snapshot>, from: nat, to: nat)
    requires docs <= docs' && to <= |docs|
    ensures Unordered(docs', from, to) <==> Unordered(docs, from, to)
    ensures BegunIn(docs', from, to) <==> BegunIn(docs, from, to)
  {
    assert forall i :: 0 <= i < |docs| ==> docs'[i] == docs[i];
  }

  lemma AccountOp(ops: seq<Operation>, docs: seq<Snapshot>, docs': seq<Snapshot>, marks: seq<nat>)
    requires Accounted(ops, docs, marks) && |marks| <= |ops| && marks[|marks| - 1] == |docs| && docs <= docs'
    requires OpKept(ops[|marks| - 1], docs[|docs| - 1].project, docs', |docs|, |docs'|)
    ensures Accounted(ops, docs', marks + [|docs'|])
  {
    hide OpKept;
    var marks' := marks + [|docs'|];
    forall k | 0 <= k < |marks| - 1
      ensures OpKept(ops[k], docs'[marks'[k] - 1].project, docs', marks'[k], marks'[k + 1])
    {
      Earlier(docs, docs', marks[k], marks[k + 1]);
      SameOp(ops[k], docs[marks[k] - 1].project, docs, docs', marks[k], marks[k + 1]);
    }
  }

  lemma SameOp(op: Operation, p: Project, docs: seq<Snapshot>, docs': seq<Snapshot>, from: nat, to: nat)
    requires OpKept(op, p, docs, from, to) && docs <= docs' && to <= |docs|
    ensures OpKept(op, p, docs', from, to)
  {
    Earlier(docs, docs', from, to);
    hide Unordered, BegunIn, Ordered;
  }

  // Over any operations: the exact causes of a lost order.
  lemma {:induction false} OrderLost(ops: seq<Operation>, docs: seq<Snapshot>, marks: seq<nat>, n: nat)
    requires Accounted(ops, docs, marks) && n < |marks|
    ensures Ordered(docs[marks[0] - 1].project) ==>
      (Unordered(docs, marks[0], marks[n]) <==>
       exists k :: 0 <= k < n && LosesOrder(ops[k], docs, marks[k], marks[k + 1]))
    ensures marks[0] <= marks[n]
  {
    hide Ordered, Breaks, BegunIn;
    if n > 0 {
      OrderLost(ops, docs, marks, n - 1);
      assert OpKept(ops[n - 1], docs[marks[n - 1] - 1].project, docs, marks[n - 1], marks[n]);
      assert Unordered(docs, marks[0], marks[n]) <==>
        Unordered(docs, marks[0], marks[n - 1]) || Unordered(docs, marks[n - 1], marks[n]);
    }
  }

  lemma NoneSince(docs: seq<Snapshot>)
    ensures !Unordered(docs, |docs|, |docs|) && !BegunIn(docs, |docs|, |docs|)
  {
  }

  lemma GoodIsOrdered(p: Project, viewer: bool, lost: bool)
    requires Good(p, viewer, lost)
    ensures !lost ==> Ordered(p)
  {
  }

  // ---------------------------------------------------- the course of a breaking run

  lemma CourseNone(o: Project, p: Project, docs: seq<Snapshot>)
    requires p.stages == o.stages
    ensures Course(o, p, docs, |docs|)
  {
  }

  lemma CourseSame(o: Project, p: Project, q: Project, docs: seq<Snapshot>, from: nat)
    requires q.stages == p.stages
    ensures Course(o, p, docs, from) ==> Course(o, q, docs, from)
  {
  }

  lemma CourseBegins(o: Project, b: Project, p: Project, docs: seq<Snapshot>, docs1: seq<Snapshot>,
                     docs2: seq<Snapshot>)
    requires b.stages == o.stages && |docs1| == |docs| + 1 && docs1[|docs|].project == b && docs1 <= docs2
    ensures Course(b, p, docs2, |docs1|) ==> Course(o, p, docs2, |docs|)
    ensures Overtook(docs2, |docs1|) ==> Overtook(docs2, |docs|)
  {
    assert docs2[|docs|] == docs1[|docs|];
  }

  // The start of colmap behind what is recorded as done.
  lemma ColmapBegins(p: Project, q: Project, docs: seq<Snapshot>, docs': seq<Snapshot>)
    requires Unchanged(p, q, {Colmap}) && StatusOf(q, Colmap) == Running
    requires docs' == docs || (|docs'| == |docs| + 1 && docs <= docs' && docs'[|docs|].project == q)
    ensures StatusOf(q, Train) == StatusOf(p, Train) && StatusOf(q, Fallback) == StatusOf(p, Fallback)
    ensures Unchanged(p, q, {Colmap, Fallback})
    ensures Indexed(p) ==> Indexed(q)
    ensures StatusOf(p, Train) == Succeeded || StatusOf(p, Fallback) == Succeeded ==>
      Course(p, q, docs', |docs|) && (docs' != docs ==> Overtook(docs', |docs|))
  {
  }

  lemma ColmapJudged(env: Env, p: Project, p1: Project, q: Project)
    requires Unchanged(p, p1, {Colmap}) && Unchanged(p1, q, {Colmap, Fallback})
    ensures Unchanged(p, q, {Colmap, Fallback})
    ensures env.work(Colmap).Succeeds? && !Reusable(p, Colmap, env.missing)
            && StatusOf(q, Colmap) == Succeeded && StateOf(q, Colmap).artifacts == env.work(Colmap).artifacts
            && StatusOf(q, Fallback) == Skipped && StateOf(q, Fallback).artifacts == StateOf(p1, Fallback).artifacts ==>
              SkippedOver(env, p, q)
  {
  }

  lemma IndexedSame(p: Project, q: Project)
    requires q.stages == p.stages
    ensures Indexed(q) <==> Indexed(p)
  {
    assert forall t :: StateOf(q, t) == StateOf(p, t);
  }

  lemma IndexedStays(p: Project, q: Project)
    requires Unchanged(p, q, {Validate, Export}) && Indexed(p)
    ensures Indexed(q)
  {
  }

  // Ingest changes nothing that the order is about.
  lemma IngestKeeps(env: Env, p: Project, q: Project, docs: seq<Snapshot>, docs': seq<Snapshot>, viewer: bool,
                    lost: bool)
    requires Unchanged(p, q, {Ingest}) && Wrote(docs, docs', p, {Ingest})
    ensures docs <= docs' && SameSoFar(p, q) && AllSame(p, docs', |docs|) && Course(p, q, docs', |docs|)
    ensures Breaks(q, env.missing) <==> Breaks(p, env.missing)
  {
  }

  lemma CourseJoins(p: Project, p1: Project, q: Project, docs: seq<Snapshot>, docs1: seq<Snapshot>,
                    docs2: seq<Snapshot>)
    requires SameSoFar(p, p1) && AllSame(p, docs1, |docs|) && docs <= docs1 <= docs2
    ensures Course(p1, q, docs2, |docs1|) ==> Course(p, q, docs2, |docs|)
    ensures Overtook(docs2, |docs1|) ==> Overtook(docs2, |docs|)
  {
    assert forall i :: 0 <= i < |docs1| ==> docs2[i] == docs1[i];
  }

  lemma CourseGoesOn(o: Project, p: Project, q: Project, docs: seq<Snapshot>, docs': seq<Snapshot>, from: nat)
    requires docs <= docs'
    ensures Overtook(docs, from) ==> Overtook(docs', from) && Course(o, q, docs', from)
  {
    assert forall i :: 0 <= i < |docs| ==> docs'[i] == docs[i];
  }

  // What is known of the order before the handlers, and after the whole run, of the
  // document o it began with.
  ghost predicate OrderSoFar(o: Project, p: Project, env: Env, docs: seq<Snapshot>, docs1: seq<Snapshot>) {
    && Quiet(o) && docs <= docs1
    && if Breaks(o, env.missing) then Course(o, p, docs1, |docs|)
       else Ordered(o) ==> !Unordered(docs1, |docs|, |docs1|) && Ordered(p)
  }

  ghost predicate OrderAfter(o: Project, env: Env, docs: seq<Snapshot>, docs2: seq<Snapshot>) {
    && docs <= docs2
    && (Ordered(o) ==>
          (Unordered(docs2, |docs|, |docs2|) <==> Breaks(o, env.missing) && BegunIn(docs2, |docs|, |docs2|)))
    && (Breaks(o, env.missing) && Undisturbed(env) && Indexed(o) ==> Overtook(docs2, |docs|))
  }

  lemma OrderOfRun(o: Project, p: Project, env: Env, docs: seq<Snapshot>, docs1: seq<Snapshot>, docs2: seq<Snapshot>)
    requires OrderSoFar(o, p, env, docs, docs1) && WroteEnds(docs1, docs2, p)
    requires Breaks(o, env.missing) && Undisturbed(env) && Indexed(o) ==> Overtook(docs1, |docs|)
    ensures OrderAfter(o, env, docs, docs2)
  {
    hide Quiet, Ordered, Breaks, Course, WroteEnds, Unordered, BegunIn, Overtook, Undisturbed, Indexed;
    WroteMore(docs1, docs2, p);
    CourseGoesOn(o, p, p, docs1, docs2, |docs|);
    if Breaks(o, env.missing) {
      BrokenCourse(o, p, docs, docs1, docs2);
      if Ordered(o) {
        BrokenOrder(o, env.missing, docs2, |docs|);
      }
    } else if Ordered(o) {
      KeptOrder(p, docs, docs1, docs2);
    }
  }

  lemma WroteMore(docs: seq<Snapshot>, docs': seq<Snapshot>, p: Project)
    requires WroteEnds(docs, docs', p)
    ensures docs <= docs'
  {
  }

  lemma BrokenCourse(o: Project, p: Project, docs: seq<Snapshot>, docs1: seq<Snapshot>, docs2: seq<Snapshot>)
    requires Quiet(o) && docs <= docs1 && WroteEnds(docs1, docs2, p) && Course(o, p, docs1, |docs|)
    ensures Overtook(docs2, |docs|) || AllSame(o, docs2, |docs|)
  {
    hide Ended, SameSoFar, Overtaken, Quiet;
    forall i | |docs1| <= i < |docs2|
      ensures SameSoFar(o, p) ==> SameSoFar(o, docs2[i].project)
      ensures Overtaken(p) ==> Overtaken(docs2[i].project)
    {
      EndedKeeps(p, docs2[i].project);
    }
    assert forall i :: 0 <= i < |docs1| ==> docs2[i] == docs1[i];
  }

  lemma BrokenOrder(o: Project, missing: set<Path>, docs: seq<Snapshot>, from: nat)
    requires Ordered(o) && Breaks(o, missing) && (Overtook(docs, from) || AllSame(o, docs, from))
    ensures Unordered(docs, from, |docs|) <==> BegunIn(docs, from, |docs|)
    ensures Overtook(docs, from) ==> Unordered(docs, from, |docs|)
  {
    if i :| from <= i < |docs| && Overtaken(docs[i].project) {
      OvertakenIsUnordered(docs[i].project);
      assert Unordered(docs, from, |docs|) && BegunIn(docs, from, |docs|);
    } else {
      forall i | from <= i < |docs| ensures Ordered(docs[i].project) && !Begun(docs[i].project) {
        assert SameSoFar(o, docs[i].project);
      }
    }
  }

  lemma KeptOrder(p: Project, docs: seq<Snapshot>, docs1: seq<Snapshot>, docs2: seq<Snapshot>)
    requires docs <= docs1 && WroteEnds(docs1, docs2, p)
    requires !Unordered(docs1, |docs|, |docs1|) && Ordered(p)
    ensures !Unordered(docs2, |docs|, |docs2|)
  {
    hide Ended, Ordered;
    forall i | |docs1| <= i < |docs2| ensures Ordered(docs2[i].project) {
      EndedKeeps(p, docs2[i].project);
    }
    assert forall i :: 0 <= i < |docs1| ==> docs2[i] == docs1[i];
  }

  lemma TerminateEnds(p: Project, status: StageStatus, q: Project)
    requires (status == Interrupted || status == StageStatus.Failed) && q.stages == Terminate(p, status).stages
    ensures Ended(p, q)
  {
    if p.currentStage.Some? {
      StatesAfter(p, p.currentStage.value, StateOf(p, p.currentStage.value).(status := status));
    }
    assert forall t :: StatusOf(q, t) == StatusOf(Terminate(p, status), t);
  }

  lemma WroteLast(docs: seq<Snapshot>, docs': seq<Snapshot>, p: Project, q: Project)
    requires docs' == docs || (|docs'| == |docs| + 1 && docs <= docs' && docs'[|docs|].project == q)
    requires Ended(p, q) || docs' == docs
    ensures WroteEnds(docs, docs', p)
  {
  }

  lemma WroteChain(docs: seq<Snapshot>, docs1: seq<Snapshot>, docs2: seq<Snapshot>, p: Project, q: Project)
    requires WroteEnds(docs, docs1, p) && WroteEnds(docs1, docs2, q) && Ended(p, q)
    ensures WroteEnds(docs, docs2, p)
  {
    hide Ended;
    forall i | |docs| <= i < |docs2| ensures Ended(p, docs2[i].project) {
      if i < |docs1| {
        assert docs2[i] == docs1[i];
      } else {
        EndedChain(p, q, docs2[i].project);
      }
    }
  }

  lemma UnchangedItself(p: Project, docs: seq<Snapshot>)
    ensures Unchanged(p, p, {Ingest}) && Wrote(docs, docs, p, {Ingest})
  {
  }

  lemma UndisturbedMeans(env: Env)
    ensures Undisturbed(env) ==> AllWritten(env)
  {
  }

  lemma IngestStays(p: Project, q: Project)
    requires Unchanged(p, q, {Colmap, Fallback})
    ensures StatusOf(q, Ingest) == StatusOf(p, Ingest)
  {
  }

  lemma RelabelKeeps(p: Project, viewer: bool, lost: bool, input: bool, status: ProjectStatus)
    requires Good(p, viewer, lost) && Quiet(p)
    ensures Good(p.(hasInput := input, status := status), viewer, lost)
  {
    assert forall t :: StatusOf(p.(hasInput := input, status := status), t) == StatusOf(p, t);
  }

  lemma NoViewerKeeps(p: Project, viewer: bool, lost: bool)
    requires Good(p, viewer, lost)
    ensures Good(p, false, lost)
  {
  }

  lemma InRunFacts(p: Project, run: string)
    requires InRun(p, run)
    ensures p.status == Active && p.runId == Some(run) && p.hasInput
  {
  }

  lemma BeginSame(env: Env, p: Project, run: string, n: nat)
    ensures Begin(p, run).runId == Some(run) && Begin(p, run).stages == p.stages
    ensures Indexed(p) ==> Indexed(Begin(p, run))
    ensures forall missing :: Breaks(Begin(p, run), missing) <==> Breaks(p, missing)
    ensures BusyAtIngest(env, p, n) ==>
      && env.persist(n) == Written && !env.cancelled(n + 1) && env.persist(n + 2) == Busy
      && !(Reusable(Begin(p, run), Ingest, env.missing) && env.ingestCurrent)
  {
    assert forall t :: StateOf(Begin(p, run), t) == StateOf(p, t);
  }

  lemma SameSkipped(env: Env, p: Project, p': Project, q: Project, q': Project)
    requires p'.stages == p.stages && q'.stages == q.stages
    ensures ColmapPasses(env, p) <==> ColmapPasses(env, p')
    ensures SkippedOver(env, p', q) ==> SkippedOver(env, p, q')
    ensures StatusOf(q', Train) == StatusOf(q, Train)
  {
    assert forall t :: StateOf(p', t) == StateOf(p, t) && StateOf(q', t) == StateOf(q, t);
  }

  lemma StillSkipped(env: Env, p: Project, p1: Project, p2: Project, q: Project)
    requires Unchanged(p, p1, {Ingest}) && Unchanged(p2, q, {Train, Validate, Export})
    ensures ColmapPasses(env, p) ==> ColmapPasses(env, p1)
    ensures SkippedOver(env, p1, p2) ==> SkippedOver(env, p, q)
  {
    assert StatusOf(p1, Colmap) == StatusOf(p, Colmap) && StatusOf(p1, Fallback) == StatusOf(p, Fallback);
  }

  lemma ForgottenIs(env: Env, cause: Signal, stopped: Project, final: nat)
    ensures Forgotten(env, cause, stopped, final) <==>
      cause == LockError && !Quiet(stopped) && env.persist(final) == Unwritable && env.persist(final + 1) == Written
  {
  }

  lemma OnlyTimeouts(env: Env, cause: Signal, stopped: Project, final: nat)
    ensures Forgotten(env, cause, stopped, final) ==> cause == LockError
  {
  }

  lemma EndStatusFacts(cause: Signal)
    ensures EndStatus(cause) == Finished <==> cause == Fine
  {
  }

  lemma AllWellMeans(env: Env, p: Project)
    ensures AllWell(env) ==> env.missing == {} && AllWritten(env)
    ensures AllWell(env) && Ordered(p) ==> !Breaks(p, env.missing)
  {
  }

  lemma RunningIsLoud(p: Project)
    ensures forall s :: StatusOf(p, s) == Running ==> !Quiet(p)
  {
  }

  // Neither reconstruction can be reused, and nothing was removed: none was finished.
  lemma CacheMissed(p: Project, viewer: bool, lost: bool, missing: set<Path>)
    requires Good(p, viewer, lost) && (!lost ==> !Breaks(p, missing))
    requires !Reusable(p, Colmap, missing)
    ensures !lost && !Reusable(p, Fallback, missing) ==>
      StatusOf(p, Fallback) != Succeeded && StatusOf(p, Train) != Succeeded
    ensures !lost && Reusable(p, Fallback, missing) ==> StatusOf(p, Colmap) == FallbackRequired
  {
  }

  lemma PublishKeeps(p: Project, viewer: bool, lost: bool)
    requires Good(p, viewer, lost) && StatusOf(p, Export) == Succeeded
    ensures Good(p, true, lost)
  {
  }

  lemma AllDone(reconstructed: Project, trained: Project, p: Project)
    requires StatusOf(reconstructed, Ingest) == Succeeded && Reconstructed(reconstructed)
    requires Unchanged(reconstructed, trained, {Train}) && StatusOf(trained, Train) == Succeeded
    requires Unchanged(trained, p, {Validate, Export})
    requires StatusOf(p, Validate) == Succeeded && StatusOf(p, Export) == Succeeded
    ensures AllTerminal(p)
  {
    hide StatusOf, StateOf;
    forall s | s in STAGES ensures Terminal(StatusOf(p, s)) {
      assert s in [Ingest, Colmap, Fallback, Train, Validate, Export];
    }
  }

  // What _mark_persistence_failure makes of a project: it terminates the running stage if
  // that is still the current one, and otherwise leaves it running in a failed project.
  lemma FailureKeeps(p: Project, viewer: bool, lost: bool, run: string)
    requires Good(p, viewer, lost) && p.runId == Some(run) && (InRun(p, run) || p.currentStage == None)
    ensures var q := Terminate(p, Failed).(status := Broken, currentStage := None);
      && q.runId == Some(run) && (Quiet(q) <==> InRun(p, run) || Quiet(p))
      && (if Quiet(q) then Good(q, viewer, lost) else Stuck(q, viewer))
  {
    if InRun(p, run) {
      TerminateKeeps(p, Failed, viewer, lost, run, Broken);
    } else {
      var q := p.(status := Broken, currentStage := None);
      assert Terminate(p, Failed) == p;
      assert forall t :: StatusOf(q, t) == StatusOf(p, t);
    }
  }

  // A run that has forgotten its current stage and runs one is not under way.
  lemma NotUnderWay(p: Project, run: string)
    requires p.currentStage == None
    ensures InRun(p, run) ==> Quiet(p)
  {
  }

  lemma ForgetStageQuiet(p: Project)
    ensures Quiet(p) <==> Quiet(p.(currentStage := None))
  {
    assert forall t :: StatusOf(p.(currentStage := None), t) == StatusOf(p, t);
  }

  lemma ForgetStageKeeps(p: Project, viewer: bool, lost: bool)
    requires Good(p, viewer, lost)
    ensures Good(p.(currentStage := None), viewer, lost)
    ensures Quiet(p) ==> Quiet(p.(currentStage := None))
    ensures AllTerminal(p) ==> AllTerminal(p.(currentStage := None))
  {
    assert forall t :: StatusOf(p.(currentStage := None), t) == StatusOf(p, t);
  }

  lemma FinishKeeps(p: Project, viewer: bool, lost: bool)
    requires Good(p, viewer, lost) && Quiet(p)
    ensures Good(p.(status := Finished), viewer, lost) && Quiet(p.(status := Finished))
    ensures AllTerminal(p) ==> AllTerminal(p.(status := Finished))
  {
    assert forall t :: StatusOf(p.(status := Finished), t) == StatusOf(p, t);
  }

  // What comes of such a document. It is not sound; a restart leaves it as it is, and so
  // does reconfiguring leave the stage running; a cleanup puts it right exactly if it resets
  // that stage; a new run does exactly if the first stage it starts is that one, and
  // otherwise writes a document with two running stages.
  lemma AfterDamage(p: Project, viewer: bool, stuck: Stage, target: Target, run: string, s: Stage, now: ProjectStatus)
    requires Stuck(p, viewer) && StatusOf(p, stuck) == Running
    ensures !Sound(p, viewer) && p.status != Active
    ensures StatusOf(MarkStale(p), stuck) == Running && (now != Active ==> !Sound(MarkStale(p).(status := now), viewer))
    ensures Sound(Cleaned(p, target), false) <==> stuck in ResetStages(target)
    ensures Sound(Begin(p, run), viewer)
    ensures Sound(Start(Begin(p, run), s), viewer) <==> s == stuck
    ensures StatusOf(Start(Begin(p, run), s), s) == StatusOf(Start(Begin(p, run), s), stuck) == Running
  {
    StaleStuck(p, viewer, stuck, now);
    CleanedStuck(p, viewer, stuck, target);
    BeginStuck(p, viewer, stuck, run, s);
  }

  lemma StaleStuck(p: Project, viewer: bool, stuck: Stage, now: ProjectStatus)
    requires Stuck(p, viewer) && StatusOf(p, stuck) == Running
    ensures !Sound(p, viewer)
    ensures StatusOf(MarkStale(p), stuck) == Running && (now != Active ==> !Sound(MarkStale(p).(status := now), viewer))
  {
    assert StatusOf(MarkStale(p).(status := now), stuck) == Running;
  }

  lemma CleanedStuck(p: Project, viewer: bool, stuck: Stage, target: Target)
    requires Stuck(p, viewer) && StatusOf(p, stuck) == Running
    ensures Sound(Cleaned(p, target), false) <==> stuck in ResetStages(target)
  {
    CleanedLooksCleaned(p, target);
    assert forall t :: StatusOf(Cleaned(p, target), t) == if t in ResetStages(target) then Pending else StatusOf(p, t);
  }

  lemma BeginStuck(p: Project, viewer: bool, stuck: Stage, run: string, s: Stage)
    requires Stuck(p, viewer) && StatusOf(p, stuck) == Running
    ensures Sound(Begin(p, run), viewer)
    ensures Sound(Start(Begin(p, run), s), viewer) <==> s == stuck
    ensures StatusOf(Start(Begin(p, run), s), s) == StatusOf(Start(Begin(p, run), s), stuck) == Running
  {
    var b := Begin(p, run);
    assert forall t :: StatusOf(b, t) == StatusOf(p, t);
    StatesAfter(b, s, StateOf(b, s).(status := Running));
    var q := Start(b, s);
    assert forall t :: StatusOf(q, t) == if t == s then Running else StatusOf(p, t);
    assert StatusOf(q, s) == StatusOf(q, stuck) == Running;
    assert PendingIsEmpty(WithStatus(b, s, Running)) && q.stages == WithStatus(b, s, Running).stages;
    if s == stuck {
      assert Sound(q, viewer);
    }
  }

  lemma NothingYet(p: Project)
    requires p.stages == map[]
    ensures Good(p, false, false) && Ordered(p) && Indexed(p) && Quiet(p)
  {
  }

  // A run that ends so: the lock times out as ingest is started, the final write fails,
  // and the one that reports it does not.
  method TimeoutThenStoreError() returns (c: Controller)
    ensures fresh(c) && c.Damaged() && c.durable.status == Broken && !Quiet(c.durable)
  {
    hide Good, Sound, Quiet, Indexed;
    var p := Project(true, true, None, Ready, None, map[], []);
    NothingYet(p);
    c := new Controller(p);
    var env := Env(n => if n == 2 then Busy else if n == 3 then Unwritable else Written, _ => false,
                   _ => Fails, Fine, Works, {}, false);
    assert BusyAtIngest(env, c.durable, c.calls);
    var _, _, _ := c.Run(env, "run", true);
  }

  // A project is run to its end; then a colmap artifact is removed from outside, and it is
  // run again. Every document of the first run is ordered, and one of the second is not.
  method LostArtifactBreaksOrder(artifact: Path) returns (c: Controller, ghost first: nat)
    ensures fresh(c) && 0 < first < |c.trace|
    ensures c.trace[first - 1].project.status == Finished && AllTerminal(c.trace[first - 1].project)
    ensures !Unordered(c.trace, 0, first) && Unordered(c.trace, first, |c.trace|)
  {
    hide Good, Sound, Quiet, Indexed, Ordered, Unordered, BegunIn, Overtook, StatusOf, StateOf, Reusable, AllTerminal,
      Breaks, SkippedOver, ColmapPasses, Begun, Forgotten, BusyAtIngest, NoTimeouts, NeverCancelled;
    var p := Project(true, true, None, Ready, None, map[], []);
    NothingYet(p);
    c := new Controller(p);
    ghost var t0 := c.trace;
    var env := Env(_ => Written, _ => false, _ => Succeeds([artifact]), Fine, Works, {}, true);
    FirstRun(env, p);
    var exit, cause, _ := c.Run(env, "first", true);
    EndStatusFacts(cause);
    c.LastIsDurable();
    first := |c.trace|;
    ghost var t1 := c.trace;
    OrderedFrom(t0, t1);
    BreaksAfter(env, p, c.durable, artifact);
    var _, _, _ := c.Run(env.(missing := {artifact}), "second", true);
    Earlier(t1, c.trace, 0, first);
    OvertookIsUnordered(c.trace, first);
  }

  lemma FirstRun(env: Env, p: Project)
    requires p.stages == map[] && env.missing == {} && env.work(Colmap).Succeeds?
    ensures ColmapPasses(env, p) && !Breaks(p, env.missing)
  {
  }

  lemma OrderedFrom(docs: seq<Snapshot>, docs': seq<Snapshot>)
    requires |docs| == 1 && docs <= docs' && Ordered(docs[0].project) && !Unordered(docs', 1, |docs'|)
    ensures !Unordered(docs', 0, |docs'|)
  {
    hide Ordered;
    assert docs'[0] == docs[0];
  }

  lemma BreaksAfter(env: Env, p: Project, q: Project, artifact: Path)
    requires SkippedOver(env, p, q) && p.stages == map[] && env.work(Colmap) == Succeeds([artifact])
    requires StatusOf(q, Train) == Succeeded
    ensures Breaks(q, {artifact})
  {
    assert artifact in StateOf(q, Colmap).artifacts;
  }

  lemma OvertookIsUnordered(docs: seq<Snapshot>, from: nat)
    requires Overtook(docs, from)
    ensures Unordered(docs, from, |docs|)
  {
    var i :| from <= i < |docs| && Overtaken(docs[i].project);
    OvertakenIsUnordered(docs[i].project);
  }

  // ------------------------------------------------------- the source of the export

  // The reconstruction that training names, and the one the export looks for a point
  // cloud in.
  function TrainedOn(p: Project): Stage { if StatusOf(p, Fallback) == Succeeded then Fallback else Colmap }

  function ExportedFrom(p: Project): Stage { if StateOf(p, Fallback).artifacts != [] then Fallback else Colmap }

  // They are the same unless colmap passed and the fallback it skipped still lists the
  // artifacts of an earlier run, which skipping does not clear.
  lemma ExportSource(p: Project)
    requires Reconstructed(p)
    requires StatusOf(p, Fallback) == Succeeded ==> StateOf(p, Fallback).artifacts != []
    ensures TrainedOn(p) == ExportedFrom(p) <==>
      !(StatusOf(p, Fallback) == Skipped && StateOf(p, Fallback).artifacts != [])
    ensures StateOf(WithStatus(p, Fallback, Skipped), Fallback).artifacts == StateOf(p, Fallback).artifacts
  {
  }

  function FallbackRun(artifact: Path): Project {
    var done := StageState(Succeeded, [artifact]);
    Project(true, true, None, Finished, None,
      map[Ingest := done, Colmap := StageState(FallbackRequired, []), Fallback := done, Train := done,
          Validate := done, Export := done], [])
  }

  lemma FallbackRunIsGood(artifact: Path)
    ensures Good(FallbackRun(artifact), false, false) && FallbackRun(artifact).status == Finished
  {
    assert forall s :: StatusOf(FallbackRun(artifact), s) == if s == Colmap then FallbackRequired else Succeeded;
  }

  lemma FallbackRunStale(artifact: Path, input: bool, status: ProjectStatus)
    ensures var q := MarkStale(FallbackRun(artifact)).(hasInput := input, status := status);
      && (forall s :: StatusOf(q, s) == Stale) && StateOf(q, Fallback).artifacts == [artifact]
      && Indexed(q) && !Reusable(q, Colmap, {}) && !Reusable(q, Fallback, {})
  {
    var q := MarkStale(FallbackRun(artifact)).(hasInput := input, status := status);
    forall s ensures StatusOf(q, s) == Stale {
      match s
      case Ingest => case Colmap => case Fallback => case Train => case Validate => case Export =>
    }
  }

  // And there are such runs: a project whose fallback had succeeded is configured anew, and
  // this time colmap passes. The run succeeds, training names colmap, and the export looks
  // in the directory of the fallback.
  method SkippedFallbackIsExported(before: Path, now: Path) returns (c: Controller)
    ensures fresh(c) && c.Valid() && c.durable.status == Finished && AllTerminal(c.durable)
    ensures TrainedOn(c.durable) == Colmap && ExportedFrom(c.durable) == Fallback
    ensures StateOf(c.durable, Fallback).artifacts == [before]
  {
    hide Good, Indexed, MarkStale, FallbackRun, StateOf, StatusOf, Reusable, AllTerminal, Quiet;
    FallbackRunIsGood(before);
    c := new Controller(FallbackRun(before));
    var _ := c.Configure(true, true);
    var env := Env(_ => Written, _ => false, _ => Succeeds([now]), Fine, Works, {}, true);
    assert c.durable == MarkStale(FallbackRun(before)).(hasInput := c.durable.hasInput, status := Ready);
    FallbackRunStale(before, c.durable.hasInput, Ready);
    assert AllWell(env) && ColmapPasses(env, c.durable);
    var _, _, _ := c.Run(env, "run", true);
  }

  // ------------------------------------------------------------ stale snapshots

  // One attempt to replace the document: of a run (`begin` for its first one), or of
  // an operation that forgets the run, as cleanup and reconfiguration do.
  datatype Attempt = Write(run: string, begin: bool) | Forget

  // The guards of _persist on (run id, active).
  predicate Accepted(current: Option<string>, active: bool, a: Attempt) {
    match a
    case Write(run, begin) => if begin then !active || current == Some(run) else current == Some(run)
    case Forget => !active
  }

  // The run id in the document after a sequence of attempts, any of which may also end
  // the activity of the run it belongs to (`ends`).
  function Owner(current: Option<string>, active: bool, attempts: seq<(Attempt, bool)>): Option<string>
    decreases |attempts|
  {
    if attempts == [] then current
    else
      var (a, ends) := attempts[0];
      if !Accepted(current, active, a) then Owner(current, active, attempts[1..])
      else if a.Write? then Owner(Some(a.run), !ends, attempts[1..])
      else Owner(None, false, attempts[1..])
  }

  // Once another run has begun, or the run was forgotten, no snapshot of a run that
  // does not begin again is ever accepted: it never owns the document again.
  lemma {:induction false} StaleRunNeverReturns(current: Option<string>, active: bool, attempts: seq<(Attempt, bool)>,
                                                stale: string)
    requires current != Some(stale)
    requires forall a :: a in attempts ==> a.0 != Write(stale, true)
    ensures forall k :: 0 <= k <= |attempts| ==> Owner(current, active, attempts[..k]) != Some(stale)
    decreases |attempts|
  {
    if attempts != [] {
      var (a, ends) := attempts[0];
      var next := if !Accepted(current, active, a) then current else if a.Write? then Some(a.run) else None;
      var busy := if !Accepted(current, active, a) then active else if a.Write? then !ends else false;
      StaleRunNeverReturns(next, busy, attempts[1..], stale);
      forall k | 0 <= k <= |attempts| ensures Owner(current, active, attempts[..k]) != Some(stale) {
        if k > 0 {
          assert attempts[..k][1..] == attempts[1..][..k - 1];
          assert attempts[..k][0] == attempts[0];
        }
      }
    }
  }
}

// The project document of apps/desktop/project_store.py as far as the stage machine
// and the cleanup transaction of apps/desktop/pipeline.py read and write it.
module Projects {
  import opened Wrappers

  // A path is the sequence of its components; an ancestor is a prefix.
  type Path = seq<string>

  datatype Stage = Ingest | Colmap | Fallback | Train | Validate | Export

  datatype StageStatus =
    Pending | Running | Succeeded | Failed | Interrupted | Skipped | FallbackRequired | Stale

  datatype StageState = StageState(status: StageStatus, artifacts: seq<Path>)

  datatype ProjectStatus = Idle | Ready | Active | Finished | Broken | Stopped

  datatype Project = Project(
    hasInput: bool, isolated: bool, runId: Option<string>, status: ProjectStatus,
    currentStage: Option<Stage>, stages: map<Stage, StageState>, warnings: seq<string>)

  const FRESH := StageState(Pending, [])

  // A stage that the document does not mention counts as a fresh one.
  function StateOf(p: Project, stage: Stage): StageState {
    if stage in p.stages then p.stages[stage] else FRESH
  }

  function StatusOf(p: Project, stage: Stage): StageStatus { StateOf(p, stage).status }

  function WithState(p: Project, stage: Stage, s: StageState): Project {
    p.(stages := p.stages[stage := s])
  }

  function WithStatus(p: Project, stage: Stage, status: StageStatus): Project {
    WithState(p, stage, StateOf(p, stage).(status := status))
  }

  predicate Terminal(s: StageStatus) { s == Succeeded || s == Skipped || s == FallbackRequired }

  // ----------------------------------------------------------------- cleanup

  datatype Target = Reconstruction | Training | Viewer | Exports

  function Name(t: Target): string {
    match t
    case Reconstruction => "reconstruction"
    case Training => "training"
    case Viewer => "viewer"
    case Exports => "exports"
  }

  // The stages whose state a cleanup resets.
  function ResetStages(t: Target): set<Stage> {
    match t
    case Reconstruction => {Colmap, Fallback, Train, Validate, Export}
    case Training => {Train, Validate, Export}
    case Viewer => {Export}
    case Exports => {Export}
  }

  // The stages whose artifacts a cleanup removes.
  function RemovedStages(t: Target): set<Stage> {
    if t == Viewer then {} else ResetStages(t)
  }

  function ClearedPrefix(t: Target): string { "Cleared " + Name(t) + " outputs;" }

  function ClearedWarning(t: Target): string {
    ClearedPrefix(t) + " downstream artifacts must be rebuilt."
  }

  // The document after a committed cleanup.
  function Cleaned(p: Project, t: Target): Project {
    p.(stages := map s | s in p.stages.Keys + ResetStages(t) ::
                   if s in ResetStages(t) then FRESH else p.stages[s],
       runId := None, currentStage := None,
       status := if p.hasInput then Ready else Idle,
       warnings := p.warnings + [ClearedWarning(t)])
  }

  // What recovery takes for the trace of a committed cleanup.
  predicate LooksCleaned(p: Project, t: Target) {
    && p.runId.None?
    && (exists w :: w in p.warnings && ClearedPrefix(t) <= w)
    && (forall s :: s in ResetStages(t) ==> StatusOf(p, s) == Pending)
  }

  // The two facts about the whole controller that make that inference sound.
  predicate PendingIsEmpty(p: Project) {
    forall s :: s in p.stages && p.stages[s].status == Pending ==> p.stages[s].artifacts == []
  }

  predicate ViewerImpliesExport(p: Project, viewerManifestExists: bool) {
    viewerManifestExists ==> StatusOf(p, Export) != Pending
  }

  lemma CleanedLooksCleaned(p: Project, t: Target)
    ensures LooksCleaned(Cleaned(p, t), t)
    ensures PendingIsEmpty(p) ==> PendingIsEmpty(Cleaned(p, t))
  {
    var w := ClearedWarning(t);
    assert w in Cleaned(p, t).warnings && ClearedPrefix(t) <= w;
  }
}

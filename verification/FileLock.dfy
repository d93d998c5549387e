// packages/file_lock.py: many FileLock objects of many threads and processes on one
// path, interleaved step by step. An object is used by one thread.
module FileLock {
  import opened Wrappers

  // Where an object is inside acquire or release.
  datatype Pc =
    | Idle
    | Opening                           // the process-local lock is taken
    | Trying(stream: nat)               // the lock file is open
    | Locked(stream: nat)               // the operating system granted the lock
    | Unlocking(taken: Option<nat>)     // release has taken the stream out
    | Unlocal                           // the stream is closed
    | Dead

  // `stream` and `flag` are the fields _stream and _local_acquired. `levels` counts the
  // levels of the process-local RLock that were taken through this object and not
  // given back; the program does not store it.
  datatype Obj = Obj(process: nat, thread: nat, stream: Option<nat>, flag: bool, pc: Pc, levels: nat)

  // The owner and the recursion count of an RLock.
  datatype Local = Local(owner: nat, count: nat)

  // `locals` are the RLocks that are taken, by process; `os` is the stream that holds
  // the operating-system lock; `next` is a stream that was never opened.
  datatype State = State(objs: seq<Obj>, locals: map<nat, Local>, os: Option<nat>, next: nat)

  datatype Step =
    | Begin(o: nat)
    | Open(o: nat, error: bool)
    | Try(o: nat, timeout: bool)
    | Write(o: nat, error: bool)
    | Release(o: nat)
    | Unlock(o: nat)
    | Relinquish(o: nat)
    | Crash(process: nat)

  function Taken(locals: map<nat, Local>, p: nat, t: nat): map<nat, Local> {
    locals[p := Local(t, if p in locals then locals[p].count + 1 else 1)]
  }

  function Given(locals: map<nat, Local>, p: nat): map<nat, Local> {
    if p !in locals then locals
    else if locals[p].count <= 1 then locals - {p}
    else locals[p := locals[p].(count := locals[p].count - 1)]
  }

  function Put(s: State, o: nat, x: Obj): State
    requires o < |s.objs|
  {
    s.(objs := s.objs[o := x])
  }

  // The handler of acquire: the level is given back if the flag says so.
  function Fail(s: State, o: nat): State
    requires o < |s.objs|
  {
    var x := s.objs[o];
    if x.flag then
      Put(s, o, x.(pc := Idle, flag := false, levels := if x.levels == 0 then 0 else x.levels - 1)).(
        locals := Given(s.locals, x.process))
    else Put(s, o, x.(pc := Idle))
  }

  function Killed(objs: seq<Obj>, p: nat): seq<Obj> {
    seq(|objs|, i requires 0 <= i < |objs| =>
      if objs[i].process == p then Obj(p, objs[i].thread, None, false, Dead, 0) else objs[i])
  }

  // The stream through which an object holds the operating-system lock.
  function OwnStream(x: Obj): Option<nat> {
    if x.stream.Some? then x.stream
    else match x.pc
         case Locked(stream) => Some(stream)
         case Unlocking(taken) => taken
         case _ => None
  }

  predicate OwnedBy(objs: seq<Obj>, p: nat, stream: nat) {
    exists i :: 0 <= i < |objs| && objs[i].process == p && OwnStream(objs[i]) == Some(stream)
  }

  function Do(s: State, step: Step): State {
    match step
    case Crash(p) =>
      State(Killed(s.objs, p), s.locals - {p},
            if s.os.Some? && OwnedBy(s.objs, p, s.os.value) then None else s.os, s.next)
    case Begin(o) =>
      if o >= |s.objs| || s.objs[o].pc != Idle then s
      else
        var x := s.objs[o];
        if x.process in s.locals && s.locals[x.process].owner != x.thread then s
        else Put(s, o, x.(pc := Opening, flag := true, levels := x.levels + 1)).(
               locals := Taken(s.locals, x.process, x.thread))
    case Open(o, error) =>
      if o >= |s.objs| || s.objs[o].pc != Opening then s
      else if error then Fail(s, o)
      else Put(s, o, s.objs[o].(pc := Trying(s.next))).(next := s.next + 1)
    case Try(o, timeout) =>
      if o >= |s.objs| || !s.objs[o].pc.Trying? then s
      else if s.os.None? then Put(s, o, s.objs[o].(pc := Locked(s.objs[o].pc.stream))).(os := Some(s.objs[o].pc.stream))
      else if timeout then Fail(s, o)
      else s
    case Write(o, error) =>
      if o >= |s.objs| || !s.objs[o].pc.Locked? then s
      else if error then Fail(s, o).(os := None)
      else Put(s, o, s.objs[o].(pc := Idle, stream := Some(s.objs[o].pc.stream)))
    case Release(o) =>
      if o >= |s.objs| || s.objs[o].pc != Idle then s
      else Put(s, o, s.objs[o].(pc := Unlocking(s.objs[o].stream), stream := None))
    case Unlock(o) =>
      if o >= |s.objs| || !s.objs[o].pc.Unlocking? then s
      else Put(s, o, s.objs[o].(pc := Unlocal)).(os := if s.objs[o].pc.taken.Some? then None else s.os)
    case Relinquish(o) =>
      if o >= |s.objs| || s.objs[o].pc != Unlocal then s
      else Fail(s, o)
  }

  function Run(s: State, steps: seq<Step>): State
    decreases |steps|
  {
    if steps == [] then s else Do(Run(s, steps[..|steps| - 1]), steps[|steps| - 1])
  }

  // ------------------------------------------------------------------ the invariant

  function Levels(objs: seq<Obj>, p: nat): nat
    decreases |objs|
  {
    if objs == [] then 0
    else
      var n := |objs| - 1;
      Levels(objs[..n], p) + if objs[n].process == p then objs[n].levels else 0
  }

  // The operating-system lock belongs to the one object that owns its stream.
  ghost predicate OsLock(s: State) {
    && (forall i :: 0 <= i < |s.objs| && OwnStream(s.objs[i]).Some? ==> OwnStream(s.objs[i]) == s.os)
    && (forall i, j :: 0 <= i < |s.objs| && 0 <= j < |s.objs|
                       && OwnStream(s.objs[i]).Some? && OwnStream(s.objs[j]).Some? ==>
                         i == j)
    && (s.os.Some? ==> exists i :: 0 <= i < |s.objs| && OwnStream(s.objs[i]) == s.os)
  }

  // An object that is held, or in the middle of acquire, has its levels.
  predicate Backed(x: Obj) {
    match x.pc
    case Idle => x.levels >= (if x.flag || x.stream.Some? then 1 else 0)
    case Opening => x.flag && x.levels >= (if x.stream.Some? then 2 else 1)
    case Trying(_) => x.flag && x.levels >= (if x.stream.Some? then 2 else 1)
    case Locked(_) => x.flag && x.levels >= 1 && x.stream == None
    case Unlocking(_) => x.levels >= (if x.flag then 1 else 0) && x.stream == None
    case Unlocal => x.levels >= (if x.flag then 1 else 0) && x.stream == None
    case Dead => x.levels == 0 && x.stream == None && !x.flag
  }

  // Every RLock is taken as often as its objects took it, by the thread that did.
  ghost predicate LocalLocks(s: State) {
    && (forall p :: p in s.locals <==> Levels(s.objs, p) > 0)
    && (forall p :: p in s.locals ==> s.locals[p].count == Levels(s.objs, p))
    && (forall i :: 0 <= i < |s.objs| && s.objs[i].levels > 0 ==>
          s.objs[i].process in s.locals && s.locals[s.objs[i].process].owner == s.objs[i].thread)
  }

  ghost predicate Inv(s: State) {
    OsLock(s) && LocalLocks(s) && forall i :: 0 <= i < |s.objs| ==> Backed(s.objs[i])
  }

  lemma {:induction false} LevelsPut(objs: seq<Obj>, o: nat, x: Obj, p: nat)
    requires o < |objs| && x.process == objs[o].process
    ensures Levels(objs[o := x], p) == Levels(objs, p) + if x.process == p then x.levels - objs[o].levels else 0
    decreases |objs|
  {
    var n := |objs| - 1;
    if o == n {
      assert objs[o := x][..n] == objs[..n];
    } else {
      assert objs[o := x][..n] == objs[..n][o := x];
      LevelsPut(objs[..n], o, x, p);
    }
  }

  lemma {:induction false} LevelsAtLeast(objs: seq<Obj>, o: nat)
    requires o < |objs|
    ensures Levels(objs, objs[o].process) >= objs[o].levels
    decreases |objs|
  {
    if o < |objs| - 1 {
      LevelsAtLeast(objs[..|objs| - 1], o);
    }
  }

  lemma {:induction false} LevelsKilled(objs: seq<Obj>, p: nat, q: nat)
    ensures Levels(Killed(objs, p), q) == if p == q then 0 else Levels(objs, q)
    decreases |objs|
  {
    if objs != [] {
      var n := |objs| - 1;
      LevelsKilled(objs[..n], p, q);
      assert Killed(objs, p)[..n] == Killed(objs[..n], p);
    }
  }

  // ----------------------------------------------- the process-local locks, step by step

  lemma LocalUnchanged(s: State, o: nat, x: Obj)
    requires LocalLocks(s) && o < |s.objs|
    requires x.process == s.objs[o].process && x.thread == s.objs[o].thread && x.levels == s.objs[o].levels
    ensures LocalLocks(Put(s, o, x))
  {
    forall p ensures Levels(Put(s, o, x).objs, p) == Levels(s.objs, p) {
      LevelsPut(s.objs, o, x, p);
    }
  }

  lemma LocalTaken(s: State, o: nat, x: Obj)
    requires LocalLocks(s) && o < |s.objs|
    requires x.process == s.objs[o].process && x.thread == s.objs[o].thread && x.levels == s.objs[o].levels + 1
    requires x.process in s.locals ==> s.locals[x.process].owner == x.thread
    ensures LocalLocks(Put(s, o, x).(locals := Taken(s.locals, x.process, x.thread)))
  {
    forall p ensures Levels(Put(s, o, x).objs, p) == Levels(s.objs, p) + if x.process == p then 1 else 0 {
      LevelsPut(s.objs, o, x, p);
    }
  }

  lemma LocalGiven(s: State, o: nat, x: Obj)
    requires LocalLocks(s) && o < |s.objs| && s.objs[o].levels > 0
    requires x.process == s.objs[o].process && x.thread == s.objs[o].thread && x.levels == s.objs[o].levels - 1
    ensures LocalLocks(Put(s, o, x).(locals := Given(s.locals, x.process)))
  {
    var t := Put(s, o, x).(locals := Given(s.locals, x.process));
    forall p ensures Levels(t.objs, p) == Levels(s.objs, p) - if x.process == p then 1 else 0 {
      LevelsPut(s.objs, o, x, p);
    }
    LevelsAtLeast(s.objs, o);
    forall i | 0 <= i < |t.objs| && t.objs[i].levels > 0
      ensures t.objs[i].process in t.locals && t.locals[t.objs[i].process].owner == t.objs[i].thread
    {
      LevelsAtLeast(t.objs, i);
    }
  }

  lemma LocalFail(s: State, o: nat)
    requires LocalLocks(s) && o < |s.objs| && (s.objs[o].flag ==> s.objs[o].levels > 0)
    ensures LocalLocks(Fail(s, o))
  {
    var x := s.objs[o];
    if x.flag {
      LocalGiven(s, o, x.(pc := Idle, flag := false, levels := x.levels - 1));
    } else {
      LocalUnchanged(s, o, x.(pc := Idle));
    }
  }

  lemma LocalCrash(s: State, p: nat, os: Option<nat>)
    requires LocalLocks(s)
    ensures LocalLocks(State(Killed(s.objs, p), s.locals - {p}, os, s.next))
  {
    forall q ensures Levels(Killed(s.objs, p), q) == if p == q then 0 else Levels(s.objs, q) {
      LevelsKilled(s.objs, p, q);
    }
  }

  lemma LocalStep(s: State, step: Step)
    requires Inv(s)
    ensures LocalLocks(Do(s, step))
  {
    hide LocalLocks, Levels, OsLock;
    match step
    case Crash(p) =>
      LocalCrash(s, p, Do(s, step).os);
    case Begin(o) =>
      if o < |s.objs| {
        var x := s.objs[o];
        if x.pc == Idle && (x.process in s.locals ==> s.locals[x.process].owner == x.thread) {
          LocalTaken(s, o, x.(pc := Opening, flag := true, levels := x.levels + 1));
        }
      }
    case Open(o, error) => StepLocal(s, o, step);
    case Try(o, timeout) => StepLocal(s, o, step);
    case Write(o, error) => StepLocal(s, o, step);
    case Release(o) => StepLocal(s, o, step);
    case Unlock(o) => StepLocal(s, o, step);
    case Relinquish(o) => StepLocal(s, o, step);
  }

  lemma StepLocal(s: State, o: nat, step: Step)
    requires Inv(s) && !step.Crash? && !step.Begin? && step.o == o
    ensures LocalLocks(Do(s, step))
  {
    hide Levels, OsLock, Given;
    if o < |s.objs| {
      LocalFail(s, o);
      var t := Do(s, step);
      if t.locals == s.locals && t.objs == s.objs[o := t.objs[o]] && t.objs[o].levels == s.objs[o].levels {
        LocalUnchanged(s, o, t.objs[o]);
      }
    }
  }

  // ------------------------------------------------- the operating-system lock and the rest

  lemma BackedStep(s: State, step: Step)
    requires Inv(s)
    ensures forall i :: 0 <= i < |Do(s, step).objs| ==> Backed(Do(s, step).objs[i])
  {
    hide LocalLocks, Levels, Given, Taken;
  }

  // An object moves without touching the lock, takes it, or gives it back.
  lemma OsKept(s: State, o: nat, x: Obj)
    requires OsLock(s) && o < |s.objs| && OwnStream(x) == OwnStream(s.objs[o])
    ensures OsLock(Put(s, o, x))
  {
    if s.os.Some? {
      var i :| 0 <= i < |s.objs| && OwnStream(s.objs[i]) == s.os;
      assert OwnStream(Put(s, o, x).objs[i]) == s.os;
    }
  }

  lemma OsTaken(s: State, o: nat, x: Obj)
    requires OsLock(s) && o < |s.objs| && s.os == None && OwnStream(x).Some?
    ensures OsLock(Put(s, o, x).(os := OwnStream(x)))
  {
    assert OwnStream(Put(s, o, x).objs[o]).Some?;
  }

  lemma OsGiven(s: State, o: nat, x: Obj)
    requires OsLock(s) && o < |s.objs| && OwnStream(s.objs[o]).Some? && OwnStream(x) == None
    ensures OsLock(Put(s, o, x).(os := None))
  {
  }

  lemma OsFail(s: State, o: nat)
    requires OsLock(s) && o < |s.objs|
    ensures OwnStream(s.objs[o]) == s.objs[o].stream ==> OsLock(Fail(s, o))
    ensures s.objs[o].pc.Locked? && s.objs[o].stream == None ==> OsLock(Fail(s, o).(os := None))
  {
    hide OsLock;
    var x := s.objs[o];
    var y := if x.flag then x.(pc := Idle, flag := false, levels := if x.levels == 0 then 0 else x.levels - 1)
             else x.(pc := Idle);
    if OwnStream(x) == x.stream {
      OsKept(s, o, y);
      OsFieldsOnly(Put(s, o, y), Fail(s, o));
    }
    if x.pc.Locked? && x.stream == None {
      OsGiven(s, o, y);
      OsFieldsOnly(Put(s, o, y).(os := None), Fail(s, o).(os := None));
    }
  }

  lemma OsFieldsOnly(s: State, t: State)
    requires OsLock(s) && t.objs == s.objs && t.os == s.os
    ensures OsLock(t)
  {
  }

  lemma OsStep(s: State, step: Step)
    requires Inv(s) && !step.Crash?
    ensures OsLock(Do(s, step))
  {
    hide OsLock, LocalLocks, Levels, Given, Taken, Fail;
    var o, t := step.o, Do(s, step);
    if o < |s.objs| && t != s {
      var x := s.objs[o];
      OsFail(s, o);
      match step
      case Begin(_) =>
        var y := x.(pc := Opening, flag := true, levels := x.levels + 1);
        OsKept(s, o, y);
        OsFieldsOnly(Put(s, o, y), t);
      case Open(_, error) =>
        if !error {
          OsKept(s, o, x.(pc := Trying(s.next)));
          OsFieldsOnly(Put(s, o, x.(pc := Trying(s.next))), t);
        }
      case Try(_, timeout) =>
        if s.os.None? {
          NotHeld(s, o);
          OsTaken(s, o, x.(pc := Locked(x.pc.stream)));
        }
      case Write(_, error) =>
        if !error {
          OsKept(s, o, x.(pc := Idle, stream := Some(x.pc.stream)));
        }
      case Release(_) => OsKept(s, o, x.(pc := Unlocking(x.stream), stream := None));
      case Unlock(_) =>
        if x.pc.taken.Some? {
          OsGiven(s, o, x.(pc := Unlocal));
        } else {
          OsKept(s, o, x.(pc := Unlocal));
        }
      case Relinquish(_) =>
    }
  }

  lemma NotHeld(s: State, o: nat)
    requires OsLock(s) && o < |s.objs| && s.os == None
    ensures s.objs[o].stream == None
  {
    assert OwnStream(s.objs[o]) == None || s.os.Some?;
  }

  lemma OsCrash(s: State, p: nat)
    requires Inv(s)
    ensures OsLock(Do(s, Crash(p)))
  {
    hide LocalLocks, Levels, Given, Taken;
    var t := Do(s, Crash(p));
    forall i | 0 <= i < |t.objs| && OwnStream(t.objs[i]).Some? ensures OwnStream(t.objs[i]) == t.os {
      assert OwnStream(s.objs[i]) == OwnStream(t.objs[i]) && s.objs[i].process != p;
      assert forall j :: 0 <= j < |s.objs| && OwnStream(s.objs[j]).Some? ==> j == i;
    }
    if t.os.Some? {
      var i :| 0 <= i < |s.objs| && OwnStream(s.objs[i]) == s.os;
      assert OwnStream(t.objs[i]) == t.os;
    }
  }

  lemma StepInv(s: State, step: Step)
    requires Inv(s)
    ensures Inv(Do(s, step))
  {
    hide LocalLocks, OsLock, Do, Backed;
    LocalStep(s, step);
    BackedStep(s, step);
    if step.Crash? {
      OsCrash(s, step.process);
    } else {
      OsStep(s, step);
    }
  }

  // New objects of any processes and threads; nothing is locked.
  ghost predicate Initial(s: State) {
    && s.locals == map[] && s.os == None
    && forall i :: 0 <= i < |s.objs| ==>
         s.objs[i].pc == Idle && s.objs[i].stream == None && !s.objs[i].flag && s.objs[i].levels == 0
  }

  lemma {:induction false} NoLevels(objs: seq<Obj>, p: nat)
    requires forall i :: 0 <= i < |objs| ==> objs[i].levels == 0
    ensures Levels(objs, p) == 0
    decreases |objs|
  {
    if objs != [] {
      NoLevels(objs[..|objs| - 1], p);
    }
  }

  lemma {:induction false} RunInv(s: State, steps: seq<Step>)
    requires Initial(s)
    ensures Inv(Run(s, steps))
    decreases |steps|
  {
    if steps == [] {
      forall p ensures Levels(s.objs, p) == 0 {
        NoLevels(s.objs, p);
      }
    } else {
      RunInv(s, steps[..|steps| - 1]);
      StepInv(Run(s, steps[..|steps| - 1]), steps[|steps| - 1]);
    }
  }

  // ------------------------------------------------------------------ the theorems

  predicate IsHeld(x: Obj) { x.stream.Some? }

  // In every interleaving at most one object is held, and a held object owns both the
  // operating-system lock and its process's RLock.
  lemma MutualExclusion(s: State, steps: seq<Step>, i: nat, j: nat)
    requires Initial(s)
    requires i < |Run(s, steps).objs| && IsHeld(Run(s, steps).objs[i])
    requires j < |Run(s, steps).objs| && IsHeld(Run(s, steps).objs[j])
    ensures i == j
    ensures var t := Run(s, steps);
      && t.os == t.objs[i].stream
      && t.objs[i].process in t.locals && t.locals[t.objs[i].process].owner == t.objs[i].thread
  {
    RunInv(s, steps);
    var t := Run(s, steps);
    assert Backed(t.objs[i]);
    assert OwnStream(t.objs[i]).Some? && OwnStream(t.objs[j]).Some?;
  }

  // A crash frees what the process had, although the lock file is still there: no
  // stream of it owns the lock, and if the lock was its own, it is free.
  lemma CrashFrees(s: State, steps: seq<Step>, p: nat)
    requires Initial(s)
    ensures var t := Run(s, steps); var u := Do(t, Crash(p));
      && Inv(u) && p !in u.locals
      && (forall i :: 0 <= i < |u.objs| && u.objs[i].process == p ==> !IsHeld(u.objs[i]))
      && (t.os.Some? && OwnedBy(t.objs, p, t.os.value) ==> u.os == None)
      && (forall i :: 0 <= i < |u.objs| && u.objs[i].process != p ==> u.objs[i] == t.objs[i])
  {
    RunInv(s, steps);
    var t := Run(s, steps);
    StepInv(t, Crash(p));
  }

  // A free lock is taken by the next acquire that nothing disturbs.
  lemma FreeLockIsAcquired(s: State, steps: seq<Step>, o: nat)
    requires Initial(s) && o < |Run(s, steps).objs|
    requires var t := Run(s, steps); t.os == None && t.objs[o].pc == Idle && t.objs[o].process !in t.locals
    ensures var t := Run(s, steps);
      var u := Do(Do(Do(Do(t, Begin(o)), Open(o, false)), Try(o, false)), Write(o, false));
      o < |u.objs| && IsHeld(u.objs[o])
  {
  }

  // ------------------------------------------------------- what a failed acquire leaves

  // The three ways an acquire raises once it has the process-local lock; what other
  // threads and processes do in between does not touch this object.
  function Failures(s: State, o: nat): seq<State>
    requires o < |s.objs|
  {
    var opening := Do(s, Begin(o));
    var trying := Do(opening, Open(o, false));
    [Do(opening, Open(o, true)), Do(trying, Try(o, true)), Do(Do(trying, Try(o, false)), Write(o, true))]
  }

  lemma OthersLeaveAlone(s: State, step: Step, o: nat)
    requires o < |s.objs|
    requires if step.Crash? then step.process != s.objs[o].process else step.o != o
    ensures |Do(s, step).objs| == |s.objs| && Do(s, step).objs[o] == s.objs[o]
  {
  }

  lemma TakenThenGiven(locals: map<nat, Local>, p: nat, t: nat)
    requires p in locals ==> locals[p].owner == t && locals[p].count >= 1
    ensures Given(Taken(locals, p, t), p) == locals
  {
  }

  lemma TakenOnce(s: State, o: nat)
    requires Inv(s) && o < |s.objs| && s.objs[o].pc == Idle && Do(s, Begin(o)) != s
    ensures var x := s.objs[o];
      && Do(s, Begin(o)) == Put(s, o, x.(pc := Opening, flag := true, levels := x.levels + 1)).(
                              locals := Taken(s.locals, x.process, x.thread))
      && Given(Taken(s.locals, x.process, x.thread), x.process) == s.locals
  {
    TakenThenGiven(s.locals, s.objs[o].process, s.objs[o].thread);
  }

  // A raising acquire leaves the object and both locks as it found them exactly when
  // the flag was not set, that is, when the object was not held already; otherwise the
  // flag is lost.
  lemma FailureRestores(s: State, o: nat, way: nat)
    requires Inv(s) && o < |s.objs| && s.objs[o].pc == Idle && way < 3
    requires Do(s, Begin(o)) != s
    requires if way == 1 then s.os.Some? else way == 2 ==> s.os.None?
    ensures Failures(s, o)[way].objs == s.objs[o := s.objs[o].(flag := false)]
    ensures Failures(s, o)[way].locals == s.locals && Failures(s, o)[way].os == s.os
    ensures Failures(s, o)[way].objs == s.objs <==> !s.objs[o].flag
  {
    hide OsLock, LocalLocks, Taken, Given, Levels, Backed;
    TakenOnce(s, o);
    var x := s.objs[o];
    assert s.objs[o := x] == s.objs;
  }

  // No acquire is ever begun on an object whose flag is still set.
  ghost predicate Disciplined(s: State, steps: seq<Step>)
    decreases |steps|
  {
    steps == [] ||
      (Disciplined(s, steps[..|steps| - 1]) &&
       var t, step := Run(s, steps[..|steps| - 1]), steps[|steps| - 1];
       step.Begin? && step.o < |t.objs| ==> !t.objs[step.o].flag)
  }

  predicate Tidy(x: Obj) {
    && x.levels == (if x.flag then 1 else 0)
    && (x.pc == Idle ==> x.flag == x.stream.Some?)
    && (x.pc.Opening? || x.pc.Trying? || x.pc.Locked? ==> x.flag && x.stream == None)
    && (x.pc.Unlocking? || x.pc.Unlocal? ==> x.stream == None)
  }

  // Then nothing ever leaks: a level of an RLock is held exactly for the objects that
  // are held or in the middle of an operation.
  lemma {:induction false} NothingLeaks(s: State, steps: seq<Step>)
    requires Initial(s) && Disciplined(s, steps)
    ensures forall i :: 0 <= i < |Run(s, steps).objs| ==> Tidy(Run(s, steps).objs[i])
    decreases |steps|
  {
    if steps != [] {
      NothingLeaks(s, steps[..|steps| - 1]);
      TidyStep(Run(s, steps[..|steps| - 1]), steps[|steps| - 1]);
    }
  }

  lemma TidyStep(s: State, step: Step)
    requires forall i :: 0 <= i < |s.objs| ==> Tidy(s.objs[i])
    requires step.Begin? && step.o < |s.objs| ==> !s.objs[step.o].flag
    ensures forall i :: 0 <= i < |Do(s, step).objs| ==> Tidy(Do(s, step).objs[i])
  {
  }

  lemma IdleMeansFree(s: State, steps: seq<Step>)
    requires Initial(s) && Disciplined(s, steps)
    requires forall i :: 0 <= i < |Run(s, steps).objs| ==>
      Run(s, steps).objs[i].pc.Idle? && !IsHeld(Run(s, steps).objs[i])
    ensures Run(s, steps).locals == map[] && Run(s, steps).os == None
  {
    NothingLeaks(s, steps);
    RunInv(s, steps);
    var t := Run(s, steps);
    forall p ensures Levels(t.objs, p) == 0 {
      NoLevels(t.objs, p);
    }
    assert forall i :: 0 <= i < |t.objs| ==> OwnStream(t.objs[i]) == None;
  }

  lemma RunSnoc(s: State, steps: seq<Step>, step: Step)
    ensures Run(s, steps + [step]) == Do(Run(s, steps), step)
  {
    assert (steps + [step])[..|steps|] == steps;
  }

  // Two threads of one process, each with an object, of which only the first moves.
  function Pair(x: Obj, count: nat, os: Option<nat>, next: nat): State {
    State([x, Obj(0, 1, None, false, Idle, 0)], if count == 0 then map[] else map[0 := Local(0, count)], os, next)
  }

  const LEAKING: seq<Step> :=
    [Begin(0), Open(0, false), Try(0, false), Write(0, false),
     Begin(0), Open(0, false), Try(0, true), Release(0), Unlock(0), Relinquish(0)]

  function Leaking(k: nat): State {
    if k == 0 then Pair(Obj(0, 0, None, false, Idle, 0), 0, None, 0)
    else if k == 1 then Pair(Obj(0, 0, None, true, Opening, 1), 1, None, 0)
    else if k == 2 then Pair(Obj(0, 0, None, true, Trying(0), 1), 1, None, 1)
    else if k == 3 then Pair(Obj(0, 0, None, true, Locked(0), 1), 1, Some(0), 1)
    else if k == 4 then Pair(Obj(0, 0, Some(0), true, Idle, 1), 1, Some(0), 1)
    else if k == 5 then Pair(Obj(0, 0, Some(0), true, Opening, 2), 2, Some(0), 1)
    else if k == 6 then Pair(Obj(0, 0, Some(0), true, Trying(1), 2), 2, Some(0), 2)
    else if k == 7 then Pair(Obj(0, 0, Some(0), false, Idle, 1), 1, Some(0), 2)
    else if k == 8 then Pair(Obj(0, 0, None, false, Unlocking(Some(0)), 1), 1, Some(0), 2)
    else if k == 9 then Pair(Obj(0, 0, None, false, Unlocal, 1), 1, None, 2)
    else Pair(Obj(0, 0, None, false, Idle, 1), 1, None, 2)
  }

  lemma LeakStep(k: nat)
    requires k < 10
    ensures Do(Leaking(k), LEAKING[k]) == Leaking(k + 1)
  {
    assert Do(Leaking(k), LEAKING[k]).objs == Leaking(k + 1).objs;
  }

  lemma {:induction false} LeakRun(k: nat)
    requires k <= 10
    ensures Run(Leaking(0), LEAKING[..k]) == Leaking(k)
  {
    if k > 0 {
      hide Do, Leaking;
      LeakRun(k - 1);
      assert LEAKING[..k] == LEAKING[..k - 1] + [LEAKING[k - 1]];
      RunSnoc(Leaking(0), LEAKING[..k - 1], LEAKING[k - 1]);
      LeakStep(k - 1);
    }
  }

  // Without the discipline a level leaks: acquire, acquire again, release. Nothing is
  // held, and yet the other thread of the process cannot begin.
  lemma ReacquireLeaks()
    ensures Initial(Leaking(0))
    ensures var t := Run(Leaking(0), LEAKING);
      && |t.objs| == 2
      && (forall i :: 0 <= i < 2 ==> t.objs[i].pc == Idle && !IsHeld(t.objs[i]))
      && Do(t, Begin(1)) == t
  {
    LeakRun(10);
    assert LEAKING[..10] == LEAKING;
  }

  // ------------------------------------------------------ one thread among the others

  // Steps that do not belong to object o and do not kill its process.
  predicate Foreign(steps: seq<Step>, o: nat, process: nat) {
    forall step :: step in steps ==> if step.Crash? then step.process != process else step.o != o
  }

  lemma {:induction false} ForeignRun(s: State, steps: seq<Step>, o: nat)
    requires Inv(s) && o < |s.objs| && Foreign(steps, o, s.objs[o].process)
    ensures Inv(Run(s, steps)) && |Run(s, steps).objs| == |s.objs| && Run(s, steps).objs[o] == s.objs[o]
    decreases |steps|
  {
    if steps != [] {
      hide Inv, Do;
      var n := |steps| - 1;
      ForeignRun(s, steps[..n], o);
      assert steps[n] in steps;
      StepInv(Run(s, steps[..n]), steps[n]);
      OthersLeaveAlone(Run(s, steps[..n]), steps[n], o);
    }
  }

  // What is left of an object whose acquire raises after it took the process-local lock.
  function Restored(x: Obj): Obj { x.(pc := Idle, flag := false, levels := if x.levels == 0 then 0 else x.levels - 1) }

  lemma StepEffects(s: State, o: nat, step: Step)
    requires o < |s.objs| && !step.Crash? && step.o == o
    ensures |Do(s, step).objs| == |s.objs|
    ensures var x, y := s.objs[o], Do(s, step).objs[o];
      && y.process == x.process && y.thread == x.thread
      && (step.Begin? && x.pc == Idle ==> y == x || y == x.(pc := Opening, flag := true, levels := x.levels + 1))
      && (step.Open? && x.pc == Opening && x.flag ==>
            y == if step.error then Restored(x) else x.(pc := Trying(s.next)))
      && (step.Try? && x.pc.Trying? && x.flag ==>
            y == x.(pc := Locked(x.pc.stream)) || y == if step.timeout then Restored(x) else x)
      && (step.Write? && x.pc.Locked? && x.flag ==>
            if step.error then y == Restored(x)
            else y == x.(pc := Idle, stream := Some(x.pc.stream)))
      && (step.Release? && x.pc == Idle ==> y == x.(pc := Unlocking(x.stream), stream := None))
      && (step.Unlock? && x.pc.Unlocking? ==> y == x.(pc := Unlocal))
      && (step.Relinquish? && x.pc == Unlocal ==> y == if x.flag then Restored(x) else x.(pc := Idle))
  {
  }

  // The calls of one thread. Before each of their steps the rest of the world takes any
  // foreign steps: `world(0)`, then `world(1)`, and so on.
  class Caller {
    var s: State
    var turn: nat

    constructor (s: State)
      requires Inv(s)
      ensures this.s == s && turn == 0
    {
      this.s, turn := s, 0;
    }

    method Take(step: Step, o: nat, world: nat -> seq<Step>) returns (ghost before: State)
      requires Inv(s) && o < |s.objs| && !step.Crash? && step.o == o
      requires forall k :: Foreign(world(k), o, s.objs[o].process)
      modifies this
      ensures Inv(before) && Inv(s) && |s.objs| == |before.objs| == |old(s).objs|
      ensures before == Run(old(s), world(old(turn))) && before.objs[o] == old(s).objs[o] && s == Do(before, step)
      ensures s.objs[o].process == old(s).objs[o].process
    {
      hide Inv, Do;
      ForeignRun(s, world(turn), o);
      s := Run(s, world(turn));
      before := s;
      StepInv(s, step);
      StepEffects(s, o, step);
      s := Do(s, step);
      turn := turn + 1;
    }

    // acquire: both loops give up after `attempts` rounds.
    method Acquire(o: nat, attempts: nat, openFails: bool, writeFails: bool, world: nat -> seq<Step>) returns (ok: bool)
      requires Inv(s) && o < |s.objs| && s.objs[o].pc == Idle
      requires forall k :: Foreign(world(k), o, s.objs[o].process)
      modifies this
      ensures Inv(s) && |s.objs| == |old(s).objs|
      // it holds the object and has taken one level more ...
      ensures ok ==> IsHeld(s.objs[o])
      ensures ok ==>
      s.objs[o] == old(s).objs[o].(stream := s.objs[o].stream, flag := true, levels := old(s).objs[o].levels + 1)
      // ... or raises and leaves everything about it as it was, but for the flag of an
      // object that was held already
      ensures !ok ==> s.objs[o] == old(s).objs[o] || s.objs[o] == old(s).objs[o].(flag := false)
      ensures !ok && Tidy(old(s).objs[o]) && !IsHeld(old(s).objs[o]) ==> s.objs[o] == old(s).objs[o]
    {
      hide Inv, Do, Foreign;
      ghost var x := s.objs[o];
      ghost var before;
      var k := 0;
      while s.objs[o].pc == Idle
        invariant Inv(s) && |s.objs| == |old(s).objs| && s.objs[o].process == x.process
        invariant s.objs[o] == x || s.objs[o] == x.(pc := Opening, flag := true, levels := x.levels + 1)
        invariant s.objs[o].pc == Idle ==> k <= attempts
        decreases attempts + 1 - k
      {
        before := Take(Begin(o), o, world);
        StepEffects(before, o, Begin(o));
        if s.objs[o].pc == Idle && k >= attempts {
          return false;
        }
        k := k + 1;
      }
      before := Take(Open(o, openFails), o, world);
      StepEffects(before, o, Open(o, openFails));
      if openFails {
        return false;
      }
      k := 0;
      while s.objs[o].pc.Trying?
        invariant Inv(s) && |s.objs| == |old(s).objs| && s.objs[o].process == x.process
        invariant s.objs[o].pc.Trying? || s.objs[o].pc.Locked?
        invariant s.objs[o] == x.(pc := s.objs[o].pc, flag := true, levels := x.levels + 1)
        invariant s.objs[o].pc.Trying? ==> k <= attempts
        decreases attempts + 1 - k
      {
        before := Take(Try(o, k >= attempts), o, world);
        StepEffects(before, o, Try(o, k >= attempts));
        if s.objs[o].pc == Idle {
          return false;
        }
        k := k + 1;
      }
      before := Take(Write(o, writeFails), o, world);
      StepEffects(before, o, Write(o, writeFails));
      ok := !writeFails;
    }

    // release, of an object held or not.
    method ReleaseLock(o: nat, world: nat -> seq<Step>)
      requires Inv(s) && o < |s.objs| && s.objs[o].pc == Idle
      requires forall k :: Foreign(world(k), o, s.objs[o].process)
      modifies this
      ensures Inv(s) && |s.objs| == |old(s).objs|
      ensures s.objs[o] == old(s).objs[o].(stream := None, flag := false,
        levels := old(s).objs[o].levels - if old(s).objs[o].flag && old(s).objs[o].levels > 0 then 1 else 0)
    {
      hide Inv, Do, Foreign;
      var before := Take(Release(o), o, world);
      StepEffects(before, o, Release(o));
      before := Take(Unlock(o), o, world);
      StepEffects(before, o, Unlock(o));
      before := Take(Relinquish(o), o, world);
      StepEffects(before, o, Relinquish(o));
    }
  }
}

// packages/pipeline/runner.py: supervision of one worker process. The worker may do
// anything: exit at any time with any code and write any result.
module Runner {
  import opened Wrappers
  import Artifacts = ArtifactStore

  // What the wait loop sees in one round: the exit code, if the process has ended, the
  // monotonic clock, and whether the token is cancelled by now.
  datatype Poll = Poll(exit: Option<int>, now: real, cancelled: bool)

  datatype Stop = Cancelled | TimedOut

  datatype Event = CancelFile(stop: Stop) | Kill

  // The clock advances at least by the pause between two rounds, and a token once
  // cancelled stays so.
  ghost predicate Lawful(polls: nat -> Poll, pause: real) {
    && pause > 0.0
    && (forall i: nat :: polls(i + 1).now >= polls(i).now + pause)
    && (forall i: nat :: polls(i).cancelled ==> polls(i + 1).cancelled)
  }

  // Round k is the first in which the loop finds a reason to stop.
  ghost predicate FirstReason(polls: nat -> Poll, deadline: real, k: nat) {
    && (polls(k).cancelled || polls(k).now >= deadline)
    && forall i :: 0 <= i < k ==> !polls(i).cancelled && polls(i).now < deadline
  }

  // The kill comes in round `last`: the first one after the grace period that began in the
  // round of the reason.
  ghost predicate KillAt(polls: nat -> Poll, deadline: real, grace: real, stopped: nat, last: nat) {
    && stopped <= last && FirstReason(polls, deadline, stopped)
    && polls(last).now >= polls(stopped).now + grace
    && (stopped < last ==> polls(last - 1).now < polls(stopped).now + grace)
  }

  function Reason(p: Poll): Stop { if p.cancelled then Cancelled else TimedOut }

  datatype Ending =
    | Exited(code: int, stop: Option<Stop>)     // the process ended, killed or not
    | WriteFailed                               // the cancel file could not be written

  class Supervisor {
    var alive: bool
    ghost var events: seq<Event>

    constructor ()
      ensures alive && events == []
    {
      alive, events := true, [];
    }

    // _wait_for_process. `killedCode` is the exit code after a kill.
    method Wait(polls: nat -> Poll, deadline: real, grace: real, ghost pause: real, writes: bool, killedCode: int)
      returns (ending: Ending, last: nat, ghost stopped: nat)
      requires alive && events == [] && Lawful(polls, pause) && grace >= 0.0
      modifies this
      ensures alive <==> ending == WriteFailed
      // no reason was seen: the process ended by itself
      ensures ending.Exited? && ending.stop.None? ==>
        && events == [] && polls(last).exit == Some(ending.code)
        && forall i :: 0 <= i < last ==> !polls(i).cancelled && polls(i).now < deadline
      // the first reason decides, and nothing changes it afterwards
      ensures ending.Exited? && ending.stop.Some? ==>
        stopped <= last && FirstReason(polls, deadline, stopped) && ending.stop.value == Reason(polls(stopped))
      // one cancel file, before any kill
      ensures ending.Exited? && ending.stop.Some? ==>
        events == [CancelFile(ending.stop.value)] || events == [CancelFile(ending.stop.value), Kill]
      ensures Kill !in events && ending.Exited? ==> polls(last).exit == Some(ending.code)
      // a kill comes in the first round after the grace period
      ensures Kill in events ==>
        && ending.Exited? && ending.code == killedCode && polls(last).exit.None?
        && KillAt(polls, deadline, grace, stopped, last)
      ensures ending == WriteFailed ==>
        !writes && events == [] && FirstReason(polls, deadline, last) && polls(last).exit.None?
      ensures forall i :: 0 <= i < last ==> polls(i).exit.None?
      ensures writes ==> ending.Exited?
    {
      hide Lawful, Reason, FirstReason;
      var stop: Option<Stop> := None;
      var graceDeadline := 0.0;
      ghost var first := Reaches(polls, pause, deadline);
      ghost var final := Reaches(polls, pause, polls(first).now + grace);
      Monotone(polls, pause, first, final);
      last, stopped := 0, 0;
      while true
        invariant alive
        invariant stop.None? ==>
          events == [] && forall i :: 0 <= i < last ==> !polls(i).cancelled && polls(i).now < deadline
        invariant stop.Some? ==>
          && stopped < last && FirstReason(polls, deadline, stopped) && stop.value == Reason(polls(stopped))
          && events == [CancelFile(stop.value)] && graceDeadline == polls(stopped).now + grace
          && polls(last - 1).now < graceDeadline
        invariant forall i :: 0 <= i < last ==> polls(i).exit.None?
        invariant last <= first + final
        invariant stop.Some? ==> stopped <= first
        decreases first + final + 1 - last
      {
        if polls(last).exit.Some? {
          alive := false;
          return Exited(polls(last).exit.value, stop), last, stopped;
        }
        var now := polls(last).now;
        NowFirst(polls, deadline, last);
        if stop.None? && (polls(last).cancelled || now >= deadline) {
          if !writes {
            return WriteFailed, last, stopped;
          }
          stop, graceDeadline := Some(Reason(polls(last))), now + grace;
          stopped := last;
          events := events + [CancelFile(stop.value)];
        }
        if stop.Some? && now >= graceDeadline {
          alive := false;
          events := events + [Kill];
          return Exited(killedCode, stop), last, stopped;
        }
        NotYet(polls, pause, deadline, grace, first, final, last, stop.Some?, stopped);
        last := last + 1;
      }
    }
  }

  lemma NowFirst(polls: nat -> Poll, deadline: real, k: nat)
    ensures (polls(k).cancelled || polls(k).now >= deadline)
            && (forall i :: 0 <= i < k ==> !polls(i).cancelled && polls(i).now < deadline) ==>
              FirstReason(polls, deadline, k)
  {
  }

  // Some round is past any given time.
  lemma Reaches(polls: nat -> Poll, pause: real, time: real) returns (n: nat)
    requires Lawful(polls, pause)
    ensures polls(n).now >= time
  {
    var wait := time - polls(0).now;
    if wait <= 0.0 {
      n := 0;
    } else {
      n := (wait / pause).Floor + 1;
      assert n as real >= wait / pause;
      assert n as real * pause >= wait;
      Elapsed(polls, pause, n);
    }
  }

  lemma {:induction false} Elapsed(polls: nat -> Poll, pause: real, n: nat)
    requires Lawful(polls, pause)
    ensures polls(n).now >= polls(0).now + n as real * pause
  {
    if n > 0 {
      Elapsed(polls, pause, n - 1);
      assert polls((n - 1) + 1).now >= polls(n - 1).now + pause;
      assert n as real * pause == (n - 1) as real * pause + pause;
    }
  }

  lemma {:induction false} Monotone(polls: nat -> Poll, pause: real, i: nat, j: nat)
    requires Lawful(polls, pause)
    ensures i <= j ==> polls(i).now <= polls(j).now
    decreases j
  {
    if i < j {
      Monotone(polls, pause, i, j - 1);
      assert polls((j - 1) + 1).now >= polls(j - 1).now + pause;
    }
  }

  // A round that does not return comes before the two rounds that bound the loop.
  lemma NotYet(polls: nat -> Poll, pause: real, deadline: real, grace: real,
               first: nat, final: nat, last: nat, stopping: bool, stopped: nat)
    requires Lawful(polls, pause) && polls(first).now >= deadline && polls(final).now >= polls(first).now + grace
    requires grace >= 0.0
    requires !stopping ==> polls(last).now < deadline
    requires stopping ==> FirstReason(polls, deadline, stopped) && polls(last).now < polls(stopped).now + grace
    ensures last < first + final + 1 && (stopping ==> stopped <= first && last < final)
    ensures !stopping ==> last < first
  {
    if !stopping {
      Monotone(polls, pause, first, last);
    } else {
      Monotone(polls, pause, stopped, first);
      Monotone(polls, pause, final, last);
    }
  }

  // ------------------------------------------------------------------- time bounds

  // When a kill comes, seen from the round that gave the reason and from the deadline;
  // `gap` bounds the time between two rounds.
  lemma KillIsPrompt(polls: nat -> Poll, deadline: real, grace: real, gap: real, stopped: nat, last: nat)
    requires KillAt(polls, deadline, grace, stopped, last) && grace >= 0.0 && gap > 0.0
    requires forall i: nat :: polls(i + 1).now <= polls(i).now + gap
    ensures polls(last).now < polls(stopped).now + grace + gap
    ensures polls(0).now < deadline ==>
      polls(stopped).now < deadline + gap && polls(last).now < deadline + grace + 2.0 * gap
  {
    if stopped < last {
      assert polls((last - 1) + 1).now <= polls(last - 1).now + gap;
    }
    if stopped > 0 {
      assert polls((stopped - 1) + 1).now <= polls(stopped - 1).now + gap;
    }
  }

  // And seen from the cancellation itself: every round from that time on finds the token
  // cancelled.
  lemma CancelIsPrompt(polls: nat -> Poll, deadline: real, grace: real, gap: real, cancelAt: real,
                       stopped: nat, last: nat)
    requires KillAt(polls, deadline, grace, stopped, last) && grace >= 0.0 && gap > 0.0
    requires forall i: nat :: polls(i + 1).now <= polls(i).now + gap
    requires polls(0).now < cancelAt && forall i: nat :: polls(i).now >= cancelAt ==> polls(i).cancelled
    ensures polls(stopped).now < cancelAt + gap && polls(last).now < cancelAt + grace + 2.0 * gap
  {
    KillIsPrompt(polls, deadline, grace, gap, stopped, last);
    if stopped > 0 {
      assert !polls(stopped - 1).cancelled;
      assert polls((stopped - 1) + 1).now <= polls(stopped - 1).now + gap;
    }
  }

  // The clock of a supervision that starts before its deadline.
  ghost predicate Steady(polls: nat -> Poll, pause: real, gap: real, deadline: real) {
    Lawful(polls, pause) && (forall i: nat :: polls(i + 1).now <= polls(i).now + gap) && polls(0).now < deadline
  }

  ghost predicate OneGapSuffices(deadline: real, grace: real, pause: real, gap: real) {
    forall polls: nat -> Poll, stopped: nat, last: nat ::
      Steady(polls, pause, gap, deadline) && KillAt(polls, deadline, grace, stopped, last) ==>
        polls(last).now < deadline + grace + gap
  }

  // So many pauses.
  function Times(n: nat, x: real): real { if n == 0 then 0.0 else Times(n - 1, x) + x }

  ghost predicate Multiple(x: real, unit: real) { exists n: nat :: x == Times(n, unit) }

  // The kill comes before deadline, grace and one gap, on every clock whose rounds are at
  // least a pause and at most a gap apart, exactly when there is no grace period, or all
  // rounds are equally far apart and the grace period is a whole number of them.
  lemma OneGapExactly(deadline: real, grace: real, pause: real, gap: real)
    requires grace >= 0.0 && 0.0 < pause <= gap
    ensures OneGapSuffices(deadline, grace, pause, gap) <==> grace == 0.0 || (pause == gap && Multiple(grace, gap))
  {
    hide Steady, KillAt, Multiple;
    if grace == 0.0 {
      forall polls: nat -> Poll, stopped: nat, last: nat
        | Steady(polls, pause, gap, deadline) && KillAt(polls, deadline, grace, stopped, last)
        ensures polls(last).now < deadline + grace + gap
      {
        NoGrace(polls, pause, gap, deadline, stopped, last);
      }
    } else if pause == gap && Multiple(grace, gap) {
      var n := HowMany(grace, gap);
      forall polls: nat -> Poll, stopped: nat, last: nat
        | Steady(polls, pause, gap, deadline) && KillAt(polls, deadline, grace, stopped, last)
        ensures polls(last).now < deadline + grace + gap
      {
        EvenRounds(polls, gap, deadline, n, stopped, last);
      }
    } else {
      var polls, last := LateKill(deadline, grace, pause, gap);
      assert Steady(polls, pause, gap, deadline) && KillAt(polls, deadline, grace, 1, last);
    }
  }

  lemma HowMany(x: real, unit: real) returns (n: nat)
    requires Multiple(x, unit)
    ensures x == Times(n, unit)
  {
    n :| x == Times(n, unit);
  }

  // Whatever the pause: over all clocks with rounds at most a gap apart, one gap is enough
  // exactly when there is no grace period.
  lemma OneGapOnEveryClock(deadline: real, grace: real, gap: real)
    requires grace >= 0.0 && gap > 0.0
    ensures (forall pause :: 0.0 < pause <= gap ==> OneGapSuffices(deadline, grace, pause, gap)) <==> grace == 0.0
  {
    forall pause | 0.0 < pause <= gap
      ensures OneGapSuffices(deadline, grace, pause, gap) <==> grace == 0.0 || (pause == gap && Multiple(grace, gap))
    {
      OneGapExactly(deadline, grace, pause, gap);
    }
    assert OneGapSuffices(deadline, grace, gap / 2.0, gap) <==> grace == 0.0;
  }

  lemma NoGrace(polls: nat -> Poll, pause: real, gap: real, deadline: real, stopped: nat, last: nat)
    requires Steady(polls, pause, gap, deadline) && KillAt(polls, deadline, 0.0, stopped, last) && gap > 0.0
    ensures last == stopped && polls(last).now < deadline + gap
  {
    if stopped < last {
      Monotone(polls, pause, stopped, last - 1);
    }
    KillIsPrompt(polls, deadline, 0.0, gap, stopped, last);
  }

  lemma EvenRounds(polls: nat -> Poll, gap: real, deadline: real, n: nat, stopped: nat, last: nat)
    requires Steady(polls, gap, gap, deadline) && KillAt(polls, deadline, Times(n, gap), stopped, last) && gap > 0.0
    ensures last == stopped + n && polls(last).now < deadline + Times(n, gap) + gap
  {
    hide KillAt, FirstReason;
    KillFacts(polls, deadline, Times(n, gap), stopped, last);
    EvenlyApart(polls, gap, stopped, last - stopped);
    TimesGrows(last - stopped, n, gap);
    if stopped < last {
      EvenlyApart(polls, gap, stopped, last - 1 - stopped);
      TimesGrows(n, last - 1 - stopped, gap);
    }
    StopsWithin(polls, gap, gap, deadline, stopped);
  }

  lemma KillFacts(polls: nat -> Poll, deadline: real, grace: real, stopped: nat, last: nat)
    requires KillAt(polls, deadline, grace, stopped, last)
    ensures stopped <= last && FirstReason(polls, deadline, stopped) && polls(last).now >= polls(stopped).now + grace
    ensures stopped < last ==> polls(last - 1).now < polls(stopped).now + grace
  {
  }

  lemma StopsWithin(polls: nat -> Poll, pause: real, gap: real, deadline: real, stopped: nat)
    requires Steady(polls, pause, gap, deadline) && FirstReason(polls, deadline, stopped) && gap > 0.0
    ensures polls(stopped).now < deadline + gap
  {
    if stopped > 0 {
      assert polls((stopped - 1) + 1).now <= polls(stopped - 1).now + gap;
    }
  }

  lemma {:induction false} EvenlyApart(polls: nat -> Poll, gap: real, from: nat, n: nat)
    requires Lawful(polls, gap) && forall i: nat :: polls(i + 1).now <= polls(i).now + gap
    ensures polls(from + n).now == polls(from).now + Times(n, gap)
  {
    if n > 0 {
      EvenlyApart(polls, gap, from, n - 1);
      assert polls((from + n - 1) + 1).now == polls(from + n - 1).now + gap;
    }
  }

  lemma {:induction false} TimesGrows(m: nat, n: nat, x: real)
    requires x > 0.0
    ensures m < n ==> Times(m, x) + x <= Times(n, x)
  {
    if m < n - 1 {
      TimesGrows(m, n - 1, x);
    }
  }

  // The last whole number of pauses before the end of the grace period.
  lemma PausesBefore(grace: real, pause: real) returns (m: nat)
    requires grace > 0.0 && pause > 0.0
    ensures Times(m, pause) < grace <= Times(m, pause) + pause
  {
    var n := Reaches((i: nat) => Poll(None, Times(i, pause), false), pause, grace);
    m := 0;
    while Times(m + 1, pause) < grace
      invariant Times(m, pause) < grace
      invariant m < n
      decreases n - m
    {
      m := m + 1;
      TimesGrows(n, m, pause);
    }
  }

  // A clock on which the kill comes a whole gap after deadline and grace: the reason is
  // seen almost a gap late, then rounds follow at every pause, but the last one in the
  // grace period is followed by a whole gap.
  function LateClock(i: nat, start: real, m: nat, pause: real, gap: real): real {
    if i == 0 then start
    else if i <= m + 1 then start + gap + Times(i - 1, pause)
    else start + gap + Times(m, pause) + gap + Times(i - m - 2, pause)
  }

  lemma LateStep(i: nat, start: real, m: nat, pause: real, gap: real)
    requires 0.0 < pause <= gap
    ensures LateClock(i, start, m, pause, gap) + pause <= LateClock(i + 1, start, m, pause, gap)
    ensures LateClock(i + 1, start, m, pause, gap) <= LateClock(i, start, m, pause, gap) + gap
  {
    if 1 <= i <= m {
      assert Times(i, pause) == Times(i - 1, pause) + pause;
    } else if i > m + 1 {
      assert Times(i - m - 1, pause) == Times(i - m - 2, pause) + pause;
    }
  }

  lemma LateKill(deadline: real, grace: real, pause: real, gap: real) returns (polls: nat -> Poll, last: nat)
    requires grace > 0.0 && 0.0 < pause <= gap && !(pause == gap && Multiple(grace, gap))
    ensures Steady(polls, pause, gap, deadline) && KillAt(polls, deadline, grace, 1, last)
    ensures polls(last).now == deadline + grace + gap
  {
    var m := PausesBefore(grace, pause);
    NotEven(m, grace, pause, gap);
    var start := deadline - (Times(m, pause) + gap - grace);
    polls, last := (i: nat) => Poll(None, LateClock(i, start, m, pause, gap), false), m + 2;
    LateTimes(start, m, pause, gap);
    hide LateClock, Times;
    forall i: nat ensures polls(i + 1).now >= polls(i).now + pause && polls(i + 1).now <= polls(i).now + gap {
      LateStep(i, start, m, pause, gap);
    }
  }

  lemma NotEven(m: nat, grace: real, pause: real, gap: real)
    requires Times(m, pause) < grace <= Times(m, pause) + pause && pause <= gap
    requires !(pause == gap && Multiple(grace, gap))
    ensures grace < Times(m, pause) + gap
  {
    assert Times(m + 1, pause) == Times(m, pause) + pause;
  }

  lemma LateTimes(start: real, m: nat, pause: real, gap: real)
    ensures LateClock(0, start, m, pause, gap) == start
    ensures LateClock(1, start, m, pause, gap) == start + gap
    ensures LateClock(m + 1, start, m, pause, gap) == start + gap + Times(m, pause)
    ensures LateClock(m + 2, start, m, pause, gap) == start + gap + Times(m, pause) + gap
  {
    assert Times(0, pause) == 0.0;
  }

  // For instance: with rounds at 9.9, 10.9 and 11.9, a deadline of 10 and a grace period
  // of 0.25, the kill comes 1.65 after both.
  lemma OneGapIsNotEnough() returns (polls: nat -> Poll)
    ensures Steady(polls, 1.0, 1.0, 10.0) && KillAt(polls, 10.0, 0.25, 1, 2)
    ensures polls(2).now > 10.0 + 0.25 + 1.0
  {
    polls := (i: nat) => Poll(None, 9.9 + i as real, false);
  }

  // -------------------------------------------------------------------------- run

  datatype Status = Succeeded | Failed | Stopped

  datatype ErrorCode =
    | CancelledByHost | Timeout | InvalidRequest | PolicyDenied | DependencyMissing
    | InvalidResult | WorkerFailed | OutputValidationFailed | ArtifactCommitFailed

  datatype Outcome =
    | Outcome(status: Status, code: Option<ErrorCode>)
    | Escaped       // an OSError in taking the commit locks leaves run
    | HostDied      // the host process itself was killed in the middle of the commit

  // What is checked before the worker is started; `left` is what the request's own
  // deadline leaves.
  datatype Request = Request(
    cancelled: bool, timeout: real, left: Option<real>, contract: bool, policy: bool, starts: bool)

  // The result file: unreadable or not belonging to this request, or a status.
  datatype Report = Unreadable | Reported(status: Status)

  function Effective(r: Request): real {
    if r.left.Some? && r.left.value < r.timeout then r.left.value else r.timeout
  }

  function Rejection(r: Request): Option<ErrorCode> {
    if r.cancelled then Some(CancelledByHost)
    else if r.timeout <= 0.0 then Some(InvalidRequest)
    else if r.left.Some? && r.left.value <= 0.0 then Some(Timeout)
    else if !r.contract then Some(InvalidRequest)
    else if !r.policy then Some(PolicyDenied)
    else None
  }

  datatype Commitment = Commitment(
    manifests: seq<Artifacts.Manifest>, order: seq<string>, busy: set<string>,
    locking: nat -> Fate, stamping: nat -> Fate, renaming: nat -> Fate, undoing: nat -> Fate)

  ghost predicate Listed(c: Commitment) {
    (forall id :: id in c.order <==> id in Artifacts.Ids(c.manifests)) && |c.order| == |c.manifests|
  }

  // `wait` is how the supervision ended and `commit` how the publication did, if it
  // came to either.
  method Run(store: Artifacts.Store, attempt: string, id: string, request: Request, polls: nat -> Poll, start: real,
             grace: real, ghost pause: real, writes: bool, killedCode: int, report: Report, c: Commitment)
    returns (outcome: Outcome, alive: bool, wait: Option<Ending>, ghost events: seq<Event>,
             commit: Option<Artifacts.Outcome>)
    requires store.locks == {} && Listed(c) && Lawful(polls, pause) && grace >= 0.0
    modifies store
    ensures wait.Some? <==> Rejection(request).None? && request.starts
    // succeeded exactly when the artifacts were published
    ensures outcome == Outcome(Succeeded, None) <==> commit == Some(Artifacts.Committed)
    ensures outcome.Outcome? && outcome.status == Succeeded ==> outcome.code.None?
    ensures outcome == Outcome(Succeeded, None) ==> forall m :: m in c.manifests ==> m.id in store.published
    ensures outcome == Escaped <==> commit == Some(Artifacts.Escaped)
    ensures outcome == HostDied <==> commit == Some(Artifacts.Killed)
    ensures commit.None? ==> store.published == old(store.published) && store.outputs == old(store.outputs)
    ensures commit.Some? && !commit.value.Committed? && !commit.value.Killed? && commit.value != Artifacts.Failed(true)
      ==> store.published == old(store.published)
    // nothing is published once there is a reason to stop, nor for a worker that failed,
    // whatever result it wrote
    ensures commit.Some? ==> wait == Some(Exited(0, None)) && report == Reported(Succeeded)
    ensures wait.Some? && wait.value.Exited? && wait.value.stop.Some? ==>
      outcome == (if wait.value.stop == Some(Cancelled) then Outcome(Stopped, Some(CancelledByHost))
                  else Outcome(Failed, Some(Timeout)))
    // the cancel file comes once and before any kill
    ensures events == [] || exists stop :: events == [CancelFile(stop)] || events == [CancelFile(stop), Kill]
    // the worker is gone, unless the cancel file could not be written
    ensures alive <==> wait == Some(WriteFailed)
    ensures wait == Some(WriteFailed) ==> !writes && outcome == Outcome(Failed, Some(DependencyMissing))
  {
    hide Artifacts.Split, Artifacts.Stamped, Lawful;
    alive, wait, events, commit := false, None, [], None;
    if Rejection(request).Some? {
      outcome := Outcome(if request.cancelled then Stopped else Failed, Rejection(request));
      return;
    }
    if !request.starts {
      outcome := Outcome(Failed, Some(DependencyMissing));
      return;
    }
    var supervisor := new Supervisor();
    ghost var stopped;
    var ending, last;
    ending, last, stopped := supervisor.Wait(polls, start + Effective(request), grace, pause, writes, killedCode);
    alive, wait, events := supervisor.alive, Some(ending), supervisor.events;
    match ending
    case WriteFailed =>
      outcome := Outcome(Failed, Some(DependencyMissing));
    case Exited(code, Some(Cancelled)) =>
      outcome := Outcome(Stopped, Some(CancelledByHost));
    case Exited(code, Some(TimedOut)) =>
      outcome := Outcome(Failed, Some(Timeout));
    case Exited(code, None) =>
      if report.Unreadable? {
        outcome := Outcome(Failed, Some(if code == 0 then InvalidResult else WorkerFailed));
      } else if report.status != Succeeded {
        outcome := Outcome(report.status, None);
      } else if code != 0 {
        outcome := Outcome(Failed, Some(WorkerFailed));
      } else {
        ghost var work, moved;
        var committed;
        committed, work, moved := store.Commit(attempt, id, c.manifests, c.order, c.busy,
          c.locking, c.stamping, c.renaming, c.undoing);
        commit := Some(committed);
        PublishedMeans(old(store.published), work, moved, store.published, store.outputs);
        outcome :=
          if committed == Artifacts.Committed then Outcome(Succeeded, None)
          else if committed == Artifacts.Invalid then Outcome(Failed, Some(OutputValidationFailed))
          else if committed == Artifacts.Escaped then Escaped
          else if committed == Artifacts.Killed then HostDied
          else Outcome(Failed, Some(ArtifactCommitFailed));
      }
  }

  lemma PublishedMeans(published0: Artifacts.Place, work: Artifacts.Place, moved: set<string>,
                       published: Artifacts.Place, outputs: Artifacts.Place)
    requires Artifacts.Split(published0, work, moved, published, outputs)
    ensures moved == {} ==> published == published0
    ensures forall id :: id in moved ==> id in published
  {
    assert moved == {} ==> published0 + Artifacts.Restrict(work, moved) == published0;
  }
}

// Processes sharing the reservation file under the advisory lock: any interleaving of their
// steps, with timeouts, failed loads and saves, and crashes.
module RegistryLock {
  import opened Wrappers
  import opened Models
  import opened Registry
  import opened RegistrySafety
  import opened RegistryRuns

  type Pid = nat

  // Where a process is in `with reservation_lock: load, decide, save`.
  datatype Phase =
    | Waiting(q: Request)
    | Holding(q: Request)
    | Loaded(q: Request, snapshot: seq<Reservation>)
    | Committed(q: Request, outcome: Outcome)
    | Finished(q: Request, outcome: Outcome)
    | Failed
    | Crashed
    | NotStarted

  datatype Entry = Entry(pid: Pid, q: Request, outcome: Outcome)

  // `log` lists the critical sections that took effect, in the order they did.
  datatype State = State(
    file: seq<Reservation>, holder: Option<Pid>, phases: map<Pid, Phase>, log: seq<Entry>)

  datatype Event =
    | Start(pid: Pid, q: Request)
    | Poll(pid: Pid)
    | TimeOut(pid: Pid)
    | Load(pid: Pid)
    | LoadFails(pid: Pid)
    | Save(pid: Pid)
    | SaveFails(pid: Pid)
    | Unlock(pid: Pid)
    | Crash(pid: Pid)

  // Closing the lock's descriptor lets go of the process's own lock, and of no other.
  function LetGo(s: State, pid: Pid, phase: Phase): State {
    s.(holder := if s.holder == Some(pid) then None else s.holder, phases := s.phases[pid := phase])
  }

  function In(s: State, pid: Pid): Phase {
    if pid in s.phases then s.phases[pid] else NotStarted
  }

  // An event that is not enabled changes nothing. Every process makes one call.
  function Step(s: State, e: Event): State {
    match e
    case Start(pid, q) => if pid in s.phases then s else s.(phases := s.phases[pid := Waiting(q)])
    case Poll(pid) =>
      if In(s, pid).Waiting? && s.holder == None
      then s.(holder := Some(pid), phases := s.phases[pid := Holding(In(s, pid).q)]) else s
    case TimeOut(pid) => if In(s, pid).Waiting? then LetGo(s, pid, Failed) else s
    case Load(pid) =>
      if In(s, pid).Holding? then s.(phases := s.phases[pid := Loaded(In(s, pid).q, s.file)]) else s
    case LoadFails(pid) => if In(s, pid).Holding? then LetGo(s, pid, Failed) else s
    case Save(pid) =>
      if In(s, pid).Loaded? then
        var q := In(s, pid).q;
        var outcome := Decide(In(s, pid).snapshot, q).0;
        State(match Decide(In(s, pid).snapshot, q).1 case None => s.file case Some(now) => now,
              s.holder, s.phases[pid := Committed(q, outcome)], s.log + [Entry(pid, q, outcome)])
      else s
    case SaveFails(pid) => if In(s, pid).Loaded? then LetGo(s, pid, Failed) else s
    case Unlock(pid) =>
      if In(s, pid).Committed? then LetGo(s, pid, Finished(In(s, pid).q, In(s, pid).outcome)) else s
    case Crash(pid) => if pid in s.phases && !In(s, pid).Finished? &&
        In(s, pid) != Failed then LetGo(s, pid, Crashed) else s
  }

  function Run(s: State, es: seq<Event>): State {
    if es == [] then s else Step(Run(s, es[..|es| - 1]), es[|es| - 1])
  }

  function Initial(file: seq<Reservation>): State {
    State(file, None, map[], [])
  }

  function Requests(log: seq<Entry>): (qs: seq<Request>)
    ensures |qs| == |log|
  {
    seq(|log|, k requires 0 <= k < |log| => log[k].q)
  }

  /* The invariant. */

  predicate Critical(p: Phase) {
    p.Holding? || p.Loaded? || p.Committed?
  }

  ghost predicate Excludes(s: State) {
    forall pid: Pid :: Critical(In(s, pid)) <==> s.holder == Some(pid)
  }

  ghost predicate Current(s: State) {
    forall pid: Pid :: In(s, pid).Loaded? ==> In(s, pid).snapshot == s.file
  }

  // A process is logged once it has committed, at most once, and with its own request and outcome.
  ghost predicate LoggedAs(s: State, k: int)
    requires 0 <= k < |s.log|
  {
    var p := In(s, s.log[k].pid);
    && s.log[k].pid in s.phases
    && (p == Crashed || ((p.Committed? || p.Finished?) && p.q == s.log[k].q && p.outcome == s.log[k].outcome))
  }

  ghost predicate Logged(s: State) {
    && (forall k :: 0 <= k < |s.log| ==> LoggedAs(s, k))
    && (forall j, k :: 0 <= j < k < |s.log| ==> s.log[j].pid != s.log[k].pid)
    && (forall pid: Pid :: In(s, pid).Committed? || In(s, pid).Finished? ==> InLog(s.log, pid))
  }

  ghost predicate InLog(log: seq<Entry>, pid: Pid) {
    exists k :: 0 <= k < |log| && log[k].pid == pid
  }

  ghost predicate Honest(init: seq<Reservation>, log: seq<Entry>) {
    forall k :: 0 <= k < |log| ==> log[k].outcome == OutcomeAt(init, Requests(log), k)
  }

  ghost predicate Sequential(init: seq<Reservation>, s: State) {
    s.file == Replay(init, Requests(s.log)) && Honest(init, s.log)
  }

  lemma StepExcludes(s: State, e: Event)
    requires Excludes(s)
    ensures Excludes(Step(s, e))
  {
  }

  lemma StepCurrent(s: State, e: Event)
    requires Excludes(s) && Current(s)
    ensures Current(Step(s, e))
  {
    forall pid: Pid | In(Step(s, e), pid).Loaded? ensures In(Step(s, e), pid).snapshot == Step(s, e).file {
      if In(s, pid).Loaded? {
        assert Critical(In(s, pid)) && s.holder == Some(pid);
        assert e.Save? && In(s, e.pid).Loaded? ==> Critical(In(s, e.pid));
      }
    }
  }

  lemma StepLogged(s: State, e: Event)
    requires Logged(s)
    ensures Logged(Step(s, e))
  {
    hide Decide;
    var t := Step(s, e);
    forall k | 0 <= k < |s.log|
      ensures LoggedAs(s, k) && !(e.Save? && In(s, e.pid).Loaded? && s.log[k].pid == e.pid)
    {
      assert LoggedAs(s, k);
    }
    forall pid: Pid | In(t, pid).Committed? || In(t, pid).Finished? ensures InLog(t.log, pid) {
      if e == Save(pid) && t != s {
        assert t.log[|s.log|].pid == pid;
      } else {
        assert InLog(s.log, pid);
        var k :| 0 <= k < |s.log| && s.log[k].pid == pid;
        assert t.log[k].pid == pid;
      }
    }
    forall k | 0 <= k < |t.log| ensures LoggedAs(t, k) {
      if k < |s.log| {
        assert LoggedAs(s, k);
      }
    }
  }

  lemma LogSnoc(init: seq<Reservation>, log: seq<Entry>, entry: Entry)
    requires Honest(init, log) && entry.outcome == Decide(Replay(init, Requests(log)), entry.q).0
    ensures Honest(init, log + [entry])
    ensures Replay(init, Requests(log + [entry])) == After(Replay(init, Requests(log)), entry.q)
  {
    hide Decide, After;
    var qs, now := Requests(log), Requests(log + [entry]);
    assert now[..|log|] == qs;
    forall k | 0 <= k < |log + [entry]| ensures (log + [entry])[k].outcome == OutcomeAt(init, now, k) {
      assert now[..k] == if k < |log| then qs[..k] else qs;
    }
  }

  lemma StepSequential(init: seq<Reservation>, s: State, e: Event)
    requires Current(s) && Sequential(init, s)
    ensures Sequential(init, Step(s, e))
  {
    if e.Save? && In(s, e.pid).Loaded? {
      var q := In(s, e.pid).q;
      LogSnoc(init, s.log, Entry(e.pid, q, Decide(s.file, q).0));
    } else {
      assert Step(s, e).log == s.log && Step(s, e).file == s.file;
    }
  }

  lemma {:induction false} RunInvariant(init: seq<Reservation>, es: seq<Event>)
    ensures var s := Run(Initial(init), es);
      Excludes(s) && Current(s) && Logged(s) && Sequential(init, s)
  {
    if es != [] {
      var s := Run(Initial(init), es[..|es| - 1]);
      RunInvariant(init, es[..|es| - 1]);
      StepExcludes(s, es[|es| - 1]);
      StepCurrent(s, es[|es| - 1]);
      StepLogged(s, es[|es| - 1]);
      StepSequential(init, s, es[|es| - 1]);
    }
  }

  /* What users of the registry may rely on. */

  // No two processes are ever between taking and letting go of the lock.
  lemma MutualExclusion(init: seq<Reservation>, es: seq<Event>, p: Pid, q: Pid)
    requires Critical(In(Run(Initial(init), es), p)) && Critical(In(Run(Initial(init), es), q))
    ensures p == q
  {
    RunInvariant(init, es);
  }

  // However the processes interleave, the file is that of some sequential run of the calls
  // that finished, in the order they held the lock; each of them got the answer of that run,
  // exactly one per process; and a call that timed out, failed to load or to save, or died
  // before saving, changed nothing.
  lemma ActsSequentially(init: seq<Reservation>, es: seq<Event>, pid: Pid)
    ensures var s := Run(Initial(init), es);
      && s.file == Replay(init, Requests(s.log))
      && (In(s, pid).Finished? ==>
            exists k :: 0 <= k < |s.log| && s.log[k].pid == pid && In(s, pid).q == s.log[k].q &&
              In(s, pid).outcome == OutcomeAt(init, Requests(s.log), k))
      && (In(s, pid) == Failed || In(s, pid).Waiting? || In(s, pid).Holding? || In(s, pid).Loaded? ==>
          !InLog(s.log, pid))
      && (forall j, k :: 0 <= j < |s.log| && 0 <= k < |s.log| && s.log[j].pid == s.log[k].pid ==> j == k)
  {
    RunInvariant(init, es);
    var s := Run(Initial(init), es);
    if In(s, pid).Finished? {
      var k :| 0 <= k < |s.log| && s.log[k].pid == pid;
      assert LoggedAs(s, k);
    }
    if InLog(s.log, pid) {
      var k :| 0 <= k < |s.log| && s.log[k].pid == pid;
      assert LoggedAs(s, k);
    }
  }

  // Hence the file never holds two reservations for one slot, and a claim that was answered
  // with success is in it until a release that names it succeeds.
  lemma SharedRegistry(init: seq<Reservation>, es: seq<Event>)
    requires var s := Run(Initial(init), es); Sound(init) && FreshIds(init, Requests(s.log))
    ensures var s := Run(Initial(init), es);
      var qs := Requests(s.log);
      && Sound(s.file)
      && (forall k :: 0 <= k < |s.log| && IsClaim(s.log[k].outcome) ==> ClaimStands(init, s, k))
  {
    RunInvariant(init, es);
    var s := Run(Initial(init), es);
    var qs := Requests(s.log);
    RunSound(init, qs);
    forall k | 0 <= k < |s.log| && IsClaim(s.log[k].outcome) ensures ClaimStands(init, s, k) {
      NoClaimIsLost(init, qs, k);
    }
  }

  ghost predicate ClaimStands(init: seq<Reservation>, s: State, k: nat)
    requires k < |s.log|
  {
    var q := s.log[k].q;
    && (q.Reserve? || (q.RecommendAndReserve? && s.log[k].outcome.RecommendedAndReserved?))
    && (|| Holds(s.file, q.newId, ClaimedSlot(q, s.log[k].outcome), q.project)
        || ReleasedBetween(init, Requests(s.log), k + 1, |s.log|, q.newId))
  }

  // No two processes whose recommended reservations are both in the file were given the
  // same host, protocol and port.
  lemma NoPortGivenTwice(init: seq<Reservation>, es: seq<Event>, j: nat, k: nat)
    requires var s := Run(Initial(init), es);
      && Sound(init) && FreshIds(init, Requests(s.log)) && j < k < |s.log|
      && s.log[j].q.RecommendAndReserve? && s.log[k].q.RecommendAndReserve?
      && s.log[j].outcome.RecommendedAndReserved? && s.log[k].outcome.RecommendedAndReserved?
      && HasId(s.file, s.log[j].q.newId) && HasId(s.file, s.log[k].q.newId)
    ensures var s := Run(Initial(init), es);
      ClaimedSlot(s.log[j].q, s.log[j].outcome) != ClaimedSlot(s.log[k].q, s.log[k].outcome)
  {
    RunInvariant(init, es);
    CoexistingClaimsDiffer(init, Requests(Run(Initial(init), es).log), j, k);
  }

  /* Taking the lock. */

  // The polling loop: `busy(k)` tells whether the k-th try finds the lock taken, `clock(k)`
  // what time it is after it. It takes the lock at the first free try before any try at
  // which time has run out, and it always tries at least once.
  method AcquireLock(busy: nat -> bool, clock: nat -> int, now: int, timeout: int) returns (acquired: bool, tries: nat)
    requires forall k: nat :: clock(k) < clock(k + 1)
    ensures forall k: nat :: k < tries ==> busy(k) && clock(k) < now + timeout
    ensures acquired <==> !busy(tries)
    ensures !acquired ==> clock(tries) >= now + timeout
  {
    var deadline := now + timeout;
    tries := 0;
    while busy(tries)
      invariant forall k: nat :: k < tries ==> busy(k) && clock(k) < deadline
      decreases deadline - clock(tries)
    {
      if clock(tries) >= deadline {
        return false, tries;
      }
      tries := tries + 1;
    }
    return true, tries;
  }

  /* Progress. */

  lemma {:induction false} RunFirst(s: State, e: Event, es: seq<Event>)
    ensures Run(s, [e] + es) == Run(Step(s, e), es)
  {
    if es == [] {
      assert [e] + es == [e] && [e][..0] == [];
    } else {
      assert ([e] + es)[..|es|] == [e] + es[..|es| - 1];
      RunFirst(s, e, es[..|es| - 1]);
    }
  }

  function WholeCall(pid: Pid, q: Request): seq<Event> {
    [Start(pid, q)] + ([Poll(pid)] + ([Load(pid)] + ([Save(pid)] + ([Unlock(pid)] + []))))
  }

  // A call that finds the lock free and is not disturbed is answered as the file decides,
  // saves what it decides, gives the lock back and leaves every other process where it was.
  lemma UndisturbedCall(s: State, pid: Pid, q: Request)
    requires s.holder == None && pid !in s.phases
    ensures var now := Run(s, WholeCall(pid, q));
      && In(now, pid) == Finished(q, Decide(s.file, q).0) && now.file == After(s.file, q) && now.holder == None
      && forall other: Pid :: other != pid ==> In(now, other) == In(s, other)
  {
    hide Run, Decide;
    var s1 := Step(s, Start(pid, q));
    var s2 := Step(s1, Poll(pid));
    var s3 := Step(s2, Load(pid));
    var s4 := Step(s3, Save(pid));
    RunFirst(s4, Unlock(pid), []);
    RunFirst(s3, Save(pid), [Unlock(pid)] + []);
    RunFirst(s2, Load(pid), [Save(pid)] + ([Unlock(pid)] + []));
    RunFirst(s1, Poll(pid), [Load(pid)] + ([Save(pid)] + ([Unlock(pid)] + [])));
    RunFirst(s, Start(pid, q), [Poll(pid)] + ([Load(pid)] + ([Save(pid)] + ([Unlock(pid)] + []))));
    NothingRuns(Step(s4, Unlock(pid)));
  }

  lemma NothingRuns(s: State)
    ensures Run(s, []) == s
  {
  }

  // A process that gave up, failed or died holds no lock: whoever polls next gets it.
  lemma LockComesFree(s: State, pid: Pid, other: Pid)
    requires Excludes(s) && s.holder == Some(pid) && In(s, other).Waiting?
    ensures forall e :: e in {LoadFails(pid), SaveFails(pid), Unlock(pid), Crash(pid)} && Step(s, e) != s ==>
      Step(Step(s, e), Poll(other)).holder == Some(other)
    ensures Step(s, Poll(other)) == s && In(Step(s, TimeOut(other)), other) == Failed
    ensures Step(s, TimeOut(other)).holder == Some(pid) && Step(s, TimeOut(other)).file == s.file
  {
    assert Critical(In(s, pid)) && !Critical(In(s, other));
  }
}

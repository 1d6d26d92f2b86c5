/** `Job.Run` (jobrunner.go) as a transition system. Every call of `Run` is an
    invocation with its own program point; the steps of different invocations
    interleave freely. Blocking on the job's mutex or on a full permit channel
    is a step that is not enabled. */
module Runner {
  import opened Wrappers
  import opened Jobs
  import Config

  /** Identifies one call of `Run`. */
  type RunId = nat

  /** The program points of one call of `Run`, in the order it passes them. */
  datatype Phase =
    | Entered    // start time taken, recovery handler deferred
    | Locked     // past the self-exclusion block
    | Admitted   // past the permit block
    | Marked     // counter stored as 1
    | InBody     // status refreshed, wrapped body running
    | BodyDone   // body returned (latency written) or faulted
    | Cleared    // deferred: counter stored as 0
    | Refreshed  // deferred: status refreshed
    | Released   // deferred: permit taken back out of the channel
    | Exited     // deferred: mutex unlocked, recovery handler run

  /** Position of a program point in the order above. */
  function Rank(p: Phase): nat
  {
    match p
    case Entered => 0
    case Locked => 1
    case Admitted => 2
    case Marked => 3
    case InBody => 4
    case BodyDone => 5
    case Cleared => 6
    case Refreshed => 7
    case Released => 8
    case Exited => 9
  }

  /** One call of `Run` on job `job`: where it is, the clock reading `start`
      taken on entry, the reading `bodyStart` taken as the body began, and
      whether the body faulted. */
  datatype Invocation = Invocation(
    job: JobId,
    phase: Phase,
    start: int,
    bodyStart: int,
    faulted: bool)

  /** The shared state: the permit channel (`capacity` is `None` while it is
      nil, `inFlight` is the number of permits in it), the self-concurrency
      flag, the wrapped jobs, every call of `Run` so far, and a clock. */
  datatype System = System(
    capacity: Option<nat>,
    inFlight: nat,
    selfConcurrent: bool,
    jobs: map<JobId, Job>,
    runs: map<RunId, Invocation>,
    clock: int)

  /** What can happen next: time passes, a runnable is wrapped by `New`, the
      scheduler calls `Run` on a job, a call of `Run` moves past its next
      statement, or a running body returns or faults. */
  datatype Step =
    | Tick(d: nat)
    | Register(id: JobId, inner: Runnable)
    | Invoke(run: RunId, job: JobId)
    | Advance(run: RunId)
    | EndBody(run: RunId, faulted: bool)

  /** The state right after `Start` configured the globals. */
  function Init(settings: Config.Settings): System
  {
    System(settings.workPermits, 0, settings.selfConcurrent, map[], map[], 0)
  }

  /** The call is past the self-exclusion block and has not yet run the
      deferred unlock. */
  predicate InCriticalSection(p: Phase)
  {
    1 <= Rank(p) <= 8
  }

  /** The invocation holds its job's mutex: it took it (only done when
      self-concurrency is off) and has not yet unlocked it. */
  predicate HoldsLock(s: System, inv: Invocation)
  {
    !s.selfConcurrent && InCriticalSection(inv.phase)
  }

  /** The invocation holds a permit: it sent one into the channel (only done
      when the channel exists) and has not yet taken it back. */
  predicate HoldsPermit(s: System, inv: Invocation)
  {
    s.capacity.Some? && 2 <= Rank(inv.phase) <= 7
  }

  /** The invocation has stored 1 in the counter and not yet stored 0. */
  predicate CounterSet(p: Phase)
  {
    3 <= Rank(p) <= 5
  }

  /** The invocation's last status refresh reported "RUNNING". */
  predicate ShowsRunning(p: Phase)
  {
    4 <= Rank(p) <= 6
  }

  function MoveTo(s: System, rid: RunId, p: Phase): System
    requires rid in s.runs
  {
    s.(runs := s.runs[rid := s.runs[rid].(phase := p)])
  }

  /** One statement of the call `rid`, or `None` when it blocks (mutex held,
      channel full) or has nothing left to do on its own. */
  function AdvanceRun(s: System, rid: RunId): Option<System>
    requires rid in s.runs && s.runs[rid].job in s.jobs
  {
    var inv := s.runs[rid];
    var j := s.jobs[inv.job];
    match inv.phase
    case Entered =>
      if s.selfConcurrent then Some(MoveTo(s, rid, Locked))
      else if j.lockHeld then None
      else Some(MoveTo(s, rid, Locked).(jobs := s.jobs[inv.job := j.(lockHeld := true)]))
    case Locked =>
      if s.capacity.None? then Some(MoveTo(s, rid, Admitted))
      else if s.inFlight >= s.capacity.value then None
      else Some(MoveTo(s, rid, Admitted).(inFlight := s.inFlight + 1))
    case Admitted =>
      Some(MoveTo(s, rid, Marked).(jobs := s.jobs[inv.job := j.(status := 1)]))
    case Marked =>
      Some(s.(runs := s.runs[rid := inv.(phase := InBody, bodyStart := s.clock)],
              jobs := s.jobs[inv.job := StatusUpdate(j).0]))
    case InBody => None
    case BodyDone =>
      Some(MoveTo(s, rid, Cleared).(jobs := s.jobs[inv.job := j.(status := 0)]))
    case Cleared =>
      Some(MoveTo(s, rid, Refreshed).(jobs := s.jobs[inv.job := StatusUpdate(j).0]))
    case Refreshed =>
      if s.capacity.None? then Some(MoveTo(s, rid, Released))
      else if s.inFlight == 0 then None
      else Some(MoveTo(s, rid, Released).(inFlight := s.inFlight - 1))
    case Released =>
      if s.selfConcurrent then Some(MoveTo(s, rid, Exited))
      else if !j.lockHeld then None
      else Some(MoveTo(s, rid, Exited).(jobs := s.jobs[inv.job := j.(lockHeld := false)]))
    case Exited => None
  }

  /** The body of call `rid` ends. A normal return writes the latency, the
      time since the call entered `Run`; a fault leaves it as it was. */
  function FinishBody(s: System, rid: RunId, faulted: bool): System
    requires rid in s.runs && s.runs[rid].job in s.jobs
  {
    var inv := s.runs[rid];
    var j := s.jobs[inv.job];
    var s' := s.(runs := s.runs[rid := inv.(phase := BodyDone, faulted := faulted)]);
    if faulted then s'
    else s'.(jobs := s.jobs[inv.job := j.(latency := Some(s.clock - inv.start))])
  }

  /** The transition relation, as a partial function: `None` when the step is
      not enabled in `s`. */
  function Next(s: System, step: Step): (r: Option<System>)
    ensures r.Some? ==> r.value.capacity == s.capacity && r.value.selfConcurrent == s.selfConcurrent
    ensures r.Some? ==> r.value.clock >= s.clock
    ensures r.Some? ==> s.jobs.Keys <= r.value.jobs.Keys && s.runs.Keys <= r.value.runs.Keys
  {
    match step
    case Tick(d) => Some(s.(clock := s.clock + d))
    case Register(id, inner) =>
      if id in s.jobs then None else Some(s.(jobs := s.jobs[id := New(inner)]))
    case Invoke(rid, jid) =>
      if rid in s.runs || jid !in s.jobs then None
      else Some(s.(runs := s.runs[rid := Invocation(jid, Entered, s.clock, s.clock, false)]))
    case Advance(rid) =>
      if rid in s.runs && s.runs[rid].job in s.jobs then AdvanceRun(s, rid) else None
    case EndBody(rid, faulted) =>
      if rid in s.runs && s.runs[rid].job in s.jobs && s.runs[rid].phase == InBody
      then Some(FinishBody(s, rid, faulted))
      else None
  }

  /** The state after the steps, taken one after another from `s`; `None`
      when one of them is not enabled. */
  function Execute(s: System, steps: seq<Step>): Option<System>
    decreases |steps|
  {
    if |steps| == 0 then Some(s)
    else
      match Next(s, steps[0])
      case None => None
      case Some(s1) => Execute(s1, steps[1..])
  }
}

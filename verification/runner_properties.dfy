/** What the invariants mean for every state that `Run` calls can reach from
    start-up, and what one call's admission and unwind guarantee. */
module RunnerProperties {
  import opened Wrappers
  import opened Jobs
  import opened Runner
  import opened RunnerInvariants
  import Config

  lemma {:induction false} ExecutePreservesInv(s: System, steps: seq<Step>)
    requires Inv(s) && Execute(s, steps).Some?
    ensures Inv(Execute(s, steps).value)
    decreases |steps|
  {
    if |steps| > 0 {
      StepPreservesInv(s, steps[0]);
      ExecutePreservesInv(Next(s, steps[0]).value, steps[1..]);
    }
  }

  lemma ReachableInv(settings: Config.Settings, steps: seq<Step>)
    requires Execute(Init(settings), steps).Some?
    ensures Inv(Execute(Init(settings), steps).value)
  {
    InitSatisfiesInv(settings);
    ExecutePreservesInv(Init(settings), steps);
  }

  /** With a permit channel of capacity C, never more than C calls hold a
      permit, and the channel holds exactly one permit per holder; without a
      channel no call ever holds one. */
  lemma PermitBound(settings: Config.Settings, steps: seq<Step>)
    requires Execute(Init(settings), steps).Some?
    ensures var s := Execute(Init(settings), steps).value;
            && s.inFlight == |PermitHolders(s)|
            && (settings.workPermits.Some? ==> |PermitHolders(s)| <= settings.workPermits.value)
            && (settings.workPermits.None? ==> PermitHolders(s) == {} && s.inFlight == 0)
  {
    ReachableInv(settings, steps);
    var s := Execute(Init(settings), steps).value;
    ExecuteKeepsSettings(Init(settings), steps);
    if settings.workPermits.None? {
      assert forall rid :: rid in s.runs ==> !HoldsPermit(s, s.runs[rid]);
    }
  }

  lemma {:induction false} ExecuteKeepsSettings(s: System, steps: seq<Step>)
    requires Execute(s, steps).Some?
    ensures Execute(s, steps).value.capacity == s.capacity
    ensures Execute(s, steps).value.selfConcurrent == s.selfConcurrent
    decreases |steps|
  {
    if |steps| > 0 {
      ExecuteKeepsSettings(Next(s, steps[0]).value, steps[1..]);
    }
  }

  /** With self-concurrency off, two calls of the same job that are both
      between taking and releasing its mutex are the same call; in
      particular at most one of them is in its body. */
  lemma SelfExclusion(settings: Config.Settings, steps: seq<Step>)
    requires !settings.selfConcurrent && Execute(Init(settings), steps).Some?
    ensures var s := Execute(Init(settings), steps).value;
            forall r1, r2 ::
              (r1 in s.runs && r2 in s.runs && s.runs[r1].job == s.runs[r2].job &&
               InCriticalSection(s.runs[r1].phase) && InCriticalSection(s.runs[r2].phase)) ==> r1 == r2
  {
    ReachableInv(settings, steps);
    ExecuteKeepsSettings(Init(settings), steps);
  }

  /** With self-concurrency off, a job's counter is 1 exactly while one of
      its calls is between storing 1 and storing 0, and a call in its body
      sees the job reported as "RUNNING". */
  lemma StatusWhileRunning(settings: Config.Settings, steps: seq<Step>)
    requires !settings.selfConcurrent && Execute(Init(settings), steps).Some?
    ensures var s := Execute(Init(settings), steps).value;
            && (forall j :: j in s.jobs ==>
                  (s.jobs[j].status == 1 <==>
                   exists rid :: rid in s.runs && s.runs[rid].job == j && CounterSet(s.runs[rid].phase)))
            && (forall rid :: rid in s.runs && s.runs[rid].phase == InBody ==>
                  s.runs[rid].job in s.jobs &&
                  s.jobs[s.runs[rid].job].status == 1 &&
                  s.jobs[s.runs[rid].job].statusText == Running)
  {
    ReachableInv(settings, steps);
    ExecuteKeepsSettings(Init(settings), steps);
    var s := Execute(Init(settings), steps).value;
    CounterMeansCall(s);
    BodySeesRunning(s);
  }

  lemma CounterMeansCall(s: System)
    requires Inv(s) && !s.selfConcurrent
    ensures forall j :: j in s.jobs ==>
              (s.jobs[j].status == 1 <==>
               exists rid :: rid in s.runs && s.runs[rid].job == j && CounterSet(s.runs[rid].phase))
  {
    forall j | j in s.jobs
      ensures s.jobs[j].status == 1 <==>
              exists rid :: rid in s.runs && s.runs[rid].job == j && CounterSet(s.runs[rid].phase)
    {
      if s.jobs[j].status == 1 {
        var h :| h in s.runs && s.runs[h].job == j && HoldsLock(s, s.runs[h]);
        assert CounterSet(s.runs[h].phase);
      }
      if exists rid :: rid in s.runs && s.runs[rid].job == j && CounterSet(s.runs[rid].phase) {
        var rid :| rid in s.runs && s.runs[rid].job == j && CounterSet(s.runs[rid].phase);
        assert HoldsLock(s, s.runs[rid]);
      }
    }
  }

  lemma BodySeesRunning(s: System)
    requires Inv(s) && !s.selfConcurrent
    ensures forall rid :: rid in s.runs && s.runs[rid].phase == InBody ==>
              s.runs[rid].job in s.jobs &&
              s.jobs[s.runs[rid].job].status == 1 &&
              s.jobs[s.runs[rid].job].statusText == Running
  {
    forall rid | rid in s.runs && s.runs[rid].phase == InBody
      ensures s.runs[rid].job in s.jobs
      ensures s.jobs[s.runs[rid].job].status == 1 && s.jobs[s.runs[rid].job].statusText == Running
    {
      assert HoldsLock(s, s.runs[rid]);
    }
  }

  /** Once the body has ended, normally or by a fault, every remaining step
      of the call is enabled: storing 0, refreshing the status, returning the
      permit and unlocking never block. */
  lemma UnwindNeverBlocks(s: System, rid: RunId)
    requires Inv(s) && rid in s.runs
    requires s.runs[rid].phase in {BodyDone, Cleared, Refreshed, Released}
    ensures Next(s, Advance(rid)).Some?
  {
    var jid := s.runs[rid].job;
    assert jid in s.jobs;
    match s.runs[rid].phase
    case BodyDone => ClearStep(s, rid);
    case Cleared => RefreshStep(s, rid);
    case Refreshed =>
      assert s.capacity.Some? ==> rid in PermitHolders(s);
      ReleaseStep(s, rid);
    case Released =>
      assert HoldsLock(s, s.runs[rid]) ==> s.jobs[jid].lockHeld;
      assert s.selfConcurrent ==> !s.jobs[jid].lockHeld;
      UnlockStep(s, rid);
  }

  /** First deferred statement: the counter goes back to 0. */
  lemma ClearStep(s: System, rid: RunId)
    requires rid in s.runs && s.runs[rid].job in s.jobs && s.runs[rid].phase == BodyDone
    ensures var jid := s.runs[rid].job;
            var t := Next(s, Advance(rid));
            && t.Some? && t.value.runs == s.runs[rid := s.runs[rid].(phase := Cleared)]
            && t.value.jobs == s.jobs[jid := s.jobs[jid].(status := 0)]
            && t.value.inFlight == s.inFlight
  {
  }

  /** Second deferred statement: the status string is refreshed from the
      counter. */
  lemma RefreshStep(s: System, rid: RunId)
    requires rid in s.runs && s.runs[rid].job in s.jobs && s.runs[rid].phase == Cleared
    ensures var jid := s.runs[rid].job;
            var t := Next(s, Advance(rid));
            && t.Some? && t.value.runs == s.runs[rid := s.runs[rid].(phase := Refreshed)]
            && t.value.jobs == s.jobs[jid := StatusUpdate(s.jobs[jid]).0]
            && t.value.inFlight == s.inFlight
  {
  }

  /** Third deferred statement: the permit, if one was taken, goes back. */
  lemma ReleaseStep(s: System, rid: RunId)
    requires rid in s.runs && s.runs[rid].job in s.jobs && s.runs[rid].phase == Refreshed
    requires s.capacity.Some? ==> s.inFlight >= 1
    ensures var t := Next(s, Advance(rid));
            && t.Some? && t.value.runs == s.runs[rid := s.runs[rid].(phase := Released)]
            && t.value.jobs == s.jobs
            && t.value.inFlight == (if s.capacity.Some? then s.inFlight - 1 else s.inFlight)
  {
  }

  /** Last deferred statement: the mutex, if it was taken, is unlocked. */
  lemma UnlockStep(s: System, rid: RunId)
    requires rid in s.runs && s.runs[rid].job in s.jobs && s.runs[rid].phase == Released
    requires !s.selfConcurrent ==> s.jobs[s.runs[rid].job].lockHeld
    requires s.selfConcurrent ==> !s.jobs[s.runs[rid].job].lockHeld
    ensures var jid := s.runs[rid].job;
            var t := Next(s, Advance(rid));
            && t.Some? && t.value.runs == s.runs[rid := s.runs[rid].(phase := Exited)]
            && t.value.jobs == s.jobs[jid := s.jobs[jid].(lockHeld := false)]
            && t.value.inFlight == s.inFlight
  {
  }

  /** The four deferred statements run in the fixed order counter := 0,
      status refresh, permit release, unlock, whether or not the body
      faulted, and none of them blocks. Afterwards the permit is back, the
      mutex is free, the latency is what the end of the body left, and the
      job reads "IDLE" with counter 0. */
  lemma Unwind(s: System, rid: RunId)
    requires Inv(s) && rid in s.runs && s.runs[rid].phase == BodyDone
    ensures var jid := s.runs[rid].job;
            var t := Execute(s, [Advance(rid), Advance(rid), Advance(rid), Advance(rid)]);
            && t.Some? && rid in t.value.runs && jid in t.value.jobs
            && t.value.runs[rid].phase == Exited
            && t.value.inFlight == (if s.capacity.Some? then s.inFlight - 1 else s.inFlight)
            && !t.value.jobs[jid].lockHeld
            && t.value.jobs[jid].latency == s.jobs[jid].latency
            && t.value.jobs[jid].status == 0 && t.value.jobs[jid].statusText == Idle
  {
    var jid := s.runs[rid].job;
    assert s.capacity.Some? ==> rid in PermitHolders(s);
    assert HoldsLock(s, s.runs[rid]) ==> s.jobs[jid].lockHeld;
    assert s.selfConcurrent ==> !s.jobs[jid].lockHeld;
    UnwindFrom(s, rid);
  }

  /** The unwind of `Unwind`, from the few facts about `s` it needs. */
  lemma UnwindFrom(s: System, rid: RunId)
    requires rid in s.runs && s.runs[rid].job in s.jobs && s.runs[rid].phase == BodyDone
    requires s.capacity.Some? ==> s.inFlight >= 1
    requires !s.selfConcurrent ==> s.jobs[s.runs[rid].job].lockHeld
    requires s.selfConcurrent ==> !s.jobs[s.runs[rid].job].lockHeld
    ensures var jid := s.runs[rid].job;
            var t := Execute(s, [Advance(rid), Advance(rid), Advance(rid), Advance(rid)]);
            && t.Some? && rid in t.value.runs && jid in t.value.jobs
            && t.value.runs[rid].phase == Exited
            && t.value.inFlight == (if s.capacity.Some? then s.inFlight - 1 else s.inFlight)
            && !t.value.jobs[jid].lockHeld
            && t.value.jobs[jid].latency == s.jobs[jid].latency
            && t.value.jobs[jid].status == 0 && t.value.jobs[jid].statusText == Idle
  {
    var a := Advance(rid);
    var jid := s.runs[rid].job;
    ClearStep(s, rid);
    var s1 := Next(s, a).value;
    RefreshStep(s1, rid);
    var s2 := Next(s1, a).value;
    assert s2.jobs[jid] == s.jobs[jid].(status := 0, statusText := Idle);
    assert s2.inFlight == s.inFlight && s2.capacity == s.capacity;
    ReleaseStep(s2, rid);
    var s3 := Next(s2, a).value;
    assert s3.jobs == s2.jobs;
    UnlockStep(s3, rid);
    var s4 := Next(s3, a).value;
    assert s4.jobs[jid] == s.jobs[jid].(status := 0, statusText := Idle, lockHeld := false);
    ExecuteChain([s, s1, s2, s3, s4], [a, a, a, a]);
  }

  /** A run of enabled steps through the given states. */
  lemma {:induction false} ExecuteChain(states: seq<System>, steps: seq<Step>)
    requires |states| == |steps| + 1
    requires forall i :: 0 <= i < |steps| ==> Next(states[i], steps[i]) == Some(states[i + 1])
    ensures Execute(states[0], steps) == Some(states[|steps|])
    decreases |steps|
  {
    if |steps| > 0 {
      ExecuteChain(states[1..], steps[1..]);
    }
  }

  /** When the body returns normally the latency becomes the time since the
      call entered `Run`, which includes the waits for the mutex and the
      permit and so is at least the time the body ran; when it faults the
      latency keeps its old value. */
  lemma LatencyAfterBody(s: System, rid: RunId, faulted: bool)
    requires Inv(s) && rid in s.runs && s.runs[rid].phase == InBody
    ensures var jid := s.runs[rid].job;
            var t := Next(s, EndBody(rid, faulted));
            && t.Some?
            && t.value.runs[rid].phase == BodyDone
            && (faulted ==> t.value.jobs[jid].latency == s.jobs[jid].latency)
            && (!faulted ==> t.value.jobs[jid].latency == Some(s.clock - s.runs[rid].start))
            && (!faulted ==> t.value.jobs[jid].latency.value >= s.clock - s.runs[rid].bodyStart >= 0)
  {
    var inv := s.runs[rid];
    assert inv.job in s.jobs && inv.start <= inv.bodyStart <= s.clock;
    EndBodyStep(s, rid, faulted);
  }

  /** The end of the body, from the facts about `s` it needs. */
  lemma EndBodyStep(s: System, rid: RunId, faulted: bool)
    requires rid in s.runs && s.runs[rid].job in s.jobs && s.runs[rid].phase == InBody
    requires s.runs[rid].start <= s.runs[rid].bodyStart <= s.clock
    ensures var jid := s.runs[rid].job;
            var t := Next(s, EndBody(rid, faulted));
            && t.Some?
            && t.value.runs[rid].phase == BodyDone
            && (faulted ==> t.value.jobs[jid].latency == s.jobs[jid].latency)
            && (!faulted ==> t.value.jobs[jid].latency == Some(s.clock - s.runs[rid].start))
            && (!faulted ==> t.value.jobs[jid].latency.value >= s.clock - s.runs[rid].bodyStart >= 0)
  {
    assert Next(s, EndBody(rid, faulted)) == Some(FinishBody(s, rid, faulted));
  }

  /** The latency is written by a normal return of a body and by nothing
      else: no admission step, counter store, status refresh, deferred
      statement, faulted body, new job, new call or passing of time changes
      any job's latency. */
  lemma LatencyOnlyOnReturn(s: System, step: Step)
    requires Next(s, step).Some? && !(step.EndBody? && !step.faulted)
    ensures forall j :: j in s.jobs ==> Next(s, step).value.jobs[j].latency == s.jobs[j].latency
  {
    match step
    case Advance(rid) => AdvanceKeepsLatency(s, rid);
    case _ =>
  }

  lemma AdvanceKeepsLatency(s: System, rid: RunId)
    requires rid in s.runs && s.runs[rid].job in s.jobs && AdvanceRun(s, rid).Some?
    ensures forall j :: j in s.jobs ==> j in AdvanceRun(s, rid).value.jobs
    ensures forall j :: j in s.jobs ==> AdvanceRun(s, rid).value.jobs[j].latency == s.jobs[j].latency
  {
    var j := s.jobs[s.runs[rid].job];
    match s.runs[rid].phase
    case Marked => assert StatusUpdate(j).0.latency == j.latency;
    case Cleared => assert StatusUpdate(j).0.latency == j.latency;
    case _ =>
  }

  /** A call of `Run` is never blocked before it takes the mutex unless
      self-concurrency is off and another call of the same job holds it, and
      never blocked before it takes a permit unless the channel is full. */
  lemma AdmissionWaits(s: System, rid: RunId)
    requires Inv(s) && rid in s.runs
    ensures var inv := s.runs[rid];
            && (inv.phase == Entered ==>
                  (Next(s, Advance(rid)).None? <==>
                   !s.selfConcurrent &&
                   exists r :: r in s.runs && r != rid && s.runs[r].job == inv.job && HoldsLock(s, s.runs[r])))
            && (inv.phase == Locked ==>
                  (Next(s, Advance(rid)).None? <==>
                   s.capacity.Some? && |PermitHolders(s)| == s.capacity.value))
  {
  }

  /** With self-concurrency off, every call holding a permit also holds its
      job's mutex: the mutex is taken first and released last. */
  lemma LockBeforePermit(settings: Config.Settings, steps: seq<Step>)
    requires !settings.selfConcurrent && Execute(Init(settings), steps).Some?
    ensures var s := Execute(Init(settings), steps).value;
            forall rid :: rid in s.runs && HoldsPermit(s, s.runs[rid]) ==>
              s.runs[rid].job in s.jobs && s.jobs[s.runs[rid].job].lockHeld
  {
    ReachableInv(settings, steps);
    ExecuteKeepsSettings(Init(settings), steps);
  }

  /** The runnable of the race below. */
  const Report := Runnable("Report", 0)

  /** Two overlapping calls of one job with self-concurrency on: call 1
      enters its body, then call 2 enters its body, call 1 returns and
      unwinds past its status refresh. */
  const RaceSteps: seq<Step> := RaceFirst + RaceSecond + RaceReturn

  /** Call 1 enters its body while call 2 has just entered `Run`. */
  const RaceFirst: seq<Step> := [
    Register(0, Report), Invoke(1, 0), Invoke(2, 0),
    Advance(1), Advance(1), Advance(1), Advance(1)]

  /** Call 2 enters its body too. */
  const RaceSecond: seq<Step> := [Advance(2), Advance(2), Advance(2), Advance(2)]

  /** Call 1 returns, stores 0 and refreshes the status. */
  const RaceReturn: seq<Step> := [EndBody(1, false), Advance(1), Advance(1)]

  /** The job while some call has stored 1 and refreshed the status. */
  const ReportRunning := Job("Report", Report, 1, Running, None, false)

  /** The state after `RaceFirst`. */
  const RaceOne := System(
    None, 0, true, map[0 := ReportRunning],
    map[1 := Invocation(0, InBody, 0, 0, false), 2 := Invocation(0, Entered, 0, 0, false)],
    0)

  /** The state after `RaceSecond`: both calls are in the body. */
  const RaceBoth := System(
    None, 0, true, map[0 := ReportRunning],
    map[1 := Invocation(0, InBody, 0, 0, false), 2 := Invocation(0, InBody, 0, 0, false)],
    0)

  /** Executing two step sequences one after the other. */
  lemma {:induction false} ExecuteAppend(s: System, xs: seq<Step>, ys: seq<Step>)
    requires Execute(s, xs).Some?
    ensures Execute(s, xs + ys) == Execute(Execute(s, xs).value, ys)
    decreases |xs|
  {
    if |xs| == 0 {
      assert xs + ys == ys;
    } else {
      assert (xs + ys)[0] == xs[0];
      assert (xs + ys)[1..] == xs[1..] + ys;
      ExecuteAppend(Next(s, xs[0]).value, xs[1..], ys);
    }
  }

  lemma RaceFirstReachesOne()
    ensures Execute(Init(Config.Settings(None, true)), RaceFirst) == Some(RaceOne)
  {
    var s0 := Init(Config.Settings(None, true));
    var s1 := Next(s0, Register(0, Report)).value;
    var s2 := Next(s1, Invoke(1, 0)).value;
    var s3 := Next(s2, Invoke(2, 0)).value;
    var s4 := Next(s3, Advance(1)).value;
    var s5 := Next(s4, Advance(1)).value;
    var s6 := Next(s5, Advance(1)).value;
    var s7 := Next(s6, Advance(1)).value;
    ExecuteChain([s0, s1, s2, s3, s4, s5, s6, s7], RaceFirst);
    assert s7.jobs == RaceOne.jobs;
    assert s7.runs == RaceOne.runs;
  }

  lemma RaceSecondReachesBoth()
    ensures Execute(RaceOne, RaceSecond) == Some(RaceBoth)
  {
    var s7 := RaceOne;
    var s8 := Next(s7, Advance(2)).value;
    var s9 := Next(s8, Advance(2)).value;
    var s10 := Next(s9, Advance(2)).value;
    var s11 := Next(s10, Advance(2)).value;
    ExecuteChain([s7, s8, s9, s10, s11], RaceSecond);
    assert s11.jobs == RaceBoth.jobs;
    assert s11.runs == RaceBoth.runs;
  }

  lemma RaceReturnGoesIdle()
    ensures var t := Execute(RaceBoth, RaceReturn);
            && t.Some? && 2 in t.value.runs && t.value.runs[2].phase == InBody
            && 0 in t.value.jobs && t.value.jobs[0].status == 0 && t.value.jobs[0].statusText == Idle
  {
    var s11 := RaceBoth;
    var s12 := Next(s11, EndBody(1, false)).value;
    var s13 := Next(s12, Advance(1)).value;
    var s14 := Next(s13, Advance(1)).value;
    ExecuteChain([s11, s12, s13, s14], RaceReturn);
  }

  /** The counter is a flag, not a count: with self-concurrency on, the
      first of two overlapping calls to finish stores 0 and refreshes the
      status, so the job reads "IDLE" while the second call is still in its
      body. */
  lemma SelfConcurrentStatusRace()
    ensures var t := Execute(Init(Config.Settings(None, true)), RaceSteps);
            && t.Some? && 2 in t.value.runs && t.value.runs[2].phase == InBody
            && 0 in t.value.jobs && t.value.jobs[0].status == 0 && t.value.jobs[0].statusText == Idle
  {
    var s0 := Init(Config.Settings(None, true));
    RaceFirstReachesOne();
    RaceSecondReachesBoth();
    RaceReturnGoesIdle();
    ExecuteAppend(s0, RaceFirst, RaceSecond);
    ExecuteAppend(s0, RaceFirst + RaceSecond, RaceReturn);
  }

  /** End to end: after `Start` with a first option `c`, never more than `c`
      calls hold a permit (10 when `c` is not positive); after `Start()` on
      fresh globals, no call ever waits for or holds a permit. */
  lemma StartBoundsConcurrency(prior: Config.Settings, v: seq<int>, steps: seq<Step>)
    requires Config.Start(prior, v).Started?
    requires Execute(Init(Config.Start(prior, v).settings), steps).Some?
    ensures var s := Execute(Init(Config.Start(prior, v).settings), steps).value;
            && (|v| >= 1 ==>
                  |PermitHolders(s)| <= (if v[0] <= 0 then Config.DefaultJobPoolSize else v[0]))
            && (|v| == 0 && prior == Config.ZeroSettings ==> PermitHolders(s) == {} && s.inFlight == 0)
  {
    PermitBound(Config.Start(prior, v).settings, steps);
  }
}

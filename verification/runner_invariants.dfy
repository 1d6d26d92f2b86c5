/** Inductive invariants of the `Run` transition system: the permit channel
    never holds more permits than its capacity, a job that may not overlap
    with itself has at most one call between lock and unlock, every held
    mutex has an owner, and the status counter and string follow the phase
    of that owner. */
module RunnerInvariants {
  import opened Wrappers
  import opened Jobs
  import opened Runner
  import Config

  /** The calls of `Run` that currently hold a permit. */
  ghost function PermitHolders(s: System): set<RunId>
  {
    set rid | rid in s.runs && HoldsPermit(s, s.runs[rid])
  }

  /** Every call belongs to a wrapped job and took its clock readings in
      order, no later than now. */
  ghost predicate RunsWellFormed(s: System)
  {
    forall rid :: rid in s.runs ==>
      && s.runs[rid].job in s.jobs
      && s.runs[rid].start <= s.runs[rid].bodyStart <= s.clock
  }

  /** The channel holds one permit per holder, and never more than its
      capacity. */
  ghost predicate PermitsCounted(s: System)
  {
    && s.inFlight == |PermitHolders(s)|
    && (s.capacity.Some? ==> s.inFlight <= s.capacity.value)
  }

  /** Mutex bookkeeping: a holder's mutex is locked, a locked mutex has a
      holder, two holders of one job's mutex are the same call, and the
      mutexes are never touched when self-concurrency is on. */
  ghost predicate LocksOwned(s: System)
    requires RunsWellFormed(s)
  {
    && (forall rid :: rid in s.runs && HoldsLock(s, s.runs[rid]) ==> s.jobs[s.runs[rid].job].lockHeld)
    && (forall j :: j in s.jobs && s.jobs[j].lockHeld ==>
          exists rid :: rid in s.runs && s.runs[rid].job == j && HoldsLock(s, s.runs[rid]))
    && (forall r1, r2 ::
          (r1 in s.runs && r2 in s.runs && s.runs[r1].job == s.runs[r2].job &&
           HoldsLock(s, s.runs[r1]) && HoldsLock(s, s.runs[r2])) ==> r1 == r2)
  }

  /** Field ranges of every job. */
  ghost predicate JobsSane(s: System)
  {
    forall j :: j in s.jobs ==>
      && s.jobs[j].status <= 1
      && (s.jobs[j].statusText == "" || s.jobs[j].statusText == Idle || s.jobs[j].statusText == Running)
      && (s.jobs[j].latency.Some? ==> s.jobs[j].latency.value >= 0)
  }

  /** With self-concurrency off, a job's counter and status string are those
      its mutex holder's phase dictates, and an unlocked job is idle. */
  ghost predicate StatusFollowsHolder(s: System)
    requires RunsWellFormed(s)
  {
    !s.selfConcurrent ==>
      && (forall j :: j in s.jobs && !s.jobs[j].lockHeld ==>
            s.jobs[j].status == 0 && s.jobs[j].statusText != Running)
      && (forall rid :: rid in s.runs && HoldsLock(s, s.runs[rid]) ==>
            var j := s.jobs[s.runs[rid].job];
            && (j.status == 1 <==> CounterSet(s.runs[rid].phase))
            && (j.statusText == Running <==> ShowsRunning(s.runs[rid].phase))
            && (Rank(s.runs[rid].phase) >= 7 ==> j.statusText == Idle))
  }

  ghost predicate Inv(s: System)
  {
    && RunsWellFormed(s)
    && PermitsCounted(s)
    && LocksOwned(s)
    && JobsSane(s)
    && StatusFollowsHolder(s)
  }

  lemma InitSatisfiesInv(settings: Config.Settings)
    ensures Inv(Init(settings))
  {
    assert PermitHolders(Init(settings)) == {};
  }

  /** Removing one element removes at most one from the cardinality. */
  lemma CardWithout<T>(S: set<T>, x: T)
    ensures |S| == |S - {x}| + (if x in S then 1 else 0)
  {
    if x in S {
      assert S == (S - {x}) + {x};
    } else {
      assert S == S - {x};
    }
  }

  /** How the number of permit holders changes when one call changes. */
  lemma HoldersAfterUpdate(s: System, s': System, rid: RunId)
    requires s'.capacity == s.capacity && rid in s'.runs
    requires s'.runs == s.runs[rid := s'.runs[rid]]
    ensures |PermitHolders(s')| + (if rid in s.runs && HoldsPermit(s, s.runs[rid]) then 1 else 0)
         == |PermitHolders(s)| + (if HoldsPermit(s', s'.runs[rid]) then 1 else 0)
  {
    var A := PermitHolders(s);
    var B := PermitHolders(s');
    forall x
      ensures x in B - {rid} <==> x in A - {rid}
    {
      if x != rid && x in s.runs {
        assert s'.runs[x] == s.runs[x];
      }
    }
    assert B - {rid} == A - {rid};
    CardWithout(A, rid);
    CardWithout(B, rid);
  }

  /** Only the clock moved forward. */
  lemma LaterClockPreservesInv(s: System, s': System)
    requires Inv(s) && s' == s.(clock := s'.clock) && s'.clock >= s.clock
    ensures Inv(s')
  {
    assert PermitHolders(s') == PermitHolders(s);
    assert RunsWellFormed(s');
    assert LocksOwned(s') by {
      forall j | j in s'.jobs && s'.jobs[j].lockHeld
        ensures exists rid :: rid in s'.runs && s'.runs[rid].job == j && HoldsLock(s', s'.runs[rid])
      {
        var h :| h in s.runs && s.runs[h].job == j && HoldsLock(s, s.runs[h]);
        assert h in s'.runs && s'.runs[h].job == j && HoldsLock(s', s'.runs[h]);
      }
    }
  }

  lemma TickPreservesInv(s: System, d: nat)
    requires Inv(s)
    ensures Inv(Next(s, Tick(d)).value)
  {
    var t := Next(s, Tick(d)).value;
    assert t == s.(clock := t.clock) && t.clock >= s.clock;
    LaterClockPreservesInv(s, t);
  }

  /** `s'` adds the job `jid`, fresh and idle, and changes nothing else. */
  ghost predicate AddsIdleJob(s: System, s': System, jid: JobId)
  {
    && jid !in s.jobs && jid in s'.jobs
    && s' == s.(jobs := s.jobs[jid := s'.jobs[jid]])
    && s'.jobs[jid].status == 0 && s'.jobs[jid].statusText == "" && !s'.jobs[jid].lockHeld
    && s'.jobs[jid].latency.None?
  }

  lemma FreshJobLocks(s: System, s': System, jid: JobId)
    requires RunsWellFormed(s) && LocksOwned(s) && AddsIdleJob(s, s', jid)
    ensures RunsWellFormed(s') && LocksOwned(s')
  {
    assert RunsWellFormed(s');
    forall j | j in s'.jobs && s'.jobs[j].lockHeld
      ensures exists rid :: rid in s'.runs && s'.runs[rid].job == j && HoldsLock(s', s'.runs[rid])
    {
      var h :| h in s.runs && s.runs[h].job == j && HoldsLock(s, s.runs[h]);
      assert h in s'.runs && s'.runs[h].job == j && HoldsLock(s', s'.runs[h]);
    }
  }

  lemma FreshJobStatus(s: System, s': System, jid: JobId)
    requires RunsWellFormed(s) && StatusFollowsHolder(s) && AddsIdleJob(s, s', jid)
    requires RunsWellFormed(s')
    ensures StatusFollowsHolder(s')
  {
    assert forall rid :: rid in s'.runs ==> s'.runs[rid].job != jid;
  }

  /** Only a fresh, idle job was added. */
  lemma FreshJobPreservesInv(s: System, s': System, jid: JobId)
    requires Inv(s) && AddsIdleJob(s, s', jid)
    ensures Inv(s')
  {
    assert PermitHolders(s') == PermitHolders(s);
    FreshJobLocks(s, s', jid);
    FreshJobStatus(s, s', jid);
  }

  lemma RegisterPreservesInv(s: System, id: JobId, inner: Runnable)
    requires Inv(s) && Next(s, Register(id, inner)).Some?
    ensures Inv(Next(s, Register(id, inner)).value)
  {
    var t := Next(s, Register(id, inner)).value;
    assert id !in s.jobs && t == s.(jobs := s.jobs[id := New(inner)]);
    FreshJobPreservesInv(s, t, id);
  }

  /** `s'` differs from `s` only in call `rid` (which may be new), in the
      job of that call, in the permit count and in a later clock. */
  ghost predicate OneCallStep(s: System, s': System, rid: RunId)
  {
    && rid in s'.runs
    && s'.runs == s.runs[rid := s'.runs[rid]]
    && s'.capacity == s.capacity
    && s'.selfConcurrent == s.selfConcurrent
    && s'.clock >= s.clock
    && s'.runs[rid].job in s.jobs
    && s'.runs[rid].job in s'.jobs
    && (rid in s.runs ==> s.runs[rid].job == s'.runs[rid].job)
    && s'.jobs == s.jobs[s'.runs[rid].job := s'.jobs[s'.runs[rid].job]]
  }

  /** The call `rid` held its job's mutex before the step. */
  ghost predicate HeldBefore(s: System, rid: RunId)
  {
    rid in s.runs && HoldsLock(s, s.runs[rid])
  }

  /** The status counter and string of job `j` are those that the phase `p`
      of its mutex holder dictates. */
  ghost predicate StatusMatches(j: Job, p: Phase)
  {
    && (j.status == 1 <==> CounterSet(p))
    && (j.statusText == Running <==> ShowsRunning(p))
    && (Rank(p) >= 7 ==> j.statusText == Idle)
  }

  lemma OneCallWellFormed(s: System, s': System, rid: RunId)
    requires RunsWellFormed(s) && OneCallStep(s, s', rid)
    requires s'.runs[rid].start <= s'.runs[rid].bodyStart <= s'.clock
    ensures RunsWellFormed(s')
  {
    forall r | r in s'.runs
      ensures s'.runs[r].job in s'.jobs && s'.runs[r].start <= s'.runs[r].bodyStart <= s'.clock
    {
      if r != rid {
        assert s'.runs[r] == s.runs[r];
      }
    }
  }

  lemma OneCallPermits(s: System, s': System, rid: RunId)
    requires PermitsCounted(s) && OneCallStep(s, s', rid)
    requires s'.inFlight + (if rid in s.runs && HoldsPermit(s, s.runs[rid]) then 1 else 0)
          == s.inFlight + (if HoldsPermit(s', s'.runs[rid]) then 1 else 0)
    requires s'.capacity.Some? ==> s'.inFlight <= s'.capacity.value
    ensures PermitsCounted(s')
  {
    HoldersAfterUpdate(s, s', rid);
  }

  lemma OneCallLocks(s: System, s': System, rid: RunId)
    requires RunsWellFormed(s) && LocksOwned(s) && OneCallStep(s, s', rid) && RunsWellFormed(s')
    requires var jid := s'.runs[rid].job;
             var isH := HoldsLock(s', s'.runs[rid]);
             && s'.jobs[jid].lockHeld == (if HeldBefore(s, rid) != isH then isH else s.jobs[jid].lockHeld)
             && (isH && !HeldBefore(s, rid) ==> !s.jobs[jid].lockHeld)
    ensures LocksOwned(s')
  {
    var jid := s'.runs[rid].job;
    forall r | r in s'.runs && HoldsLock(s', s'.runs[r])
      ensures s'.jobs[s'.runs[r].job].lockHeld
    {
      if r != rid {
        assert s'.runs[r] == s.runs[r];
        assert s.runs[r].job == jid ==> !HeldBefore(s, rid);
      }
    }
    forall j | j in s'.jobs && s'.jobs[j].lockHeld
      ensures exists r :: r in s'.runs && s'.runs[r].job == j && HoldsLock(s', s'.runs[r])
    {
      if j == jid && HoldsLock(s', s'.runs[rid]) {
        assert s'.runs[rid].job == j;
      } else {
        var h :| h in s.runs && s.runs[h].job == j && HoldsLock(s, s.runs[h]);
        assert h != rid;
        assert s'.runs[h] == s.runs[h];
      }
    }
    forall r1, r2 | r1 in s'.runs && r2 in s'.runs && s'.runs[r1].job == s'.runs[r2].job &&
                    HoldsLock(s', s'.runs[r1]) && HoldsLock(s', s'.runs[r2])
      ensures r1 == r2
    {
      if r1 != rid {
        assert s'.runs[r1] == s.runs[r1];
      }
      if r2 != rid {
        assert s'.runs[r2] == s.runs[r2];
      }
    }
  }

  lemma OneCallSane(s: System, s': System, rid: RunId)
    requires JobsSane(s) && OneCallStep(s, s', rid)
    requires var j := s'.jobs[s'.runs[rid].job];
             && j.status <= 1
             && (j.statusText == "" || j.statusText == Idle || j.statusText == Running)
             && (j.latency.Some? ==> j.latency.value >= 0)
    ensures JobsSane(s')
  {
  }

  lemma OneCallStatus(s: System, s': System, rid: RunId)
    requires RunsWellFormed(s) && LocksOwned(s) && StatusFollowsHolder(s)
    requires OneCallStep(s, s', rid) && RunsWellFormed(s') && LocksOwned(s')
    requires var jid := s'.runs[rid].job;
             var j := s'.jobs[jid];
             !s.selfConcurrent ==>
               && (!j.lockHeld ==> j.status == 0 && j.statusText != Running)
               && (HoldsLock(s', s'.runs[rid]) ==> StatusMatches(j, s'.runs[rid].phase))
               && (HeldBefore(s, rid) || HoldsLock(s', s'.runs[rid]) || j == s.jobs[jid])
    ensures StatusFollowsHolder(s')
  {
    if !s.selfConcurrent {
      var jid := s'.runs[rid].job;
      forall r | r in s'.runs && HoldsLock(s', s'.runs[r])
        ensures StatusMatches(s'.jobs[s'.runs[r].job], s'.runs[r].phase)
      {
        if r != rid {
          assert s'.runs[r] == s.runs[r];
          assert StatusMatches(s.jobs[s.runs[r].job], s.runs[r].phase);
          assert s.runs[r].job == jid ==> !HeldBefore(s, rid) && !HoldsLock(s', s'.runs[rid]);
        }
      }
    }
  }

  /** A step that changes one call preserves the invariant when the call
      and its job change consistently. */
  lemma OneCallPreservesInv(s: System, s': System, rid: RunId)
    requires Inv(s) && OneCallStep(s, s', rid)
    requires s'.runs[rid].start <= s'.runs[rid].bodyStart <= s'.clock
    requires s'.inFlight + (if rid in s.runs && HoldsPermit(s, s.runs[rid]) then 1 else 0)
          == s.inFlight + (if HoldsPermit(s', s'.runs[rid]) then 1 else 0)
    requires s'.capacity.Some? ==> s'.inFlight <= s'.capacity.value
    requires var jid := s'.runs[rid].job;
             var isH := HoldsLock(s', s'.runs[rid]);
             && s'.jobs[jid].lockHeld == (if HeldBefore(s, rid) != isH then isH else s.jobs[jid].lockHeld)
             && (isH && !HeldBefore(s, rid) ==> !s.jobs[jid].lockHeld)
    requires var j := s'.jobs[s'.runs[rid].job];
             && j.status <= 1
             && (j.statusText == "" || j.statusText == Idle || j.statusText == Running)
             && (j.latency.Some? ==> j.latency.value >= 0)
    requires var jid := s'.runs[rid].job;
             var j := s'.jobs[jid];
             !s.selfConcurrent ==>
               && (!j.lockHeld ==> j.status == 0 && j.statusText != Running)
               && (HoldsLock(s', s'.runs[rid]) ==> StatusMatches(j, s'.runs[rid].phase))
               && (HeldBefore(s, rid) || HoldsLock(s', s'.runs[rid]) || j == s.jobs[jid])
    ensures Inv(s')
  {
    OneCallWellFormed(s, s', rid);
    OneCallPermits(s, s', rid);
    OneCallLocks(s, s', rid);
    OneCallSane(s, s', rid);
    OneCallStatus(s, s', rid);
  }

  lemma InvokePreservesInv(s: System, rid: RunId, jid: JobId)
    requires Inv(s) && Next(s, Invoke(rid, jid)).Some?
    ensures Inv(Next(s, Invoke(rid, jid)).value)
  {
    var s' := Next(s, Invoke(rid, jid)).value;
    assert s'.jobs == s.jobs[jid := s.jobs[jid]];
    OneCallPreservesInv(s, s', rid);
  }

  lemma EndBodyPreservesInv(s: System, rid: RunId, faulted: bool)
    requires Inv(s) && Next(s, EndBody(rid, faulted)).Some?
    ensures Inv(Next(s, EndBody(rid, faulted)).value)
  {
    var s' := Next(s, EndBody(rid, faulted)).value;
    var jid := s.runs[rid].job;
    assert s'.jobs == s.jobs[jid := s'.jobs[jid]];
    OneCallPreservesInv(s, s', rid);
  }

  /* One lemma per phase of `Advance`. The bodies are nearly alike, but each
     lemma keeps the unfolding of `AdvanceRun` to a single case. A single
     lemma with one `match` over all phases exceeds the solver's resource
     budget. */

  lemma AdvanceEnteredPreservesInv(s: System, rid: RunId)
    requires Inv(s) && Next(s, Advance(rid)).Some? && s.runs[rid].phase == Entered
    ensures Inv(Next(s, Advance(rid)).value)
  {
    var s' := Next(s, Advance(rid)).value;
    var jid := s.runs[rid].job;
    assert s'.jobs == s.jobs[jid := s'.jobs[jid]];
    OneCallPreservesInv(s, s', rid);
  }

  lemma AdvanceLockedPreservesInv(s: System, rid: RunId)
    requires Inv(s) && Next(s, Advance(rid)).Some? && s.runs[rid].phase == Locked
    ensures Inv(Next(s, Advance(rid)).value)
  {
    var s' := Next(s, Advance(rid)).value;
    var jid := s.runs[rid].job;
    assert s'.jobs == s.jobs[jid := s'.jobs[jid]];
    OneCallPreservesInv(s, s', rid);
  }

  lemma AdvanceAdmittedPreservesInv(s: System, rid: RunId)
    requires Inv(s) && Next(s, Advance(rid)).Some? && s.runs[rid].phase == Admitted
    ensures Inv(Next(s, Advance(rid)).value)
  {
    var s' := Next(s, Advance(rid)).value;
    var jid := s.runs[rid].job;
    assert s'.jobs == s.jobs[jid := s'.jobs[jid]];
    OneCallPreservesInv(s, s', rid);
  }

  lemma AdvanceMarkedPreservesInv(s: System, rid: RunId)
    requires Inv(s) && Next(s, Advance(rid)).Some? && s.runs[rid].phase == Marked
    ensures Inv(Next(s, Advance(rid)).value)
  {
    var s' := Next(s, Advance(rid)).value;
    var jid := s.runs[rid].job;
    assert s'.jobs == s.jobs[jid := s'.jobs[jid]];
    OneCallPreservesInv(s, s', rid);
  }

  lemma AdvanceBodyDonePreservesInv(s: System, rid: RunId)
    requires Inv(s) && Next(s, Advance(rid)).Some? && s.runs[rid].phase == BodyDone
    ensures Inv(Next(s, Advance(rid)).value)
  {
    var s' := Next(s, Advance(rid)).value;
    var jid := s.runs[rid].job;
    assert s'.jobs == s.jobs[jid := s'.jobs[jid]];
    OneCallPreservesInv(s, s', rid);
  }

  lemma AdvanceClearedPreservesInv(s: System, rid: RunId)
    requires Inv(s) && Next(s, Advance(rid)).Some? && s.runs[rid].phase == Cleared
    ensures Inv(Next(s, Advance(rid)).value)
  {
    var s' := Next(s, Advance(rid)).value;
    var jid := s.runs[rid].job;
    assert s'.jobs == s.jobs[jid := s'.jobs[jid]];
    OneCallPreservesInv(s, s', rid);
  }

  lemma AdvanceRefreshedPreservesInv(s: System, rid: RunId)
    requires Inv(s) && Next(s, Advance(rid)).Some? && s.runs[rid].phase == Refreshed
    ensures Inv(Next(s, Advance(rid)).value)
  {
    var s' := Next(s, Advance(rid)).value;
    var jid := s.runs[rid].job;
    assert s'.jobs == s.jobs[jid := s'.jobs[jid]];
    assert s.capacity.Some? ==> rid in PermitHolders(s);
    OneCallPreservesInv(s, s', rid);
  }

  lemma AdvanceReleasedPreservesInv(s: System, rid: RunId)
    requires Inv(s) && Next(s, Advance(rid)).Some? && s.runs[rid].phase == Released
    ensures Inv(Next(s, Advance(rid)).value)
  {
    var s' := Next(s, Advance(rid)).value;
    var jid := s.runs[rid].job;
    assert s'.jobs == s.jobs[jid := s'.jobs[jid]];
    OneCallPreservesInv(s, s', rid);
  }

  lemma AdvancePreservesInv(s: System, rid: RunId)
    requires Inv(s) && Next(s, Advance(rid)).Some?
    ensures Inv(Next(s, Advance(rid)).value)
  {
    match s.runs[rid].phase {
      case Entered => AdvanceEnteredPreservesInv(s, rid);
      case Locked => AdvanceLockedPreservesInv(s, rid);
      case Admitted => AdvanceAdmittedPreservesInv(s, rid);
      case Marked => AdvanceMarkedPreservesInv(s, rid);
      case BodyDone => AdvanceBodyDonePreservesInv(s, rid);
      case Cleared => AdvanceClearedPreservesInv(s, rid);
      case Refreshed => AdvanceRefreshedPreservesInv(s, rid);
      case Released => AdvanceReleasedPreservesInv(s, rid);
    }
  }

  lemma StepPreservesInv(s: System, step: Step)
    requires Inv(s) && Next(s, step).Some?
    ensures Inv(Next(s, step).value)
  {
    match step
    case Tick(d) => TickPreservesInv(s, d);
    case Register(id, inner) => RegisterPreservesInv(s, id, inner);
    case Invoke(rid, jid) => InvokePreservesInv(s, rid, jid);
    case Advance(rid) => AdvancePreservesInv(s, rid);
    case EndBody(rid, faulted) => EndBodyPreservesInv(s, rid, faulted);
  }
}

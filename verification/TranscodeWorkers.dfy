/** The job life cycle and the FFmpeg lock together. An execution of a `transcode_media` job enters
    the lock under its job id, so owners are distinct because each such job is claimed once. The two
    parts move independently otherwise, which allows more runs than the program has. */
module TranscodeWorkers {
  import opened Text
  import J = Jobs
  import L = TranscodeLock

  datatype State = State(jobs: J.State, lock: L.State)

  datatype Action = JobStep(job: J.Action) | LockStep(lock: L.Action)

  // A handler enters the lock for the job it was started for, as `str(job_id)`.
  predicate EntersForItsJob(s: State, a: L.Action) {
    a.Enter? ==>
      && a.e in s.jobs.execs && s.jobs.execs[a.e].phase == J.Handling
      && s.jobs.execs[a.e].job in s.jobs.jobs
      && s.jobs.jobs[s.jobs.execs[a.e].job].jobType == J.ConversionType
      && a.owner == Dec(s.jobs.execs[a.e].job)
  }

  predicate Enabled(s: State, a: Action) {
    match a
    case JobStep(j) => J.Enabled(s.jobs, j)
    case LockStep(l) => L.Enabled(s.lock, l) && L.RowFound(s.lock, l) && EntersForItsJob(s, l)
  }

  function Apply(s: State, a: Action): State
    requires Enabled(s, a)
  {
    match a
    case JobStep(j) => s.(jobs := J.Apply(s.jobs, j))
    case LockStep(l) => s.(lock := L.Apply(s.lock, l))
  }

  predicate Runs(s: State, actions: seq<Action>)
    decreases |actions|
  {
    actions == [] || (Enabled(s, actions[0]) && Runs(Apply(s, actions[0]), actions[1..]))
  }

  function After(s: State, actions: seq<Action>): State
    requires Runs(s, actions)
    decreases |actions|
  {
    if actions == [] then s else After(Apply(s, actions[0]), actions[1..])
  }

  function Initial(now: real): State { State(J.Initial(now), L.Initial(now)) }

  function JobActions(actions: seq<Action>): seq<J.Action>
    decreases |actions|
  {
    if actions == [] then []
    else (if actions[0].JobStep? then [actions[0].job] else []) + JobActions(actions[1..])
  }

  function LockActions(actions: seq<Action>): seq<L.Action>
    decreases |actions|
  {
    if actions == [] then []
    else (if actions[0].LockStep? then [actions[0].lock] else []) + LockActions(actions[1..])
  }

  // A run of the whole is a run of each part.
  lemma {:induction false} RunProjects(s: State, actions: seq<Action>)
    requires Runs(s, actions)
    ensures J.Runs(s.jobs, JobActions(actions)) && J.After(s.jobs, JobActions(actions)) == After(s, actions).jobs
    ensures L.Runs(s.lock, LockActions(actions)) && L.After(s.lock, LockActions(actions)) == After(s, actions).lock
    decreases |actions|
  {
    hide J.Apply, L.Apply, J.Enabled, L.Enabled;
    if actions != [] {
      RunProjects(Apply(s, actions[0]), actions[1..]);
      if actions[0].JobStep? {
        assert JobActions(actions)[1..] == JobActions(actions[1..]);
        assert LockActions(actions) == LockActions(actions[1..]);
      } else {
        assert LockActions(actions)[1..] == LockActions(actions[1..]);
        assert JobActions(actions) == JobActions(actions[1..]);
      }
    }
  }

  predicate OwnedByItsJob(s: State, e: nat)
    requires e in s.lock.execs
  {
    && e in s.jobs.execs
    && s.jobs.execs[e].job in s.jobs.jobs
    && s.jobs.jobs[s.jobs.execs[e].job].jobType == J.ConversionType
    && s.lock.execs[e].owner == Dec(s.jobs.execs[e].job)
  }

  ghost predicate Owned(s: State) { forall e | e in s.lock.execs :: OwnedByItsJob(s, e) }

  lemma JobsStay(s: J.State, a: J.Action, e: nat)
    requires J.Enabled(s, a) && e in s.execs && s.execs[e].job in s.jobs
    ensures
      var s', id := J.Apply(s, a), s.execs[e].job;
      e in s'.execs && s'.execs[e].job == id && id in s'.jobs && s'.jobs[id].jobType == s.jobs[id].jobType
  {}

  lemma HoldersStay(s: L.State, a: L.Action, e: nat)
    requires L.Enabled(s, a) && L.RowFound(s, a) && e in s.execs
    ensures e in L.Apply(s, a).execs && L.Apply(s, a).execs[e].owner == s.execs[e].owner
  {}

  lemma StepKeepsOwned(s: State, a: Action)
    requires Owned(s) && Enabled(s, a)
    ensures Owned(Apply(s, a))
  {
    var s' := Apply(s, a);
    forall e | e in s'.lock.execs ensures OwnedByItsJob(s', e) {
      if e in s.lock.execs {
        assert OwnedByItsJob(s, e);
        if a.JobStep? { JobsStay(s.jobs, a.job, e); } else { HoldersStay(s.lock, a.lock, e); }
      }
      hide J.Apply, L.Apply, J.Enabled, L.Enabled;
    }
  }

  lemma {:induction false} RunKeepsOwned(s: State, actions: seq<Action>)
    requires Owned(s) && Runs(s, actions)
    ensures Owned(After(s, actions))
    decreases |actions|
  {
    if actions != [] {
      StepKeepsOwned(s, actions[0]);
      RunKeepsOwned(Apply(s, actions[0]), actions[1..]);
    }
  }

  // Owners in the lock are distinct: one job id, one execution.
  lemma OwnersAreDistinct(now: real, actions: seq<Action>)
    requires Runs(Initial(now), actions)
    ensures L.DistinctOwners(After(Initial(now), actions).lock)
  {
    var s := After(Initial(now), actions);
    RunKeepsOwned(Initial(now), actions);
    RunProjects(Initial(now), actions);
    forall e, f | e in s.lock.execs && f in s.lock.execs && s.lock.execs[e].owner == s.lock.execs[f].owner
      ensures e == f
    {
      assert OwnedByItsJob(s, e) && OwnedByItsJob(s, f);
      DecValueOfDec(s.jobs.execs[e].job);
      DecValueOfDec(s.jobs.execs[f].job);
      J.ConversionsRunOnce(now, JobActions(actions), e, f);
    }
  }

  // Main result: whatever messages are duplicated, whichever workers crash and however the clock
  // moves, at most one conversion per target key runs before its lease's deadline.
  lemma OneConversionPerTarget(now: real, actions: seq<Action>, e: nat, f: nat)
    requires Runs(Initial(now), actions)
    requires
      var s := After(Initial(now), actions).lock;
      && e in s.execs && f in s.execs && s.execs[e].key == s.execs[f].key
      && s.execs[e].pc == L.Inside && s.now < L.Deadline(s.execs[e])
      && s.execs[f].pc == L.Inside && s.now < L.Deadline(s.execs[f])
    ensures e == f
  {
    RunProjects(Initial(now), actions);
    OwnersAreDistinct(now, actions);
    L.AtMostOneTimelyHolder(now, LockActions(actions), e, f);
  }
}

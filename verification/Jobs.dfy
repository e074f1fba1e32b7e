/** The life cycle of a queued job: creation with an idempotency key, claiming under duplicate
    messages, finishing, the reset of stale running jobs and manual supersession. */
module Jobs {
  import opened Sets
  import opened Text

  datatype JobStatus = Queued | Running | Succeeded | Failed

  datatype Job = Job(
    jobType: string, key: Option<string>, status: JobStatus, error: Option<string>,
    createdAt: real, updatedAt: real, startedAt: Option<real>, finishedAt: Option<real>)

  type Jobs = map<nat, Job>

  const StaleMessage := "Reset stale running job so it can be published again."
  const SupersededMessage := "Superseded by a manual transcript regeneration request."

  predicate Active(j: Job) { j.status == Queued || j.status == Running }

  predicate ActiveFor(j: Job, key: string) { j.key == Some(key) && Active(j) }

  const ConversionType := "transcode_media"

  // The keys under which the episode check looks for an active job, `download_episode:profile:source:digest`.
  // They are what it resets by, whatever type the job has.
  predicate IsEpisodeKey(key: Option<string>) { key.Some? && "download_episode:" <= key.value }

  // The transitions of the jobs table.

  function NewJob(jobType: string, key: Option<string>, now: real): Job {
    Job(jobType, key, Queued, None, now, now, None, None)
  }

  function Claimed(j: Job, now: real): Job {
    j.(status := Running, startedAt := Some(now), updatedAt := now)
  }

  function Ended(j: Job, status: JobStatus, error: Option<string>, now: real): Job {
    j.(status := status, error := error, finishedAt := Some(now), updatedAt := now)
  }

  // `timeout` in whole seconds; 0, or a setting that is no number, switches the reset off.
  function StaleCutoff(timeout: nat, now: real): Option<real> {
    if timeout == 0 then None else Some(now - timeout as real)
  }

  predicate Stale(j: Job, cutoff: Option<real>) {
    && j.status == Running
    && cutoff.Some?
    && (match j.startedAt case Some(t) => t case None => j.updatedAt) <= cutoff.value
  }

  function Restarted(j: Job, now: real): Job {
    j.(status := Queued, error := Some(StaleMessage), startedAt := None, finishedAt := None, updatedAt := now)
  }

  // ---------------------------------------------------------------------------
  // The table with the methods that write it.

  datatype Verdict = Ack | Nack

  class JobTable {
    var jobs: Jobs
    var nextId: nat

    predicate Valid() reads this { forall i | i in jobs :: i < nextId }

    constructor ()
      ensures Valid() && jobs == map[]
    {
      jobs, nextId := map[], 0;
    }

    // Returns an active job with the same non-empty key if there is one, and a new QUEUED job otherwise.
    method CreateJob(jobType: string, key: Option<string>, now: real) returns (id: nat)
      requires Valid()
      modifies this
      ensures Valid() && id in jobs
      ensures
        if key.Some? && key.value != "" && exists i :: i in old(jobs) && ActiveFor(old(jobs)[i], key.value)
        then jobs == old(jobs) && ActiveFor(jobs[id], key.value)
        else id !in old(jobs) && jobs == old(jobs)[id := Job(jobType, key, Queued, None, now, now, None, None)]
    {
      if key.Some? && key.value != "" {
        if i :| i in jobs && ActiveFor(jobs[i], key.value) {
          return i;
        }
      }
      id := nextId;
      nextId := nextId + 1;
      jobs := jobs[id := Job(jobType, key, Queued, None, now, now, None, None)];
    }

    method ClaimJob(id: nat, now: real) returns (claimed: bool)
      requires Valid()
      modifies this
      ensures Valid()
      ensures claimed <==> id in old(jobs) && old(jobs)[id].status == Queued
      ensures jobs == if claimed then old(jobs)[id := Claimed(old(jobs)[id], now)] else old(jobs)
    {
      if id !in jobs || jobs[id].status != Queued {
        return false;
      }
      jobs := jobs[id := jobs[id].(status := Running, startedAt := Some(now), updatedAt := now)];
      claimed := true;
    }

    method FinishJob(id: nat, status: JobStatus, error: Option<string>, now: real)
      requires Valid() && id in jobs
      modifies this
      ensures Valid() && jobs == old(jobs)[id := Ended(old(jobs)[id], status, error, now)]
    {
      jobs := jobs[id := jobs[id].(status := status, error := error, finishedAt := Some(now), updatedAt := now)];
    }

    method MakeStaleJobQueued(id: nat, timeout: nat, readAt: real, now: real) returns (reset: bool)
      requires Valid() && id in jobs
      modifies this
      ensures Valid()
      ensures reset <==>
          && timeout > 0 && old(jobs)[id].status == Running
          && (match old(jobs)[id].startedAt case Some(t) => t case None => old(jobs)[id].updatedAt) + timeout as real
               <= readAt
      ensures
        var j := old(jobs)[id];
        jobs == if reset then old(jobs)[id :=
                  Job(j.jobType, j.key, Queued, Some(StaleMessage), j.createdAt, now, None, None)]
                else old(jobs)
    {
      var job := jobs[id];
      if job.status != Running {
        return false;
      }
      var cutoff := StaleCutoff(timeout, readAt);
      if cutoff.None? {
        return false;
      }
      var startedAt := match job.startedAt case Some(t) => t case None => job.updatedAt;
      if startedAt > cutoff.value {
        return false;
      }
      jobs := jobs[id := job.(status := Queued, error := Some(StaleMessage), startedAt := None,
                              finishedAt := None, updatedAt := now)];
      reset := true;
    }

    // One delivery handled to its end; `failure` is the exception of the handler, if it raises.
    method ProcessDelivery(id: nat, failure: Option<string>, claimAt: real, endAt: real) returns (verdict: Verdict)
      requires Valid()
      modifies this
      ensures Valid()
      ensures
        if id !in old(jobs) || old(jobs)[id].status != Queued then
          jobs == old(jobs) && verdict == Ack
        else
          && verdict == (if failure.Some? then Nack else Ack)
          && jobs.Keys == old(jobs).Keys && (forall i | i in jobs && i != id :: jobs[i] == old(jobs)[i])
          && jobs[id].status == (if failure.Some? then Failed else Succeeded)
          && jobs[id].error == failure
          && jobs[id].startedAt == Some(claimAt) && jobs[id].finishedAt == Some(endAt)
    {
      var claimed := ClaimJob(id, claimAt);
      if !claimed {
        return Ack;
      }
      if failure.Some? {
        FinishJob(id, Failed, failure, endAt);
        return Nack;
      }
      FinishJob(id, Succeeded, None, endAt);
      return Ack;
    }
  }

  // ---------------------------------------------------------------------------
  // Any number of workers, messages and resets, interleaved.

  datatype Phase = Claiming | Handling | Over | Dead

  // `began` records that the handler was started.
  datatype Exec = Exec(job: nat, phase: Phase, began: bool)

  datatype Event = ClaimEvent(job: nat) | StartEvent(job: nat) | ResetEvent(job: nat)

  datatype State = State(now: real, jobs: Jobs, execs: map<nat, Exec>, history: seq<Event>)

  datatype Action =
    | Create(id: nat, jobType: string, key: Option<string>)
    | Deliver(e: nat, id: nat)                 // a message for job `id`, possibly a duplicate, reaches a worker
    | Begin(e: nat)                            // the worker calls the handler
    | End(e: nat, failure: Option<string>)     // the worker records the outcome, whatever the row says now
    | Die(e: nat)
    | Reset(id: nat, timeout: nat)             // the episode check meets an active job under its key
    | Supersede(id: nat)                       // manual regeneration fails an active transcript job
    | Tick(to: real)

  predicate Enabled(s: State, a: Action) {
    match a
    case Create(id, jobType, key) => id !in s.jobs && (jobType == ConversionType ==> !IsEpisodeKey(key))
    case Deliver(e, _) => e !in s.execs
    case Begin(e) => e in s.execs && s.execs[e].phase == Claiming
    case End(e, failure) =>
      && e in s.execs && s.execs[e].job in s.jobs
      && (s.execs[e].phase == Handling || (s.execs[e].phase == Claiming && failure.Some?))
    case Die(e) => e in s.execs && (s.execs[e].phase == Claiming || s.execs[e].phase == Handling)
    case Reset(id, _) => id in s.jobs && IsEpisodeKey(s.jobs[id].key)
    case Supersede(id) => id in s.jobs && s.jobs[id].jobType == "generate_transcript" && Active(s.jobs[id])
    case Tick(to) => s.now <= to
  }

  predicate Deduplicated(s: State, key: Option<string>) {
    key.Some? && key.value != "" && exists i :: i in s.jobs && ActiveFor(s.jobs[i], key.value)
  }

  // The reset finds the job running for too long.
  predicate Resets(s: State, a: Action)
    requires Enabled(s, a)
  {
    a.Reset? && Stale(s.jobs[a.id], StaleCutoff(a.timeout, s.now))
  }

  function Apply(s: State, a: Action): State
    requires Enabled(s, a)
  {
    match a
    case Create(id, jobType, key) =>
      if Deduplicated(s, key) then s else s.(jobs := s.jobs[id := NewJob(jobType, key, s.now)])
    case Deliver(e, id) =>
      if id in s.jobs && s.jobs[id].status == Queued then
        s.(jobs := s.jobs[id := Claimed(s.jobs[id], s.now)],
           execs := s.execs[e := Exec(id, Claiming, false)],
           history := s.history + [ClaimEvent(id)])
      else s
    case Begin(e) =>
      s.(execs := s.execs[e := s.execs[e].(phase := Handling, began := true)],
         history := s.history + [StartEvent(s.execs[e].job)])
    case End(e, failure) =>
      var id := s.execs[e].job;
      s.(jobs := s.jobs[id := Ended(s.jobs[id], if failure.Some? then Failed else Succeeded, failure, s.now)],
         execs := s.execs[e := s.execs[e].(phase := Over)])
    case Die(e) => s.(execs := s.execs[e := s.execs[e].(phase := Dead)])
    case Reset(id, timeout) =>
      if Resets(s, a) then
        s.(jobs := s.jobs[id := Restarted(s.jobs[id], s.now)], history := s.history + [ResetEvent(id)])
      else s
    case Supersede(id) => s.(jobs := s.jobs[id := Ended(s.jobs[id], Failed, Some(SupersededMessage), s.now)])
    case Tick(to) => s.(now := to)
  }

  predicate Runs(s: State, actions: seq<Action>)
    decreases |actions|
  {
    actions == [] || (Enabled(s, actions[0]) && Runs(Apply(s, actions[0]), actions[1..]))
  }

  function After(s: State, actions: seq<Action>): State
    requires Runs(s, actions)
    decreases |actions|
  {
    if actions == [] then s else After(Apply(s, actions[0]), actions[1..])
  }

  function Initial(now: real): State { State(now, map[], map[], []) }

  function Count(history: seq<Event>, e: Event): nat {
    if history == [] then 0
    else Count(history[..|history| - 1], e) + if history[|history| - 1] == e then 1 else 0
  }

  lemma CountAppend(history: seq<Event>, e: Event, x: Event)
    ensures Count(history + [x], e) == Count(history, e) + if x == e then 1 else 0
  {
    assert (history + [x])[..|history|] == history;
  }

  function ExecsOf(execs: map<nat, Exec>, id: nat): set<nat> { set e | e in execs && execs[e].job == id }

  function BegunOf(execs: map<nat, Exec>, id: nat): set<nat> {
    set e | e in execs && execs[e].job == id && execs[e].began
  }

  // The job of the event is reset after position i and before position k.
  ghost predicate ResetIn(history: seq<Event>, e: Event, i: nat, k: nat)
    requires k <= |history|
  {
    exists m :: i < m < k && history[m] == ResetEvent(e.job)
  }

  // After the last such event its job was reset (or there is none).
  ghost predicate ResetSince(history: seq<Event>, e: Event) {
    forall i | 0 <= i < |history| && history[i] == e :: ResetIn(history, e, i, |history|)
  }

  // Between any two such events their job was reset.
  ghost predicate ResetBetween(history: seq<Event>, e: Event) {
    forall i, k | 0 <= i < k < |history| && history[i] == e && history[k] == e :: ResetIn(history, e, i, k)
  }

  predicate JobInv(s: State, id: nat) {
    var claims, resets := Count(s.history, ClaimEvent(id)), Count(s.history, ResetEvent(id));
    && |ExecsOf(s.execs, id)| == claims
    && |BegunOf(s.execs, id)| == Count(s.history, StartEvent(id))
    && (if id !in s.jobs then claims == 0 && resets == 0
        else
          && claims <= resets + 1
          && (s.jobs[id].status == Queued ==> claims == resets)
          && (s.jobs[id].status == Running ==> claims == resets + 1)
          && (!IsEpisodeKey(s.jobs[id].key) ==> resets == 0))
  }

  // At most one active job per non-empty key.
  ghost predicate UniqueKeys(s: State) {
    forall i, j, key |
      i in s.jobs && j in s.jobs && key != "" && ActiveFor(s.jobs[i], key) && ActiveFor(s.jobs[j], key) :: i == j
  }

  ghost predicate Inv(s: State) {
    && (forall id :: JobInv(s, id))
    && (forall e | e in s.execs :: s.execs[e].job in s.jobs && (s.execs[e].phase == Claiming ==> !s.execs[e].began))
    && UniqueKeys(s)
    && (forall id :: ClaimOrder(s, id))
    && (forall id | id in s.jobs && s.jobs[id].jobType == ConversionType :: !IsEpisodeKey(s.jobs[id].key))
  }

  ghost predicate ClaimOrder(s: State, id: nat) {
    && ResetBetween(s.history, ClaimEvent(id))
    && (id in s.jobs && s.jobs[id].status == Queued ==> ResetSince(s.history, ClaimEvent(id)))
  }

  // Executions are added by claims and begin by handler starts.
  lemma StepExecs(s: State, a: Action, id: nat)
    requires Enabled(s, a)
    requires forall e | e in s.execs && s.execs[e].phase == Claiming :: !s.execs[e].began
    ensures
      var s' := Apply(s, a);
      && |ExecsOf(s'.execs, id)| == |ExecsOf(s.execs, id)| + (if a.Deliver? && a.id == id && s' != s then 1 else 0)
      && |BegunOf(s'.execs, id)| == |BegunOf(s.execs, id)| + (if a.Begin? && s.execs[a.e].job == id then 1 else 0)
  {
    hide ExecsOf, BegunOf, NewJob, Claimed, Ended, Restarted, Stale, Deduplicated;
    var s' := Apply(s, a);
    match a
    case Deliver(e, _) => if s' != s { ExecUpdated(s.execs, e, s'.execs[e], id); }
    case Begin(e) => ExecUpdated(s.execs, e, s'.execs[e], id);
    case End(e, _) => ExecUpdated(s.execs, e, s'.execs[e], id);
    case Die(e) => ExecUpdated(s.execs, e, s'.execs[e], id);
    case _ =>
  }

  lemma ExecUpdated(execs: map<nat, Exec>, e: nat, x: Exec, id: nat)
    requires e in execs ==> execs[e].job == x.job && (execs[e].began ==> x.began)
    ensures |ExecsOf(execs[e := x], id)| == |ExecsOf(execs, id)| + (if x.job == id && e !in execs then 1 else 0)
    ensures |BegunOf(execs[e := x], id)| == |BegunOf(execs, id)| +
      (if x.job == id && x.began && (e !in execs || !execs[e].began) then 1 else 0)
  {
    ExecsUpdated(execs, e, x, id);
    BegunUpdated(execs, e, x, id);
    hide ExecsOf, BegunOf;
    OneMore(ExecsOf(execs, id), e);
    OneMore(BegunOf(execs, id), e);
  }

  lemma ExecsUpdated(execs: map<nat, Exec>, e: nat, x: Exec, id: nat)
    requires e in execs ==> execs[e].job == x.job
    ensures ExecsOf(execs[e := x], id) == ExecsOf(execs, id) + if x.job == id then {e} else {}
    ensures e in ExecsOf(execs, id) <==> e in execs && execs[e].job == id
  {
    hide BegunOf;
  }

  lemma BegunUpdated(execs: map<nat, Exec>, e: nat, x: Exec, id: nat)
    requires e in execs ==> execs[e].job == x.job && (execs[e].began ==> x.began)
    ensures BegunOf(execs[e := x], id) == BegunOf(execs, id) + if x.job == id && x.began then {e} else {}
    ensures e in BegunOf(execs, id) <==> e in execs && execs[e].job == id && execs[e].began
  {
    hide ExecsOf;
  }

  lemma StepHistory(s: State, a: Action, e: Event)
    requires Enabled(s, a)
    ensures
      var s' := Apply(s, a);
      && Count(s'.history, e) == Count(s.history, e) +
           (if s'.history != s.history && s'.history[|s'.history| - 1] == e then 1 else 0)
      && (s'.history == s.history || s'.history[..|s.history|] == s.history)
      && (s'.history != s.history <==> (a.Begin? || ((a.Deliver? || a.Reset?) && s' != s)))
      && (s'.history != s.history ==> s'.history[|s'.history| - 1] == match a
            case Begin(x) => StartEvent(s.execs[x].job)
            case Deliver(_, id) => ClaimEvent(id)
            case _ => ResetEvent(a.id))
  {
    hide Count;
    var s' := Apply(s, a);
    if s'.history != s.history {
      var x := s'.history[|s.history|];
      assert s'.history == s.history + [x];
      CountAppend(s.history, e, x);
    }
  }

  // One step keeps the counts of one job.
  lemma StepKeepsJobInv(s: State, a: Action, id: nat)
    requires Enabled(s, a) && JobInv(s, id)
    requires forall e | e in s.execs :: s.execs[e].job in s.jobs && (s.execs[e].phase == Claiming ==> !s.execs[e].began)
    ensures JobInv(Apply(s, a), id)
  {
    StepExecs(s, a, id);
    StepHistory(s, a, ClaimEvent(id));
    StepHistory(s, a, StartEvent(id));
    StepHistory(s, a, ResetEvent(id));
    hide Count, ExecsOf, BegunOf, Deduplicated;
  }

  lemma ResetInLonger(h: seq<Event>, e: Event, i: nat, k: nat, x: Event)
    requires k <= |h| && ResetIn(h, e, i, k)
    ensures ResetIn(h + [x], e, i, k) && ResetIn(h + [x], e, i, |h| + 1)
  {
    var m :| i < m < k && h[m] == ResetEvent(e.job);
    assert (h + [x])[m] == h[m];
  }

  lemma AppendKeepsBetween(h: seq<Event>, e: Event, x: Event)
    requires ResetBetween(h, e) && (x == e ==> ResetSince(h, e))
    ensures ResetBetween(h + [x], e)
  {
    hide ResetIn;
    var h' := h + [x];
    forall i, k | 0 <= i < k < |h'| && h'[i] == e && h'[k] == e ensures ResetIn(h', e, i, k) {
      assert h[i] == e && (k < |h| ==> h[k] == e);
      ResetInLonger(h, e, i, k, x);
    }
  }

  lemma AppendKeepsSince(h: seq<Event>, e: Event, x: Event)
    requires x != e && !e.ResetEvent? && (ResetSince(h, e) || x == ResetEvent(e.job))
    ensures ResetSince(h + [x], e)
  {
    var h' := h + [x];
    forall i | 0 <= i < |h'| && h'[i] == e ensures ResetIn(h', e, i, |h'|) {
      assert i < |h| && h[i] == e;
      if x == ResetEvent(e.job) {
        assert h'[|h|] == x;
      } else {
        hide ResetIn;
        ResetInLonger(h, e, i, |h|, x);
      }
    }
  }

  // The event a step records, if any.
  function EventOf(s: State, a: Action): Option<Event>
    requires Enabled(s, a)
  {
    match a
    case Begin(e) => Some(StartEvent(s.execs[e].job))
    case Deliver(_, id) => if id in s.jobs && s.jobs[id].status == Queued then Some(ClaimEvent(id)) else None
    case Reset(id, _) => if Resets(s, a) then Some(ResetEvent(id)) else None
    case _ => None
  }

  lemma HistoryGrows(s: State, a: Action)
    requires Enabled(s, a)
    ensures Apply(s, a).history == match EventOf(s, a) case Some(x) => s.history + [x] case None => s.history
  {}

  lemma StepKeepsClaimOrder(s: State, a: Action, id: nat)
    requires Enabled(s, a) && ClaimOrder(s, id)
    requires id !in s.jobs ==> ClaimEvent(id) !in s.history
    ensures ClaimOrder(Apply(s, a), id)
  {
    HistoryGrows(s, a);
    var e := EventOf(s, a);
    if e.Some? {
      AppendKeepsBetween(s.history, ClaimEvent(id), e.value);
      if e.value != ClaimEvent(id) && (ResetSince(s.history, ClaimEvent(id)) || e.value == ResetEvent(id)) {
        AppendKeepsSince(s.history, ClaimEvent(id), e.value);
      }
    }
    hide ResetSince, ResetBetween, Stale;
    assert id !in s.jobs ==> ResetSince(s.history, ClaimEvent(id)) by { NoEventNoOrder(s.history, ClaimEvent(id)); }
  }

  lemma NoEventNoOrder(history: seq<Event>, e: Event)
    ensures e !in history ==> ResetSince(history, e) && ResetBetween(history, e)
  {}

  lemma {:induction false} CountZero(history: seq<Event>, e: Event)
    requires Count(history, e) == 0
    ensures e !in history
  {
    if history != [] {
      CountZero(history[..|history| - 1], e);
      assert history == history[..|history| - 1] + [history[|history| - 1]];
    }
  }

  lemma StepKeepsInv(s: State, a: Action)
    requires Inv(s) && Enabled(s, a)
    ensures Inv(Apply(s, a))
  {
    forall id ensures JobInv(Apply(s, a), id) { StepKeepsJobInv(s, a, id); }
    forall id | id !in s.jobs ensures ClaimEvent(id) !in s.history {
      assert JobInv(s, id);
      CountZero(s.history, ClaimEvent(id));
    }
    forall id ensures ClaimOrder(Apply(s, a), id) {
      assert ClaimOrder(s, id);
      StepKeepsClaimOrder(s, a, id);
    }
    hide JobInv, ClaimOrder;
  }

  lemma {:induction false} RunKeepsInv(s: State, actions: seq<Action>)
    requires Inv(s) && Runs(s, actions)
    ensures Inv(After(s, actions))
    decreases |actions|
  {
    if actions != [] {
      StepKeepsInv(s, actions[0]);
      RunKeepsInv(Apply(s, actions[0]), actions[1..]);
    }
  }

  // Main result: however many duplicate messages arrive, a job is claimed, and its handler started,
  // at most once more than it was reset, with a reset between any two claims.
  lemma HandlerStartsAreBounded(now: real, actions: seq<Action>, id: nat)
    requires Runs(Initial(now), actions)
    ensures
      var s := After(Initial(now), actions);
      && Count(s.history, StartEvent(id)) <= Count(s.history, ClaimEvent(id)) <= 1 + Count(s.history, ResetEvent(id))
      && ResetBetween(s.history, ClaimEvent(id))
  {
    var s := After(Initial(now), actions);
    RunKeepsInv(Initial(now), actions);
    assert JobInv(s, id) && ClaimOrder(s, id);
    assert BegunOf(s.execs, id) <= ExecsOf(s.execs, id);
    SubsetIsSmaller(BegunOf(s.execs, id), ExecsOf(s.execs, id));
  }

  // A job without an episode key is never reset, so it has at most one execution ever.
  lemma OtherJobsRunOnce(now: real, actions: seq<Action>, e: nat, f: nat)
    requires Runs(Initial(now), actions)
    requires
      var s := After(Initial(now), actions);
      && e in s.execs && f in s.execs && s.execs[e].job == s.execs[f].job
      && s.execs[e].job in s.jobs
      && var key := s.jobs[s.execs[e].job].key; !(key.Some? && "download_episode:" <= key.value)
    ensures e == f
  {
    var s := After(Initial(now), actions);
    RunKeepsInv(Initial(now), actions);
    var id := s.execs[e].job;
    assert JobInv(s, id);
    SubsetIsSmaller({e, f}, ExecsOf(s.execs, id));
  }

  // In particular a conversion job.
  lemma ConversionsRunOnce(now: real, actions: seq<Action>, e: nat, f: nat)
    requires Runs(Initial(now), actions)
    requires
      var s := After(Initial(now), actions);
      && e in s.execs && f in s.execs && s.execs[e].job == s.execs[f].job
      && s.execs[e].job in s.jobs && s.jobs[s.execs[e].job].jobType == ConversionType
    ensures e == f
  {
    var s := After(Initial(now), actions);
    RunKeepsInv(Initial(now), actions);
    OtherJobsRunOnce(now, actions, e, f);
  }

  // ---------------------------------------------------------------------------
  // What the transitions do to a job.

  // A job keeps its type, its key and its creation time for good, and its times never run ahead of the clock.
  lemma {:induction false} IdentityStays(s: State, actions: seq<Action>, id: nat)
    requires Runs(s, actions) && id in s.jobs
    ensures
      var s' := After(s, actions);
      && s.now <= s'.now && id in s'.jobs
      && s'.jobs[id].jobType == s.jobs[id].jobType && s'.jobs[id].key == s.jobs[id].key
      && s'.jobs[id].createdAt == s.jobs[id].createdAt
      && (s.jobs[id].updatedAt <= s.now ==> s.jobs[id].updatedAt <= s'.jobs[id].updatedAt <= s'.now)
    decreases |actions|
  {
    if actions != [] {
      IdentityStays(Apply(s, actions[0]), actions[1..], id);
    }
  }

  // A delivery handled to its end is the claim, the handler and the outcome of the shared system.
  lemma DeliveryIsARun(s: State, e: nat, id: nat, failure: Option<string>)
    requires id in s.jobs && s.jobs[id].status == Queued && e !in s.execs
    ensures Runs(s, [Deliver(e, id), Begin(e), End(e, failure)])
    ensures
      var j, s' := s.jobs[id], After(s, [Deliver(e, id), Begin(e), End(e, failure)]);
      s'.jobs == s.jobs[id := Job(j.jobType, j.key, if failure.Some? then Failed else Succeeded, failure,
                                  j.createdAt, s.now, Some(s.now), Some(s.now))]
  {
    var a, b, c := Deliver(e, id), Begin(e), End(e, failure);
    var s1 := Apply(s, a);
    var s2 := Apply(s1, b);
    var s3 := Apply(s2, c);
    assert [a, b, c][1..] == [b, c] && [b, c][1..] == [c] && [c][1..] == [];
    assert Runs(s3, []) && After(s3, []) == s3;
    assert Runs(s2, [c]) && After(s2, [c]) == s3;
    assert Runs(s1, [b, c]) && After(s1, [b, c]) == s3;
  }

  // A regeneration request fails the active transcript job it replaces, and only that one.
  lemma SupersededJobHasFailed(s: State, id: nat)
    requires Enabled(s, Supersede(id))
    ensures
      var j, s' := s.jobs[id], Apply(s, Supersede(id));
      && j.jobType == "generate_transcript" && (j.status == Queued || j.status == Running)
      && s'.jobs == s.jobs[id := Job(j.jobType, j.key, Failed, Some(SupersededMessage), j.createdAt, s.now,
                                     j.startedAt, Some(s.now))]
  {}

  // A reset needs a timeout, a RUNNING job and that long since it began; the job is then as good as new but for its
  // message. Otherwise nothing changes.
  lemma ResetsIff(s: State, id: nat, timeout: nat)
    requires Enabled(s, Reset(id, timeout))
    ensures
      var j, s' := s.jobs[id], Apply(s, Reset(id, timeout));
      var began := match j.startedAt case Some(t) => t case None => j.updatedAt;
      && (Resets(s, Reset(id, timeout)) <==> timeout > 0 && j.status == Running && began + timeout as real <= s.now)
      && (!Resets(s, Reset(id, timeout)) ==> s' == s)
      && (Resets(s, Reset(id, timeout)) ==>
            s'.jobs == s.jobs[id := Job(j.jobType, j.key, Queued, Some(StaleMessage), j.createdAt, s.now, None, None)])
  {}

  // If the job is running, it was claimed at `t` or later.
  predicate ClaimedSince(s: State, id: nat, t: real) {
    && t <= s.now && id in s.jobs
    && (s.jobs[id].status == Running ==> s.jobs[id].startedAt.Some? && s.jobs[id].startedAt.value >= t)
  }

  lemma {:induction false} StaysClaimedSince(s: State, actions: seq<Action>, id: nat, t: real)
    requires ClaimedSince(s, id, t) && Runs(s, actions)
    ensures ClaimedSince(After(s, actions), id, t)
    decreases |actions|
  {
    if actions != [] {
      assert ClaimedSince(Apply(s, actions[0]), id, t);
      hide Apply, Enabled, ClaimedSince;
      StaysClaimedSince(Apply(s, actions[0]), actions[1..], id, t);
    }
  }

  // Main result: whatever happens after a claim, no reset touches the job before the timeout has passed since.
  lemma ResetSparesFreshClaims(s: State, e: nat, actions: seq<Action>, id: nat, timeout: nat)
    requires id in s.jobs && s.jobs[id].status == Queued && e !in s.execs
    requires Runs(Apply(s, Deliver(e, id)), actions)
    requires
      var end := After(Apply(s, Deliver(e, id)), actions);
      Enabled(end, Reset(id, timeout)) && end.now < s.now + timeout as real
    ensures
      var end := After(Apply(s, Deliver(e, id)), actions);
      Apply(end, Reset(id, timeout)) == end
  {
    StaysClaimedSince(Apply(s, Deliver(e, id)), actions, id, s.now);
    ResetsIff(After(Apply(s, Deliver(e, id)), actions), id, timeout);
    hide Runs, After, Stale;
  }

  // A job that has ended never becomes active again and is never claimed again.
  lemma {:induction false} EndedStaysEnded(s: State, actions: seq<Action>, id: nat)
    requires Runs(s, actions) && id in s.jobs && !Active(s.jobs[id])
    ensures id in After(s, actions).jobs && !Active(After(s, actions).jobs[id])
    ensures Count(After(s, actions).history, ClaimEvent(id)) == Count(s.history, ClaimEvent(id))
    decreases |actions|
  {
    if actions != [] {
      var s' := Apply(s, actions[0]);
      StepHistory(s, actions[0], ClaimEvent(id));
      assert id in s'.jobs && !Active(s'.jobs[id]);
      EndedStaysEnded(s', actions[1..], id);
    }
  }

  // Main result: at most one job per non-empty idempotency key is ever QUEUED or RUNNING.
  lemma AtMostOneActivePerKey(now: real, actions: seq<Action>, i: nat, j: nat, key: string)
    requires Runs(Initial(now), actions) && key != ""
    requires
      var s := After(Initial(now), actions);
      i in s.jobs && j in s.jobs && ActiveFor(s.jobs[i], key) && ActiveFor(s.jobs[j], key)
    ensures i == j
  {
    RunKeepsInv(Initial(now), actions);
  }

  // ---------------------------------------------------------------------------
  // Handler starts. A worker may stall between its claim and its handler, waiting for a CPU slot for instance.

  function ClaimingOf(execs: map<nat, Exec>, id: nat): set<nat> {
    set e | e in execs && execs[e].job == id && execs[e].phase == Claiming
  }

  // How many handler starts the job has coming without a reset: stalled executions, and a claim to be made.
  function Pending(s: State, id: nat): nat {
    |ClaimingOf(s.execs, id)| + if id in s.jobs && s.jobs[id].status == Queued then 1 else 0
  }

  lemma ClaimingUpdated(execs: map<nat, Exec>, e: nat, x: Exec, id: nat)
    ensures |ClaimingOf(execs[e := x], id)| + (if e in ClaimingOf(execs, id) then 1 else 0)
         == |ClaimingOf(execs, id)| + (if x.job == id && x.phase == Claiming then 1 else 0)
  {
    ClaimingSplits(execs, e, x, id);
    var others := ClaimingOf(execs, id) - {e};
    hide ClaimingOf;
    OneMore(others, e);
  }

  lemma ClaimingSplits(execs: map<nat, Exec>, e: nat, x: Exec, id: nat)
    ensures
      var others := ClaimingOf(execs, id) - {e};
      && ClaimingOf(execs[e := x], id) == others + (if x.job == id && x.phase == Claiming then {e} else {})
      && ClaimingOf(execs, id) == others + (if e in ClaimingOf(execs, id) then {e} else {})
  {}

  // A start uses up one pending start; only a reset, or the creation of the job, adds one.
  lemma StepPending(s: State, a: Action, id: nat)
    requires Enabled(s, a)
    ensures Pending(Apply(s, a), id) + (if EventOf(s, a) == Some(StartEvent(id)) then 1 else 0)
         <= Pending(s, id) + (if EventOf(s, a) == Some(ResetEvent(id)) || id !in s.jobs then 1 else 0)
  {
    var s' := Apply(s, a);
    assert EventOf(s, a) == Some(StartEvent(id)) ==> a.e in ClaimingOf(s.execs, id);
    match a
    case Deliver(e, _) =>
      assert e !in ClaimingOf(s.execs, id);
      if s' != s { ClaimingUpdated(s.execs, e, s'.execs[e], id); }
    case Begin(e) => ClaimingUpdated(s.execs, e, s'.execs[e], id);
    case End(e, _) => ClaimingUpdated(s.execs, e, s'.execs[e], id);
    case Die(e) => ClaimingUpdated(s.execs, e, s'.execs[e], id);
    case _ =>
    hide ClaimingOf, Stale, Deduplicated;
  }

  lemma {:induction false} RunPending(s: State, actions: seq<Action>, id: nat)
    requires Runs(s, actions) && id in s.jobs
    ensures
      var h, h' := s.history, After(s, actions).history;
      Count(h', StartEvent(id)) + Pending(After(s, actions), id) + Count(h, ResetEvent(id))
      <= Count(h, StartEvent(id)) + Pending(s, id) + Count(h', ResetEvent(id))
    decreases |actions|
  {
    hide Pending, Count;
    if actions != [] {
      var s' := Apply(s, actions[0]);
      StepPending(s, actions[0], id);
      HistoryGrows(s, actions[0]);
      if EventOf(s, actions[0]).Some? {
        CountAppend(s.history, StartEvent(id), EventOf(s, actions[0]).value);
        CountAppend(s.history, ResetEvent(id), EventOf(s, actions[0]).value);
      }
      RunPending(s', actions[1..], id);
    }
  }

  // Two starts of the job, with no reset from here on.
  ghost predicate StartsTwice(s: State, actions: seq<Action>, id: nat) {
    && Runs(s, actions)
    && Count(After(s, actions).history, ResetEvent(id)) == Count(s.history, ResetEvent(id))
    && Count(After(s, actions).history, StartEvent(id)) >= Count(s.history, StartEvent(id)) + 2
  }

  lemma Start(s: State, e: nat, rest: seq<Action>, end: State) returns (actions: seq<Action>)
    requires Enabled(s, Begin(e)) && Runs(Apply(s, Begin(e)), rest) && After(Apply(s, Begin(e)), rest) == end
    ensures Runs(s, actions) && After(s, actions) == end
    ensures Count(Apply(s, Begin(e)).history, StartEvent(s.execs[e].job)) ==
        Count(s.history, StartEvent(s.execs[e].job)) + 1
    ensures Count(Apply(s, Begin(e)).history, ResetEvent(s.execs[e].job)) ==
        Count(s.history, ResetEvent(s.execs[e].job))
  {
    CountAppend(s.history, StartEvent(s.execs[e].job), StartEvent(s.execs[e].job));
    CountAppend(s.history, ResetEvent(s.execs[e].job), StartEvent(s.execs[e].job));
    hide Count;
    actions := Prepend(s, Begin(e), rest, end);
  }

  lemma StartBoth(s: State, e: nat, f: nat, id: nat) returns (actions: seq<Action>)
    requires e != f && e in ClaimingOf(s.execs, id) && f in ClaimingOf(s.execs, id)
    ensures StartsTwice(s, actions, id)
  {
    var s1 := Apply(s, Begin(e));
    var s2 := Apply(s1, Begin(f));
    assert Runs(s2, []) && After(s2, []) == s2;
    actions := Start(s1, f, [], s2);
    actions := Start(s, e, actions, s2);
  }

  lemma ClaimAndStartBoth(s: State, e: nat, id: nat) returns (actions: seq<Action>)
    requires e in ClaimingOf(s.execs, id) && id in s.jobs && s.jobs[id].status == Queued
    ensures StartsTwice(s, actions, id)
  {
    var f := FreshNumber(s.execs.Keys);
    var s1 := Apply(s, Deliver(f, id));
    actions := StartBoth(s1, e, f, id);
    CountAppend(s.history, StartEvent(id), ClaimEvent(id));
    CountAppend(s.history, ResetEvent(id), ClaimEvent(id));
    actions := Prepend(s, Deliver(f, id), actions, After(s1, actions));
  }

  // Exactly then can a job's handler be started twice without a reset.
  lemma TwoStartsIff(s: State, id: nat)
    requires id in s.jobs
    ensures (exists actions :: StartsTwice(s, actions, id)) <==> Pending(s, id) >= 2
  {
    if actions :| StartsTwice(s, actions, id) {
      RunPending(s, actions, id);
    }
    if Pending(s, id) >= 2 {
      var actions;
      if s.jobs[id].status == Queued {
        assert ClaimingOf(s.execs, id) != {};
        var e :| e in ClaimingOf(s.execs, id);
        actions := ClaimAndStartBoth(s, e, id);
      } else {
        var e, f := TwoOf(ClaimingOf(s.execs, id));
        actions := StartBoth(s, e, f, id);
      }
    }
  }

  // So a reset separates the later starts exactly when it finds no execution of the job stalled.
  lemma ResetSeparatesStartsIff(s: State, id: nat, timeout: nat)
    requires Enabled(s, Reset(id, timeout)) && Resets(s, Reset(id, timeout))
    ensures
      (exists actions :: StartsTwice(Apply(s, Reset(id, timeout)), actions, id)) <==> ClaimingOf(s.execs, id) != {}
  {
    var s' := Apply(s, Reset(id, timeout));
    assert s'.execs == s.execs;
    TwoStartsIff(s', id);
  }

  ghost predicate NoneStalled(s: State, actions: seq<Action>)
    requires Runs(s, actions)
    decreases |actions|
  {
    actions != [] ==>
      && (Resets(s, actions[0]) ==> ClaimingOf(s.execs, actions[0].id) == {})
      && NoneStalled(Apply(s, actions[0]), actions[1..])
  }

  ghost predicate StartOrder(s: State, id: nat) {
    && ResetBetween(s.history, StartEvent(id))
    && Pending(s, id) <= 1
    && (Pending(s, id) == 1 ==> ResetSince(s.history, StartEvent(id)))
  }

  lemma UnknownJobIsIdle(s: State, id: nat)
    requires Inv(s) && id !in s.jobs
    ensures Pending(s, id) == 0 && StartEvent(id) !in s.history
  {
    assert JobInv(s, id);
    SubsetIsSmaller(BegunOf(s.execs, id), ExecsOf(s.execs, id));
    CountZero(s.history, StartEvent(id));
    assert ClaimingOf(s.execs, id) == {};
  }

  lemma StepKeepsStartOrder(s: State, a: Action, id: nat)
    requires Inv(s) && StartOrder(s, id) && Enabled(s, a)
    requires Resets(s, a) ==> ClaimingOf(s.execs, a.id) == {}
    ensures StartOrder(Apply(s, a), id)
  {
    if id !in s.jobs {
      UnknownJobIsIdle(s, id);
      NoEventNoOrder(s.history, StartEvent(id));
    }
    StepPending(s, a, id);
    HistoryGrows(s, a);
    var e := EventOf(s, a);
    assert e == Some(StartEvent(id)) ==> Pending(s, id) == 1 by { StartIsPending(s, a, id); }
    assert e == Some(ResetEvent(id)) ==> Pending(s, id) == 0 && id in s.jobs;
    if e.Some? {
      AppendKeepsBetween(s.history, StartEvent(id), e.value);
      if e.value != StartEvent(id) && (ResetSince(s.history, StartEvent(id)) || e.value == ResetEvent(id)) {
        AppendKeepsSince(s.history, StartEvent(id), e.value);
      }
    }
    hide Inv, Apply, Pending, ResetSince, ResetBetween, EventOf;
  }

  lemma StartIsPending(s: State, a: Action, id: nat)
    requires Enabled(s, a) && Pending(s, id) <= 1
    ensures EventOf(s, a) == Some(StartEvent(id)) ==> Pending(s, id) == 1
  {
    if EventOf(s, a) == Some(StartEvent(id)) {
      assert a.e in ClaimingOf(s.execs, id);
    }
  }

  lemma {:induction false} RunKeepsStartOrder(s: State, actions: seq<Action>, id: nat)
    requires Inv(s) && StartOrder(s, id) && Runs(s, actions) && NoneStalled(s, actions)
    ensures StartOrder(After(s, actions), id)
    decreases |actions|
  {
    hide StartOrder, Inv;
    if actions != [] {
      StepKeepsInv(s, actions[0]);
      StepKeepsStartOrder(s, actions[0], id);
      RunKeepsStartOrder(Apply(s, actions[0]), actions[1..], id);
    }
  }

  // Main result: when no reset finds an execution stalled before its handler, there is a reset between any two
  // handler starts of a job.
  lemma ResetBetweenStarts(now: real, actions: seq<Action>, id: nat)
    requires Runs(Initial(now), actions) && NoneStalled(Initial(now), actions)
    ensures ResetBetween(After(Initial(now), actions).history, StartEvent(id))
  {
    RunKeepsStartOrder(Initial(now), actions, id);
  }

  // A run that breaks it: the worker stalls past the timeout and starts next to the execution that re-claimed the job.
  lemma TwoStartsAfterOneReset() returns (actions: seq<Action>)
    ensures
      Runs(Initial(0.0), actions) &&
      After(Initial(0.0), actions).history
        == [ClaimEvent(0), ResetEvent(0), ClaimEvent(0), StartEvent(0), StartEvent(0)]
  {
    var s0 := Initial(0.0);
    var a0, a1, a2 := Create(0, "download_episode", Some("download_episode:")), Deliver(0, 0), Tick(21600.0);
    var a3, a4, a5, a6 := Reset(0, 21600), Deliver(1, 0), Begin(0), Begin(1);
    var s1 := Apply(s0, a0);
    var s2 := Apply(s1, a1);
    var s3 := Apply(s2, a2);
    var s4 := Apply(s3, a3);
    var s5 := Apply(s4, a4);
    var s6 := Apply(s5, a5);
    var s7 := Apply(s6, a6);
    actions := [];
    assert s7.history == [ClaimEvent(0), ResetEvent(0), ClaimEvent(0), StartEvent(0), StartEvent(0)];
    assert Runs(s7, []) && After(s7, []) == s7;
    hide Runs, After;
    actions := Prepend(s6, a6, actions, s7);
    actions := Prepend(s5, a5, actions, s7);
    actions := Prepend(s4, a4, actions, s7);
    actions := Prepend(s3, a3, actions, s7);
    actions := Prepend(s2, a2, actions, s7);
    actions := Prepend(s1, a1, actions, s7);
    actions := Prepend(s0, a0, actions, s7);
  }

  lemma Prepend(s: State, a: Action, rest: seq<Action>, end: State) returns (actions: seq<Action>)
    requires Enabled(s, a) && Runs(Apply(s, a), rest) && After(Apply(s, a), rest) == end
    ensures Runs(s, actions) && After(s, actions) == end
  {
    actions := [a] + rest;
    assert actions[1..] == rest;
  }

  // ---------------------------------------------------------------------------
  // The single-step premise for `create_job`: its look-up and its insert are two statements.

  // An insert keeps keys unique exactly when no active job has the key at the moment of the insert.
  lemma InsertKeepsUniqueIff(s: State, id: nat, jobType: string, key: string)
    requires UniqueKeys(s) && id !in s.jobs && key != ""
    ensures
      UniqueKeys(s.(jobs := s.jobs[id := NewJob(jobType, Some(key), s.now)]))
      <==> forall i | i in s.jobs :: !ActiveFor(s.jobs[i], key)
  {
    var s' := s.(jobs := s.jobs[id := NewJob(jobType, Some(key), s.now)]);
    if i :| i in s.jobs && ActiveFor(s.jobs[i], key) {
      assert ActiveFor(s'.jobs[i], key) && ActiveFor(s'.jobs[id], key);
    }
  }

  // Two creators that both looked before either inserted leave two active jobs under one key.
  lemma DuplicateInsertBreaksUniqueness()
    ensures
      var s := State(0.0, map[0 := NewJob("download_single", Some("k"), 0.0)], map[], []);
      UniqueKeys(s) && !UniqueKeys(s.(jobs := s.jobs[1 := NewJob("download_single", Some("k"), 0.0)]))
  {
    var s := State(0.0, map[0 := NewJob("download_single", Some("k"), 0.0)], map[], []);
    assert ActiveFor(s.jobs[0], "k");
    InsertKeepsUniqueIff(s, 1, "download_single", "k");
  }
}

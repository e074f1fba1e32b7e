/** Any number of workers asking for CPU slots through `GlobalSlotScheduler`, as a step relation.
    One step is one transaction of the backend or one local move of a thread; the clock may advance
    between any two steps, and a worker may crash anywhere. A worker is named by its lease id, which
    is a fresh UUID for every request. */
module SlotProtocol {
  import opened Sets
  import opened SlotStore

  datatype Pc =
    | Polling     // about to renew its wait lease
    | Deciding    // about to call acquire
    | Sleeping    // refused, waiting for the next poll
    | Granted     // acquire succeeded, the heartbeat thread is not running yet
    | Executing   // the handler runs
    | Stopping    // the handler is over and the stop event is set; the lease is not released yet
    | Finished    // released
    | Failing     // an exception left the polling loop
    | Abandoned   // wait_finished was called after such an exception
    | Crashed

  datatype Beater = Off | Idle | Armed  // heartbeat thread; Armed: it saw no stop and will call heartbeat

  // `renewedAt` is when the lease was last granted or renewed in time: see `Renewed`.
  datatype Worker = Worker(jobType: string, pc: Pc, beater: Beater, stop: bool, renewedAt: real)

  datatype Config = Config(capacity: int, lease: real, isFfmpeg: Recogniser)

  datatype State = State(now: real, store: Store, workers: map<string, Worker>)

  datatype Action =
    | Start(w: string, jobType: string, t0: real, t1: real)
    | PollBeat(w: string, t0: real, t1: real)
    | Decide(w: string, t0: real, t1: real)
    | Wake(w: string)
    | Enter(w: string)
    | Fail(w: string)
    | Abandon(w: string, t0: real, t1: real)
    | Leave(w: string)
    | Free(w: string, t0: real, t1: real)
    | Arm(w: string)
    | HeartBeat(w: string, t0: real, t1: real)
    | Crash(w: string)
    | Tick(t1: real)

  predicate Waits(pc: Pc) { pc.Polling? || pc.Deciding? || pc.Sleeping? }

  predicate Holds(pc: Pc) { pc.Granted? || pc.Executing? || pc.Stopping? }

  function Deadline(c: Config, x: Worker): real { x.renewedAt + c.lease }

  // A renewal made before the deadline moves it; a late one does not. Only the worker's own times are used.
  function Renewed(c: Config, x: Worker, t0: real, t1: real): Worker {
    if t0 < Deadline(c, x) then x.(renewedAt := t1) else x
  }

  // The backend call an action makes, if any.
  function CallOf(c: Config, s: State, a: Action): Call
    requires Transacts(a) && (a.Start? || a.w in s.workers)
  {
    var op := match a
      case Start(w, jobType, _, _) => WaitStart(jobType, w, c.lease)
      case PollBeat(w, _, _) => WaitBeat(w, c.lease)
      case Decide(w, _, _) => Acquire(s.workers[w].jobType, w, c.lease)
      case Abandon(w, _, _) => WaitFinish(w)
      case Free(w, _, _) => Release(w)
      case _ => Beat(a.w, c.lease);
    Call(op, a.t0, a.t1)
  }

  predicate Transacts(a: Action) {
    a.Start? || a.PollBeat? || a.Decide? || a.Abandon? || a.Free? || a.HeartBeat?
  }

  predicate Enabled(s: State, a: Action) {
    && (Transacts(a) ==> s.now <= a.t0 <= a.t1)
    && match a
       case Start(w, _, _, _) => w !in s.workers
       case PollBeat(w, _, _) => w in s.workers && s.workers[w].pc == Polling
       case Decide(w, _, _) => w in s.workers && s.workers[w].pc == Deciding
       case Wake(w) => w in s.workers && s.workers[w].pc == Sleeping
       case Enter(w) => w in s.workers && s.workers[w].pc == Granted
       case Fail(w) => w in s.workers && (Waits(s.workers[w].pc) || s.workers[w].pc == Granted)
       case Abandon(w, _, _) => w in s.workers && s.workers[w].pc == Failing
       case Leave(w) => w in s.workers && s.workers[w].pc == Executing
       case Free(w, _, _) => w in s.workers && s.workers[w].pc == Stopping
       case Arm(w) => w in s.workers && s.workers[w].beater == Idle && !s.workers[w].stop
       case HeartBeat(w, _, _) => w in s.workers && s.workers[w].beater == Armed
       case Crash(w) => w in s.workers
       case Tick(t1) => s.now <= t1
  }

  // What the acting worker becomes; `ok` is the decision of its acquire call.
  function Moved(c: Config, s: State, a: Action, ok: bool): Worker
    requires Enabled(s, a) && !a.Tick? && !a.Start?
  {
    var x := s.workers[a.w];
    match a
    case PollBeat(_, t0, t1) => Renewed(c, x, t0, t1).(pc := Deciding)
    case Decide(_, t0, t1) => if ok then x.(pc := Granted, renewedAt := t1) else x.(pc := Sleeping)
    case Wake(_) => x.(pc := Polling)
    case Enter(_) => x.(pc := Executing, beater := Idle)
    case Fail(_) => x.(pc := Failing)
    case Abandon(_, _, _) => x.(pc := Abandoned)
    case Leave(_) => x.(pc := Stopping, stop := true)
    case Free(_, _, _) => x.(pc := Finished)
    case Arm(_) => x.(beater := Armed)
    case HeartBeat(_, t0, t1) => Renewed(c, x, t0, t1).(beater := Idle)
    case Crash(_) => x.(pc := Crashed, beater := Off)
  }

  function Apply(c: Config, s: State, a: Action): State
    requires Enabled(s, a)
  {
    if a.Tick? then s.(now := a.t1)
    else if !Transacts(a) then s.(workers := s.workers[a.w := Moved(c, s, a, false)])
    else
      var (store, out) := Step(c.isFfmpeg, c.capacity, s.store, CallOf(c, s, a));
      var x := if a.Start? then Worker(a.jobType, Polling, Off, false, a.t1) else Moved(c, s, a, out.flag);
      State(a.t1, store, s.workers[a.w := x])
  }

  predicate Runs(c: Config, s: State, actions: seq<Action>)
    decreases |actions|
  {
    actions == [] || (Enabled(s, actions[0]) && Runs(c, Apply(c, s, actions[0]), actions[1..]))
  }

  function After(c: Config, s: State, actions: seq<Action>): State
    requires Runs(c, s, actions)
    decreases |actions|
  {
    if actions == [] then s else After(c, Apply(c, s, actions[0]), actions[1..])
  }

  function Initial(now: real): State { State(now, map[], map[]) }

  // ---------------------------------------------------------------------------
  // The inductive invariant.

  predicate InStore(c: Config, s: State, w: string, status: Status)
    requires w in s.workers
  {
    && (s.now < Deadline(c, s.workers[w]) ==> w in s.store)
    && (w in s.store ==> s.store[w] == Request(s.workers[w].jobType, status, Deadline(c, s.workers[w])))
  }

  predicate WorkerInv(c: Config, s: State, w: string)
    requires w in s.workers
  {
    var x := s.workers[w];
    && (Waits(x.pc) ==> InStore(c, s, w, Waiting) && x.beater == Off)
    && (Holds(x.pc) ==> InStore(c, s, w, Running))
    && (x.pc.Granted? ==> x.beater == Off)
    && (x.pc.Finished? ==> w !in s.store)
    && (x.pc.Stopping? || x.pc.Finished? ==> x.stop)
    && (x.pc.Executing? ==> x.beater != Off)
    && (Waits(x.pc) || x.pc.Granted? || x.pc.Executing? ==> !x.stop)
    && (x.pc.Failing? || x.pc.Abandoned? || x.pc.Crashed? ==>
          x.beater == Off && (w in s.store ==> s.store[w].expiresAt == Deadline(c, x)))
    && (x.pc.Abandoned? ==> (w in s.store ==> s.store[w].status == Running))
  }

  function Bound(c: Config): nat { if c.capacity < 0 then 0 else c.capacity }

  ghost predicate Inv(c: Config, s: State) {
    && |RunningIds(s.store)| <= Bound(c)
    && s.store.Keys <= s.workers.Keys
    && forall w | w in s.workers :: WorkerInv(c, s, w)
  }

  // A call touches the entry of its own id; it can only drop another entry, and only once it expired.
  lemma OthersAreOnlyPurged(c: Config, s: State, a: Action, v: string)
    requires Enabled(s, a) && Transacts(a) && v != a.w
    ensures
      var store := Step(c.isFfmpeg, c.capacity, s.store, CallOf(c, s, a)).0;
      && (v in store <==> v in s.store && s.store[v].expiresAt > a.t0)
      && (v in store ==> store[v] == s.store[v])
  {
    hide AcquireReason, StatsOf;
  }

  lemma OwnEntry(c: Config, s: State, a: Action)
    requires Enabled(s, a) && Transacts(a)
    requires a.Start? || WorkerInv(c, s, a.w)
    requires a.Start? ==> a.w !in s.store
    ensures WorkerInv(c, Apply(c, s, a), a.w)
  {
    hide AcquireReason, StatsOf;
  }

  lemma StepKeepsInv(c: Config, s: State, a: Action)
    requires Inv(c, s) && Enabled(s, a)
    ensures Inv(c, Apply(c, s, a))
  {
    hide Step, WorkerInv;
    var s' := Apply(c, s, a);
    if Transacts(a) {
      StepKeepsCapacity(c.isFfmpeg, c.capacity, s.store, CallOf(c, s, a));
      assert s'.store.Keys <= s'.workers.Keys by {
        forall v | v in s'.store ensures v in s'.workers {
          if v != a.w { OthersAreOnlyPurged(c, s, a, v); }
        }
      }
      OwnEntry(c, s, a);
    }
    forall v | v in s'.workers ensures WorkerInv(c, s', v) {
      if Transacts(a) {
        if v != a.w {
          OthersAreOnlyPurged(c, s, a, v);
          OtherKeepsInv(c, s, s', v);
        }
      } else {
        LocalMove(c, s, a, v);
      }
    }
  }

  lemma OtherKeepsInv(c: Config, s: State, s': State, v: string)
    requires v in s.workers && v in s'.workers && s'.workers[v] == s.workers[v]
    requires s.now <= s'.now && WorkerInv(c, s, v)
    requires v in s'.store ==> v in s.store && s'.store[v] == s.store[v]
    requires v in s.store && v !in s'.store ==> s.store[v].expiresAt <= s'.now
    ensures WorkerInv(c, s', v)
  {}

  lemma LocalMove(c: Config, s: State, a: Action, v: string)
    requires Enabled(s, a) && !Transacts(a)
    requires v in s.workers && WorkerInv(c, s, v)
    ensures v in Apply(c, s, a).workers && WorkerInv(c, Apply(c, s, a), v)
  {}

  // Every reachable state satisfies the invariant.
  lemma {:induction false} RunKeepsInv(c: Config, s: State, actions: seq<Action>)
    requires Inv(c, s) && Runs(c, s, actions)
    ensures Inv(c, After(c, s, actions))
    ensures s.now <= After(c, s, actions).now
    decreases |actions|
  {
    if actions != [] {
      StepKeepsInv(c, s, actions[0]);
      RunKeepsInv(c, Apply(c, s, actions[0]), actions[1..]);
    }
  }

  // ---------------------------------------------------------------------------
  // Main results, for every run of any number of workers.

  function ExecutingIds(s: State): set<string> {
    set w | w in s.workers && s.workers[w].pc == Executing
  }

  // Executing workers whose latest timely heartbeat still covers the present instant.
  function CoveredIds(c: Config, s: State): set<string> {
    set w | w in s.workers && s.workers[w].pc == Executing && s.now < Deadline(c, s.workers[w])
  }

  // RUNNING leases never exceed the capacity, and an executing worker owns a live RUNNING lease
  // exactly as long as its heartbeats landed in time.
  lemma ExecutingIsCoveredIff(c: Config, now: real, actions: seq<Action>, w: string)
    requires Runs(c, Initial(now), actions)
    requires w in ExecutingIds(After(c, Initial(now), actions))
    ensures
      var s := After(c, Initial(now), actions);
      && |RunningIds(s.store)| <= Bound(c)
      && (w in RunningIds(Live(s.store, s.now)) <==> s.now < Deadline(c, s.workers[w]))
  {
    RunKeepsInv(c, Initial(now), actions);
    assert WorkerInv(c, After(c, Initial(now), actions), w);
  }

  // The covered handlers inject into the live RUNNING leases; so if more than `capacity` handlers
  // execute at once, one of them let its lease expire.
  lemma AtMostCapacityExecute(c: Config, now: real, actions: seq<Action>)
    requires Runs(c, Initial(now), actions)
    ensures
      var s := After(c, Initial(now), actions);
      && CoveredIds(c, s) <= RunningIds(Live(s.store, s.now))
      && |CoveredIds(c, s)| <= Bound(c)
      && ((forall w | w in ExecutingIds(s) :: s.now < Deadline(c, s.workers[w])) ==> |ExecutingIds(s)| <= Bound(c))
      && (|ExecutingIds(s)| > Bound(c) ==> exists w :: w in ExecutingIds(s) && Deadline(c, s.workers[w]) <= s.now)
  {
    RunKeepsInv(c, Initial(now), actions);
    var s := After(c, Initial(now), actions);
    forall w | w in CoveredIds(c, s) ensures w in RunningIds(Live(s.store, s.now)) {
      assert WorkerInv(c, s, w);
    }
    SubsetIsSmaller(CoveredIds(c, s), RunningIds(Live(s.store, s.now)));
    SubsetIsSmaller(RunningIds(Live(s.store, s.now)), RunningIds(s.store));
    if forall w | w in ExecutingIds(s) :: s.now < Deadline(c, s.workers[w]) {
      assert ExecutingIds(s) == CoveredIds(c, s);
    }
  }

  // The premise cannot be dropped: with capacity 1, a handler that misses its heartbeats shares the slot.
  lemma LateHeartbeatsOverAdmit(isFfmpeg: Recogniser) returns (actions: seq<Action>)
    ensures
      var c := Config(1, 10.0, isFfmpeg);
      Runs(c, Initial(0.0), actions) && |ExecutingIds(After(c, Initial(0.0), actions))| == 2
  {
    hide Runs, After, Admission, CoveredIds;
    var c := Config(1, 10.0, isFfmpeg);
    var s0 := Initial(0.0);
    var s1 := Admitted(c, s0, "a", 0.0);
    var s2 := Admitted(c, s1, "b", 20.0);
    RunsConcat(c, s0, Admission("a", 0.0), Admission("b", 20.0));
    actions := Admission("a", 0.0) + Admission("b", 20.0);
    assert ExecutingIds(s2) == {"a", "b"};
  }

  function Admission(w: string, t: real): seq<Action> {
    [Start(w, "ffmpeg", t, t), PollBeat(w, t, t), Decide(w, t, t), Enter(w)]
  }

  // On a table holding at most w's own request, FFmpeg work is admitted and renewed at once.
  lemma LoneCall(c: Config, m: Store, t: real, w: string, op: Op)
    requires c.capacity == 1 && c.lease == 10.0
    requires forall v | v in m :: m[v].expiresAt <= t || (v == w && m[w] == Request("ffmpeg", Waiting, t + 10.0))
    requires op == WaitStart("ffmpeg", w, 10.0)
          || (op == WaitBeat(w, 10.0) && w in m) || (op == Acquire("ffmpeg", w, 10.0) && w in m)
    requires !op.WaitStart? ==> m[w].expiresAt > t
    ensures
      var (m', out) := Step(c.isFfmpeg, 1, m, Call(op, t, t));
      && m' == map[w := Request("ffmpeg", if op.Acquire? then Running else Waiting, t + 10.0)]
      && (op.Acquire? ==> out.flag)
  {
    hide StatsOf, ParsesAsFfmpeg, OtherFfmpegWaits;
    var live := Live(m, t);
    if op.WaitStart? {
      assert live.Keys <= {w};
    } else {
      assert live == map[w := Request("ffmpeg", Waiting, t + 10.0)];
      assert RunningIds(live) == {};
      CanonicalRecognisersAgree("ffmpeg");
    }
  }

  // A lone FFmpeg request made when every other lease has expired is admitted at once.
  lemma Admitted(c: Config, s: State, w: string, t: real) returns (s': State)
    requires s.now <= t && w !in s.workers && w !in s.store && c.capacity == 1 && c.lease == 10.0
    requires forall v | v in s.store :: s.store[v].expiresAt <= t
    ensures Runs(c, s, Admission(w, t)) && After(c, s, Admission(w, t)) == s'
    ensures s'.now == t && s'.workers == s.workers[w := Worker("ffmpeg", Executing, Idle, false, t)]
    ensures s'.store == map[w := Request("ffmpeg", Running, t + 10.0)]
  {
    hide Step, Runs, After;
    var a0, a1, a2, a3 := Start(w, "ffmpeg", t, t), PollBeat(w, t, t), Decide(w, t, t), Enter(w);
    LoneCall(c, s.store, t, w, WaitStart("ffmpeg", w, 10.0));
    var s1 := Apply(c, s, a0);
    LoneCall(c, s1.store, t, w, WaitBeat(w, 10.0));
    var s2 := Apply(c, s1, a1);
    LoneCall(c, s2.store, t, w, Acquire("ffmpeg", w, 10.0));
    var s3 := Apply(c, s2, a2);
    s' := Apply(c, s3, a3);
    Chain(c, s, a0, a1, a2, a3);
  }

  lemma Chain(c: Config, s: State, a0: Action, a1: Action, a2: Action, a3: Action)
    requires Enabled(s, a0) && Enabled(Apply(c, s, a0), a1)
    requires Enabled(Apply(c, Apply(c, s, a0), a1), a2)
    requires Enabled(Apply(c, Apply(c, Apply(c, s, a0), a1), a2), a3)
    ensures Runs(c, s, [a0, a1, a2, a3])
    ensures After(c, s, [a0, a1, a2, a3]) == Apply(c, Apply(c, Apply(c, Apply(c, s, a0), a1), a2), a3)
  {
    hide Apply, Enabled;
    var s1 := Apply(c, s, a0);
    var s2 := Apply(c, s1, a1);
    var s3 := Apply(c, s2, a2);
    assert [a0, a1, a2, a3][1..] == [a1, a2, a3] && [a1, a2, a3][1..] == [a2, a3];
    assert [a2, a3][1..] == [a3] && [a3][1..] == [];
    assert Runs(c, s3, [a3]) && After(c, s3, [a3]) == Apply(c, s3, a3);
    assert Runs(c, s2, [a2, a3]) && After(c, s2, [a2, a3]) == After(c, s3, [a3]);
  }

  lemma {:induction false} RunsConcat(c: Config, s: State, a: seq<Action>, b: seq<Action>)
    requires Runs(c, s, a) && Runs(c, After(c, s, a), b)
    ensures Runs(c, s, a + b) && After(c, s, a + b) == After(c, After(c, s, a), b)
    decreases |a|
  {
    if a == [] {
      assert a + b == b;
    } else {
      RunsConcat(c, Apply(c, s, a[0]), a[1..], b);
      assert (a + b)[1..] == a[1..] + b;
    }
  }

  // A slot that was released is never re-created: once Finished, a worker has no lease in any later
  // state, although its heartbeat thread may still call the backend.
  lemma {:induction false} FinishedStaysReleased(c: Config, s: State, actions: seq<Action>, w: string)
    requires Inv(c, s) && Runs(c, s, actions)
    requires w in s.workers && w !in s.store && (s.workers[w].pc.Finished? || s.workers[w].pc.Crashed?)
    ensures w !in After(c, s, actions).store
    decreases |actions|
  {
    hide Step;
    if actions != [] {
      StepKeepsInv(c, s, actions[0]);
      var a := actions[0];
      assert WorkerInv(c, s, w);
      var s' := Apply(c, s, a);
      if Transacts(a) && a.w != w {
        OthersAreOnlyPurged(c, s, a, w);
      } else if Transacts(a) {
        assert a.HeartBeat? && s'.workers[w].pc.Finished?;
        assert WorkerInv(c, s', w);
      }
      FinishedStaysReleased(c, s', actions[1..], w);
    }
  }

  predicate OffTheQueue(s: State, w: string) {
    && w in s.workers && (s.workers[w].pc.Abandoned? || s.workers[w].pc.Crashed?) && s.workers[w].beater == Off
    && (w in s.store ==> s.store[w].status == Running)
  }

  lemma OffTheQueueStep(c: Config, s: State, a: Action, w: string)
    requires Enabled(s, a) && OffTheQueue(s, w)
    ensures OffTheQueue(Apply(c, s, a), w)
  {
    if Transacts(a) && a.w != w { OthersAreOnlyPurged(c, s, a, w); }
    hide StatsOf, AcquireReason;
  }

  lemma {:induction false} StaysOffTheQueue(c: Config, s: State, actions: seq<Action>, w: string)
    requires Runs(c, s, actions) && OffTheQueue(s, w)
    ensures OffTheQueue(After(c, s, actions), w)
    decreases |actions|
  {
    if actions != [] {
      OffTheQueueStep(c, s, actions[0], w);
      hide Apply, Enabled, OffTheQueue;
      StaysOffTheQueue(c, Apply(c, s, actions[0]), actions[1..], w);
    }
  }

  // A worker that gave up waiting after an error has no WAITING request in any later state, even if it dies then: it
  // takes priority from nobody and is counted as waiting by nobody.
  lemma AbandonedWaitIsGone(c: Config, now: real, before: seq<Action>, after: seq<Action>, w: string, t: real)
    requires Runs(c, Initial(now), before)
    requires
      var s := After(c, Initial(now), before);
      w in s.workers && s.workers[w].pc == Abandoned && Runs(c, s, after)
    ensures
      var m := After(c, After(c, Initial(now), before), after).store;
      && (w in m ==> m[w].status == Running)
      && w !in WaitingFfmpegIds(c.isFfmpeg, Live(m, t)) && w !in WaitingTranscriptIds(Live(m, t))
  {
    var s := After(c, Initial(now), before);
    RunKeepsInv(c, Initial(now), before);
    assert WorkerInv(c, s, w);
    StaysOffTheQueue(c, s, after, w);
  }

  // A poll in time keeps the request in the table for another lease.
  lemma TimelyPollKeepsTheRequest(c: Config, now: real, actions: seq<Action>, w: string, t0: real, t1: real)
    requires Runs(c, Initial(now), actions)
    requires Enabled(After(c, Initial(now), actions), PollBeat(w, t0, t1))
    requires t0 < Deadline(c, After(c, Initial(now), actions).workers[w])
    ensures
      var s := After(c, Initial(now), actions);
      var s' := Apply(c, s, PollBeat(w, t0, t1));
      && w in s'.store && s'.store[w] == Request(s.workers[w].jobType, Waiting, t1 + c.lease)
      && s'.workers[w].pc == Deciding && s'.workers[w].renewedAt == t1
  {
    RunKeepsInv(c, Initial(now), actions);
    assert WorkerInv(c, After(c, Initial(now), actions), w);
    hide StatsOf;
  }

  // While a handler executes its heartbeat thread lives: unless the lease has lapsed, it can renew it at any time.
  lemma ExecutingCanRenew(c: Config, now: real, actions: seq<Action>, w: string, t: real) returns (more: seq<Action>)
    requires Runs(c, Initial(now), actions) && w in ExecutingIds(After(c, Initial(now), actions))
    requires
      var s := After(c, Initial(now), actions);
      s.now <= t < Deadline(c, s.workers[w])
    ensures forall a | a in more :: (a.Arm? || a.HeartBeat?) && a.w == w
    ensures
      var s := After(c, Initial(now), actions);
      && Runs(c, s, more)
      && var s' := After(c, s, more);
         && w in s'.store && s'.store[w] == Request(s.workers[w].jobType, Running, t + c.lease)
         && w in s'.workers && s'.workers[w].pc == Executing && s'.workers[w].renewedAt == t
  {
    var s := After(c, Initial(now), actions);
    RunKeepsInv(c, Initial(now), actions);
    assert WorkerInv(c, s, w);
    hide StatsOf;
    var beat := HeartBeat(w, t, t);
    if s.workers[w].beater == Armed {
      more := [beat];
      OneStep(c, s, beat);
    } else {
      more := [Arm(w), beat];
      var s1 := Apply(c, s, Arm(w));
      OneStep(c, s1, beat);
      assert more[1..] == [beat];
    }
  }

  lemma OneStep(c: Config, s: State, a: Action)
    requires Enabled(s, a)
    ensures Runs(c, s, [a]) && After(c, s, [a]) == Apply(c, s, a)
  {
    hide Apply, Enabled;
    assert [a][1..] == [];
    assert Runs(c, Apply(c, s, a), []) && After(c, Apply(c, s, a), []) == Apply(c, s, a);
  }

  // A refused worker renews its wait lease before it asks again.
  lemma {:induction false} PollsBetweenDecisions(
    c: Config, s: State, actions: seq<Action>, w: string, t0: real, t1: real)
    requires Runs(c, s, actions) && Enabled(After(c, s, actions), Decide(w, t0, t1))
    requires w in s.workers && (s.workers[w].pc == Sleeping || s.workers[w].pc == Polling)
    ensures exists a :: a in actions && a.PollBeat? && a.w == w
    decreases |actions|
  {
    hide Step;
    if actions != [] {
      var a, s' := actions[0], Apply(c, s, actions[0]);
      assert a in actions;
      if !(a.PollBeat? && a.w == w) {
        if s'.workers[w].pc == s.workers[w].pc || s'.workers[w].pc == Polling {
          PollsBetweenDecisions(c, s', actions[1..], w, t0, t1);
          var b :| b in actions[1..] && b.PollBeat? && b.w == w;
          assert b in actions;
        } else {
          StaysGone(c, s', actions[1..], w);
        }
      }
    }
  }

  lemma {:induction false} StaysGone(c: Config, s: State, actions: seq<Action>, w: string)
    requires Runs(c, s, actions) && w in s.workers && Gone(s.workers[w].pc)
    ensures w in After(c, s, actions).workers && Gone(After(c, s, actions).workers[w].pc)
    decreases |actions|
  {
    hide Step;
    if actions != [] {
      var s' := Apply(c, s, actions[0]);
      assert w in s'.workers && Gone(s'.workers[w].pc);
      StaysGone(c, s', actions[1..], w);
    }
  }

  // How often the worker's heartbeat thread calls the backend.
  function Beats(actions: seq<Action>, w: string): nat {
    if actions == [] then 0
    else (if actions[0].HeartBeat? && actions[0].w == w then 1 else 0) + Beats(actions[1..], w)
  }

  // Once the handler is over the thread makes at most the one call it had already decided on.
  lemma AtMostOneBeatAfterLeaving(c: Config, s: State, actions: seq<Action>, w: string)
    requires Enabled(s, Leave(w)) && Runs(c, Apply(c, s, Leave(w)), actions)
    ensures Beats(actions, w) <= if s.workers[w].beater == Armed then 1 else 0
  {
    AtMostOneBeatAfterStop(c, Apply(c, s, Leave(w)), actions, w);
  }

  lemma {:induction false} AtMostOneBeatAfterStop(c: Config, s: State, actions: seq<Action>, w: string)
    requires Runs(c, s, actions) && w in s.workers && s.workers[w].stop
    requires s.workers[w].pc in {Stopping, Finished, Crashed}
    ensures Beats(actions, w) <= if s.workers[w].beater == Armed then 1 else 0
    decreases |actions|
  {
    hide Step;
    if actions != [] {
      var s' := Apply(c, s, actions[0]);
      assert w in s'.workers && s'.workers[w].stop && s'.workers[w].pc in {Stopping, Finished, Crashed};
      AtMostOneBeatAfterStop(c, s', actions[1..], w);
    }
  }

  lemma LapsedStep(c: Config, s: State, a: Action, w: string)
    requires Inv(c, s) && Enabled(s, a) && w in s.workers && (Waits(s.workers[w].pc) ==> w !in s.store)
    ensures
      var s' := Apply(c, s, a);
      w in s'.workers && (Waits(s'.workers[w].pc) ==> w !in s'.store)
  {
    assert WorkerInv(c, s, w);
    if Transacts(a) && a.w != w { OthersAreOnlyPurged(c, s, a, w); }
    hide StatsOf, WorkerInv;
  }

  // A wait lease that has lapsed is never renewed: as long as such a worker waits it is not in the table, so it
  // holds nobody back, and if it is FFmpeg work it has lost its priority until it is admitted itself.
  lemma {:induction false} LapsedWaiterHasNoPriority(c: Config, s: State, actions: seq<Action>, w: string, t: real)
    requires Inv(c, s) && Runs(c, s, actions)
    requires w in s.workers && (Waits(s.workers[w].pc) ==> w !in s.store)
    ensures
      var s' := After(c, s, actions);
      && w in s'.workers
      && (Waits(s'.workers[w].pc) ==> w !in s'.store && w !in WaitingFfmpegIds(c.isFfmpeg, Live(s'.store, t)))
    decreases |actions|
  {
    if actions != [] {
      hide Apply, Enabled, Inv;
      StepKeepsInv(c, s, actions[0]);
      LapsedStep(c, s, actions[0], w);
      LapsedWaiterHasNoPriority(c, Apply(c, s, actions[0]), actions[1..], w, t);
    }
  }

  // No worker that is not FFmpeg work is admitted while another FFmpeg worker waits with a timely wait lease.
  lemma TranscriptsYieldToFfmpeg(c: Config, now: real, actions: seq<Action>, w: string, t0: real, t1: real, v: string)
    requires Runs(c, Initial(now), actions)
    requires Enabled(After(c, Initial(now), actions), Decide(w, t0, t1))
    requires
      var s := After(c, Initial(now), actions);
      && v in s.workers && v != w && Waits(s.workers[v].pc) && c.isFfmpeg(s.workers[v].jobType)
      && t0 < Deadline(c, s.workers[v])
      && !ParsesAsFfmpeg(s.workers[w].jobType)
    ensures
      var s := After(c, Initial(now), actions);
      Apply(c, s, Decide(w, t0, t1)).workers[w].pc == Sleeping
  {
    hide ParsesAsFfmpeg;
    RunKeepsInv(c, Initial(now), actions);
    var s := After(c, Initial(now), actions);
    assert WorkerInv(c, s, v);
    assert v in Live(s.store, t0);
    AdmissionRule(c.isFfmpeg, c.capacity, s.store, CallOf(c, s, Decide(w, t0, t1)));
  }

  predicate Gone(pc: Pc) { pc.Failing? || pc.Abandoned? || pc.Crashed? }

  // Whenever a slot is free and some worker waits with a timely wait lease, the acquire call of some
  // request that waits succeeds; it is a running worker's request once the leases of dead ones are over.
  lemma SomeWaiterWouldBeAdmitted(c: Config, now: real, actions: seq<Action>, waiter: string)
    returns (winner: string)
    requires Cautious(c.isFfmpeg)
    requires Runs(c, Initial(now), actions)
    requires
      var s := After(c, Initial(now), actions);
      && |RunningIds(Live(s.store, s.now))| < c.capacity
      && waiter in s.workers && Waits(s.workers[waiter].pc) && s.now < Deadline(c, s.workers[waiter])
    ensures
      var s := After(c, Initial(now), actions);
      && winner in s.workers && winner in Live(s.store, s.now) && s.store[winner].status == Waiting
      && (Waits(s.workers[winner].pc) || Gone(s.workers[winner].pc))
      && ((forall v | v in s.workers && Gone(s.workers[v].pc) :: Deadline(c, s.workers[v]) <= s.now) ==>
            Waits(s.workers[winner].pc))
      && var call := Call(Acquire(s.store[winner].jobType, winner, c.lease), s.now, s.now);
         Step(c.isFfmpeg, c.capacity, s.store, call).1.flag
  {
    RunKeepsInv(c, Initial(now), actions);
    var s := After(c, Initial(now), actions);
    assert WorkerInv(c, s, waiter);
    winner := FreeSlotAdmitsSomeWaiter(c.isFfmpeg, c.capacity, s.store, s.now, s.now, c.lease, waiter);
    assert winner in s.workers;
    assert WorkerInv(c, s, winner);
  }

  lemma {:induction false} CrashedStays(c: Config, s: State, actions: seq<Action>, w: string)
    requires Runs(c, s, actions) && w in s.workers && s.workers[w].pc == Crashed && s.workers[w].beater == Off
    ensures w in After(c, s, actions).workers && After(c, s, actions).workers[w] == s.workers[w]
    decreases |actions|
  {
    if actions != [] {
      CrashedStays(c, Apply(c, s, actions[0]), actions[1..], w);
    }
  }

  // A crashed FFmpeg waiter stops holding others back at most `lease` after its last renewal.
  lemma CrashedWaiterBlocksAtMostOneLease(
    c: Config, now: real, before: seq<Action>, after: seq<Action>, w: string, t: real)
    requires Runs(c, Initial(now), before)
    requires
      var s := After(c, Initial(now), before);
      w in s.workers && s.workers[w].pc == Crashed && Runs(c, s, after)
    requires
      var s := After(c, Initial(now), before);
      After(c, s, after).now <= t && s.workers[w].renewedAt + c.lease <= t
    ensures
      var s' := After(c, After(c, Initial(now), before), after);
      w !in WaitingFfmpegIds(c.isFfmpeg, Live(s'.store, t))
  {
    RunKeepsInv(c, Initial(now), before);
    var s := After(c, Initial(now), before);
    assert WorkerInv(c, s, w);
    RunKeepsInv(c, s, after);
    CrashedStays(c, s, after, w);
    assert WorkerInv(c, After(c, s, after), w);
  }
}

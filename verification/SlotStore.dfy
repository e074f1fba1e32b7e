/** The CPU slot table as a value, with one pure transition per backend operation.
    Every operation is one short transaction that reads the clock twice: once to purge
    expired leases (`purgeAt`) and once to compute a new expiry (`leaseAt`). */
module SlotStore {
  import opened Sets
  import opened Text

  datatype Status = Waiting | Running

  datatype Kind = Ffmpeg | Transcript

  datatype Request = Request(jobType: string, status: Status, expiresAt: real)

  type Store = map<string, Request>

  datatype Reason =
    | WaitStarted | WaitHeartbeat | WaitFinished | Acquired | CapacityFull | FfmpegWaiting
    | Released | Missing | Heartbeat | Snapshot

  datatype Stats = Stats(reason: Reason, inUse: nat, waitingFfmpeg: nat, waitingTranscript: nat)

  // What a call reports: `flag` is the acquire decision or the `renewed` entry.
  datatype Output = Output(flag: bool, stats: Stats)

  datatype Op =
    | WaitStart(jobType: string, id: string, lease: real)
    | WaitBeat(id: string, lease: real)
    | WaitFinish(id: string)
    | Acquire(jobType: string, id: string, lease: real)
    | Release(id: string)
    | Beat(id: string, lease: real)
    | Look

  datatype Call = Call(op: Op, purgeAt: real, leaseAt: real)

  // How a backend decides that a waiting request is an FFmpeg one.
  type Recogniser = string -> bool

  function ParseKind(jobType: string): Option<Kind> {
    var word := Lower(Strip(jobType));
    if word == "ffmpeg" then Some(Ffmpeg)
    else if word == "transcript" then Some(Transcript)
    else None
  }

  // The dictionary backend parses the stored job type; the table backend compares it exactly.
  predicate ParsesAsFfmpeg(jobType: string) { ParseKind(jobType) == Some(Ffmpeg) }

  predicate IsExactlyFfmpeg(jobType: string) { jobType == "ffmpeg" }

  predicate Canonical(jobType: string) { jobType == "ffmpeg" || jobType == "transcript" }

  // The leases that have not expired at `now`.
  function Live(m: Store, now: real): Store {
    map id | id in m && m[id].expiresAt > now :: m[id]
  }

  function RunningIds(m: Store): set<string> {
    set id | id in m && m[id].status == Running
  }

  function WaitingFfmpegIds(isFfmpeg: Recogniser, m: Store): set<string> {
    set id | id in m && m[id].status == Waiting && isFfmpeg(m[id].jobType)
  }

  function WaitingTranscriptIds(m: Store): set<string> {
    set id | id in m && m[id].status == Waiting && m[id].jobType == "transcript"
  }

  function StatsOf(isFfmpeg: Recogniser, m: Store, reason: Reason): Stats {
    Stats(reason, |RunningIds(m)|, |WaitingFfmpegIds(isFfmpeg, m)|, |WaitingTranscriptIds(m)|)
  }

  predicate OtherFfmpegWaits(isFfmpeg: Recogniser, m: Store, id: string) {
    WaitingFfmpegIds(isFfmpeg, m) - {id} != {}
  }

  function AcquireReason(isFfmpeg: Recogniser, capacity: int, m: Store, jobType: string, id: string): Reason {
    if |RunningIds(m)| >= capacity then CapacityFull
    else if ParsesAsFfmpeg(jobType) || !OtherFfmpegWaits(isFfmpeg, m, id) then Acquired
    else FfmpegWaiting
  }

  function Renew(m: Store, id: string, expiresAt: real): Store
    requires id in m
  {
    m[id := m[id].(expiresAt := expiresAt)]
  }

  // The effect of an operation on a store that holds no expired lease.
  function Effect(isFfmpeg: Recogniser, capacity: int, m: Store, op: Op, at: real): (Store, bool, Reason) {
    match op
    case WaitStart(jobType, id, lease) => (m[id := Request(jobType, Waiting, at + lease)], false, WaitStarted)
    case WaitBeat(id, lease) =>
      var renewed := id in m && m[id].status == Waiting;
      (if renewed then Renew(m, id, at + lease) else m, renewed, WaitHeartbeat)
    case WaitFinish(id) => (if id in m && m[id].status == Waiting then m - {id} else m, false, WaitFinished)
    case Acquire(jobType, id, lease) =>
      var reason := AcquireReason(isFfmpeg, capacity, m, jobType, id);
      var ok := reason == Acquired;
      (if ok then m[id := Request(jobType, Running, at + lease)] else m, ok, reason)
    case Release(id) => (m - {id}, false, if id in m then Released else Missing)
    case Beat(id, lease) =>
      var renewed := id in m && m[id].status == Running;
      (if renewed then Renew(m, id, at + lease) else m, renewed, Heartbeat)
    case Look => (m, false, Snapshot)
  }

  // One call on a store that may still hold expired leases: purge, then act, then count.
  function Step(isFfmpeg: Recogniser, capacity: int, m: Store, call: Call): (Store, Output) {
    var (m', flag, reason) := Effect(isFfmpeg, capacity, Live(m, call.purgeAt), call.op, call.leaseAt);
    (m', Output(flag, StatsOf(isFfmpeg, m', reason)))
  }

  function Run(isFfmpeg: Recogniser, capacity: int, m: Store, calls: seq<Call>): (Store, seq<Output>)
    decreases |calls|
  {
    if calls == [] then (m, [])
    else
      var (m1, out) := Step(isFfmpeg, capacity, m, calls[0]);
      var (m2, rest) := Run(isFfmpeg, capacity, m1, calls[1..]);
      (m2, [out] + rest)
  }

  // ---------------------------------------------------------------------------
  // Capacity: no sequence of calls, in any order and at any times, over-admits.

  lemma StepKeepsCapacity(isFfmpeg: Recogniser, capacity: int, m: Store, call: Call)
    requires |RunningIds(m)| <= if capacity < 0 then 0 else capacity
    ensures |RunningIds(Step(isFfmpeg, capacity, m, call).0)| <= if capacity < 0 then 0 else capacity
  {
    var live := Live(m, call.purgeAt);
    var m' := Step(isFfmpeg, capacity, m, call).0;
    SubsetIsSmaller(RunningIds(live), RunningIds(m));
    if call.op.Acquire? {
      SubsetIsSmaller(RunningIds(m'), RunningIds(live) + {call.op.id});
    } else {
      SubsetIsSmaller(RunningIds(m'), RunningIds(live));
    }
  }

  // Main result: starting from an empty table, RUNNING leases never exceed the capacity.
  lemma {:induction false} RunningNeverExceedsCapacity(isFfmpeg: Recogniser, capacity: int, m: Store, calls: seq<Call>)
    requires |RunningIds(m)| <= if capacity < 0 then 0 else capacity
    ensures |RunningIds(Run(isFfmpeg, capacity, m, calls).0)| <= if capacity < 0 then 0 else capacity
    ensures |Run(isFfmpeg, capacity, m, calls).1| == |calls|
    ensures forall o | o in Run(isFfmpeg, capacity, m, calls).1 :: o.stats.inUse <= if capacity < 0 then 0 else capacity
    decreases |calls|
  {
    if calls != [] {
      StepKeepsCapacity(isFfmpeg, capacity, m, calls[0]);
      RunningNeverExceedsCapacity(isFfmpeg, capacity, Step(isFfmpeg, capacity, m, calls[0]).0, calls[1..]);
    }
  }

  // ---------------------------------------------------------------------------
  // What one call leaves of the table, said entry by entry.

  predicate LiveAs(m: Store, id: string, status: Status, now: real) {
    id in m && m[id].expiresAt > now && m[id].status == status
  }

  // The entries of other requests stay as they are while they are live.
  lemma OtherEntriesStay(isFfmpeg: Recogniser, capacity: int, m: Store, call: Call, v: string)
    requires call.op.Look? || v != call.op.id
    ensures
      var m' := Step(isFfmpeg, capacity, m, call).0;
      && (v in m' <==> v in m && m[v].expiresAt > call.purgeAt)
      && (v in m' ==> m'[v] == m[v])
  {
    hide StatsOf, ParsesAsFfmpeg, AcquireReason;
  }

  // A wait that is given up leaves no WAITING request behind, and a RUNNING lease untouched.
  lemma WaitFinishDropsTheWaiter(
    isFfmpeg: Recogniser, capacity: int, m: Store, id: string, purgeAt: real, leaseAt: real)
    ensures
      var m' := Step(isFfmpeg, capacity, m, Call(WaitFinish(id), purgeAt, leaseAt)).0;
      && (id in m' <==> LiveAs(m, id, Running, purgeAt))
      && (id in m' ==> m'[id] == m[id])
      && id !in WaitingFfmpegIds(isFfmpeg, m') && id !in WaitingTranscriptIds(m')
  {
    hide StatsOf;
  }

  // A renewal succeeds exactly on a live lease of its kind, and moves nothing but that lease's expiry.
  lemma RenewalMovesTheExpiry(isFfmpeg: Recogniser, capacity: int, m: Store, call: Call)
    requires call.op.WaitBeat? || call.op.Beat?
    ensures
      var (m', out) := Step(isFfmpeg, capacity, m, call);
      var id := call.op.id;
      && (out.flag <==> LiveAs(m, id, if call.op.Beat? then Running else Waiting, call.purgeAt))
      && (out.flag ==>
            m' == Live(m, call.purgeAt)[id := Request(m[id].jobType, m[id].status, call.leaseAt + call.op.lease)])
      && (!out.flag ==> m' == Live(m, call.purgeAt))
  {
    hide StatsOf;
  }

  // A wait that starts is WAITING for one lease. An acquire that succeeds is RUNNING for one lease, one that fails
  // changes nothing. A released lease is gone. The reasons say which case it was.
  lemma RequestsAndReleases(isFfmpeg: Recogniser, capacity: int, m: Store, call: Call)
    requires call.op.WaitStart? || call.op.Acquire? || call.op.Release?
    ensures
      var (m', out) := Step(isFfmpeg, capacity, m, call);
      var id, live := call.op.id, Live(m, call.purgeAt);
      && (call.op.WaitStart? ==> id in m' && m'[id] == Request(call.op.jobType, Waiting, call.leaseAt + call.op.lease))
      && (call.op.Acquire? ==>
            && (out.flag ==> id in m' && m'[id] == Request(call.op.jobType, Running, call.leaseAt + call.op.lease))
            && (!out.flag ==> m' == live)
            && (out.flag <==> out.stats.reason == Acquired)
            && (out.stats.reason == CapacityFull <==> |RunningIds(live)| >= capacity))
      && (call.op.Release? ==>
            && id !in m'
            && (out.stats.reason == Released <==> id in live) && (out.stats.reason == Missing <==> id !in live))
  {
    hide ParsesAsFfmpeg, RunningIds, WaitingFfmpegIds, WaitingTranscriptIds;
  }

  // On canonical job types the three counts add up to the table.
  lemma CountsPartitionTheTable(isFfmpeg: Recogniser, m: Store, reason: Reason)
    requires forall id | id in m :: m[id].jobType == "ffmpeg" || m[id].jobType == "transcript"
    requires isFfmpeg("ffmpeg") && !isFfmpeg("transcript")
    ensures
      var stats := StatsOf(isFfmpeg, m, reason);
      && stats.inUse + stats.waitingFfmpeg + stats.waitingTranscript == |m|
      && (stats.inUse == 0 <==> !exists id :: id in m && m[id].status == Running)
      && (stats.waitingFfmpeg == 0 <==> !exists id :: id in m && m[id].status == Waiting && m[id].jobType == "ffmpeg")
      && (stats.waitingTranscript == 0 <==>
            !exists id :: id in m && m[id].status == Waiting && m[id].jobType == "transcript")
  {
    var r, f, w := RunningIds(m), WaitingFfmpegIds(isFfmpeg, m), WaitingTranscriptIds(m);
    assert m.Keys == r + f + w && r !! f && (r + f) !! w by { EveryEntryIsCounted(isFfmpeg, m); }
    assert r == {} <==> !exists id :: id in m && m[id].status == Running by { EmptyCounts(isFfmpeg, m); }
    assert f == {} <==> !exists id :: id in m && m[id].status == Waiting && m[id].jobType == "ffmpeg" by {
      EmptyCounts(isFfmpeg, m);
    }
    assert w == {} <==> !exists id :: id in m && m[id].status == Waiting && m[id].jobType == "transcript";
    hide RunningIds, WaitingFfmpegIds, WaitingTranscriptIds;
    assert |r + f + w| == |r + f| + |w| && |r + f| == |r| + |f|;
  }

  lemma EmptyCounts(isFfmpeg: Recogniser, m: Store)
    requires forall id | id in m :: m[id].jobType == "ffmpeg" || m[id].jobType == "transcript"
    requires isFfmpeg("ffmpeg") && !isFfmpeg("transcript")
    ensures RunningIds(m) == {} <==> !exists id :: id in m && m[id].status == Running
    ensures WaitingFfmpegIds(isFfmpeg, m) == {} <==>
      !exists id :: id in m && m[id].status == Waiting && m[id].jobType == "ffmpeg"
  {
    if id :| id in m && m[id].status == Running { assert id in RunningIds(m); }
    if id :| id in m && m[id].status == Waiting && m[id].jobType == "ffmpeg" {
      assert id in WaitingFfmpegIds(isFfmpeg, m);
    }
  }

  lemma EveryEntryIsCounted(isFfmpeg: Recogniser, m: Store)
    requires forall id | id in m :: m[id].jobType == "ffmpeg" || m[id].jobType == "transcript"
    requires isFfmpeg("ffmpeg") && !isFfmpeg("transcript")
    ensures
      var r, f, w := RunningIds(m), WaitingFfmpegIds(isFfmpeg, m), WaitingTranscriptIds(m);
      m.Keys == r + f + w && r !! f && (r + f) !! w
  {
    var r, f, w := RunningIds(m), WaitingFfmpegIds(isFfmpeg, m), WaitingTranscriptIds(m);
    forall id | id in m ensures id in r + f + w { assert m[id].status == Running || m[id].status == Waiting; }
  }

  // ---------------------------------------------------------------------------
  // Renewals never create a slot, and a released id stays out until it asks again.

  predicate Mentions(op: Op, id: string) {
    (op.WaitStart? || op.Acquire?) && op.id == id
  }

  lemma {:induction false} OnlyRequestsCreateSlots(
    isFfmpeg: Recogniser, capacity: int, m: Store, calls: seq<Call>, id: string)
    requires id !in m
    requires forall c | c in calls :: !Mentions(c.op, id)
    ensures id !in Run(isFfmpeg, capacity, m, calls).0
    decreases |calls|
  {
    if calls != [] {
      assert calls[0] in calls;
      OnlyRequestsCreateSlots(isFfmpeg, capacity, Step(isFfmpeg, capacity, m, calls[0]).0, calls[1..], id);
    }
  }

  // After a release, any number of late heartbeats (or other workers' calls) leaves no lease behind,
  // and each late heartbeat reports that nothing was renewed.
  lemma LateHeartbeatNeverRecreates(
    isFfmpeg: Recogniser, capacity: int, m: Store, release: Call, calls: seq<Call>, late: Call)
    requires release.op.Release? && late.op.Beat? && late.op.id == release.op.id
    requires forall c | c in calls :: !Mentions(c.op, release.op.id)
    ensures
      var after := Run(isFfmpeg, capacity, Step(isFfmpeg, capacity, m, release).0, calls).0;
      var (final, out) := Step(isFfmpeg, capacity, after, late);
      !out.flag && release.op.id !in final && final == Live(after, late.purgeAt)
  {
    var released := Step(isFfmpeg, capacity, m, release).0;
    OnlyRequestsCreateSlots(isFfmpeg, capacity, released, calls, release.op.id);
  }

  // ---------------------------------------------------------------------------
  // Lazy purging is unobservable.

  lemma LiveTwice(m: Store, t: real, t': real)
    requires t <= t'
    ensures Live(Live(m, t), t') == Live(m, t')
  {}

  // Calls and bare purges interleaved; the times never go back.
  datatype Event = Do(call: Call) | Purge(at: real)

  function EventStart(e: Event): real { if e.Do? then e.call.purgeAt else e.at }

  predicate Monotone(events: seq<Event>, from: real)
    decreases |events|
  {
    events == [] || (from <= EventStart(events[0]) && Monotone(events[1..], EventStart(events[0])))
  }

  function Calls(events: seq<Event>): seq<Call>
    decreases |events|
  {
    if events == [] then []
    else (if events[0].Do? then [events[0].call] else []) + Calls(events[1..])
  }

  // An abstract store in which leases also vanish at the `Purge` instants.
  function RunEager(isFfmpeg: Recogniser, capacity: int, m: Store, events: seq<Event>): (Store, seq<Output>)
    decreases |events|
  {
    if events == [] then (m, [])
    else if events[0].Purge? then RunEager(isFfmpeg, capacity, Live(m, events[0].at), events[1..])
    else
      var (m1, out) := Step(isFfmpeg, capacity, m, events[0].call);
      var (m2, rest) := RunEager(isFfmpeg, capacity, m1, events[1..]);
      (m2, [out] + rest)
  }

  function LastTime(events: seq<Event>, from: real): real
    decreases |events|
  {
    if events == [] then from else LastTime(events[1..], EventStart(events[0]))
  }

  // Main result: two stores with the same live leases give the same answers for ever, however
  // many leases either has already dropped, and wherever further purges are inserted.
  lemma {:induction false} LazyPurgeIsUnobservable(
    isFfmpeg: Recogniser, capacity: int, lazy: Store, eager: Store, events: seq<Event>, from: real)
    requires Live(lazy, from) == Live(eager, from)
    requires Monotone(events, from)
    ensures Run(isFfmpeg, capacity, lazy, Calls(events)).1 == RunEager(isFfmpeg, capacity, eager, events).1
    ensures
      var end := LastTime(events, from);
      Live(Run(isFfmpeg, capacity, lazy, Calls(events)).0, end) ==
          Live(RunEager(isFfmpeg, capacity, eager, events).0, end)
    decreases |events|
  {
    if events != [] {
      var e := events[0];
      var t := EventStart(e);
      LiveTwice(lazy, from, t);
      LiveTwice(eager, from, t);
      if e.Purge? {
        LiveTwice(eager, t, t);
        assert Calls(events) == Calls(events[1..]);
        LazyPurgeIsUnobservable(isFfmpeg, capacity, lazy, Live(eager, t), events[1..], t);
      } else {
        var next := Step(isFfmpeg, capacity, lazy, e.call).0;
        assert Step(isFfmpeg, capacity, lazy, e.call) == Step(isFfmpeg, capacity, eager, e.call);
        assert Calls(events) == [e.call] + Calls(events[1..]);
        LazyPurgeIsUnobservable(isFfmpeg, capacity, next, next, events[1..], t);
      }
    }
  }

  // ---------------------------------------------------------------------------
  // The two backends.

  predicate CanonicalStore(m: Store) { forall id | id in m :: Canonical(m[id].jobType) }

  predicate CanonicalOp(op: Op) { (op.WaitStart? || op.Acquire?) ==> Canonical(op.jobType) }

  lemma CanonicalRecognisersAgree(jobType: string)
    requires Canonical(jobType)
    ensures ParsesAsFfmpeg(jobType) <==> IsExactlyFfmpeg(jobType)
  {
    assert Trimmed(jobType);
    assert Lower("ffmpeg") == "ffmpeg";
    assert Lower("transcript") == "transcript";
  }

  lemma CanonicalWaitersAgree(m: Store)
    requires CanonicalStore(m)
    ensures WaitingFfmpegIds(ParsesAsFfmpeg, m) == WaitingFfmpegIds(IsExactlyFfmpeg, m)
  {
    hide ParsesAsFfmpeg;
    forall id | id in m ensures ParsesAsFfmpeg(m[id].jobType) == IsExactlyFfmpeg(m[id].jobType) {
      CanonicalRecognisersAgree(m[id].jobType);
    }
  }

  lemma CanonicalStepsAgree(capacity: int, m: Store, call: Call)
    requires CanonicalStore(m) && CanonicalOp(call.op)
    ensures Step(ParsesAsFfmpeg, capacity, m, call) == Step(IsExactlyFfmpeg, capacity, m, call)
    ensures CanonicalStore(Step(IsExactlyFfmpeg, capacity, m, call).0)
  {
    hide ParsesAsFfmpeg, IsExactlyFfmpeg, WaitingFfmpegIds, WaitingTranscriptIds, RunningIds;
    CanonicalWaitersAgree(Live(m, call.purgeAt));
    assert Effect(ParsesAsFfmpeg, capacity, Live(m, call.purgeAt), call.op, call.leaseAt)
        == Effect(IsExactlyFfmpeg, capacity, Live(m, call.purgeAt), call.op, call.leaseAt);
    CanonicalWaitersAgree(Step(IsExactlyFfmpeg, capacity, m, call).0);
  }

  // Main result: on canonical job types the two backends answer every run of calls alike.
  lemma {:induction false} BackendsSimulateEachOther(capacity: int, m: Store, calls: seq<Call>)
    requires CanonicalStore(m) && forall c | c in calls :: CanonicalOp(c.op)
    ensures Run(ParsesAsFfmpeg, capacity, m, calls) == Run(IsExactlyFfmpeg, capacity, m, calls)
    decreases |calls|
  {
    if calls != [] {
      assert calls[0] in calls;
      CanonicalStepsAgree(capacity, m, calls[0]);
      BackendsSimulateEachOther(capacity, Step(IsExactlyFfmpeg, capacity, m, calls[0]).0, calls[1..]);
    }
  }

  // Off the canonical types they differ exactly when a live waiter's type only parses as FFmpeg.
  lemma BackendsAgreeIff(m: Store, now: real, reason: Reason)
    ensures
      StatsOf(ParsesAsFfmpeg, Live(m, now), reason) == StatsOf(IsExactlyFfmpeg, Live(m, now), reason)
      <==>
      forall id | id in m && m[id].expiresAt > now && m[id].status == Waiting && ParsesAsFfmpeg(m[id].jobType) ::
        m[id].jobType == "ffmpeg"
  {
    hide ParsesAsFfmpeg;
    var live := Live(m, now);
    var parsed, exact := WaitingFfmpegIds(ParsesAsFfmpeg, live), WaitingFfmpegIds(IsExactlyFfmpeg, live);
    CanonicalRecognisersAgree("ffmpeg");
    assert exact <= parsed;
    if parsed != exact {
      var odd :| odd in parsed && odd !in exact;
      SubsetIsSmaller(exact, parsed - {odd});
      assert odd in m && !(m[odd].jobType == "ffmpeg");
    } else {
      forall id | id in m && m[id].expiresAt > now && m[id].status == Waiting && ParsesAsFfmpeg(m[id].jobType)
        ensures m[id].jobType == "ffmpeg"
      {
        assert id in parsed;
      }
    }
  }

  // They do differ: " FFmpeg " parses as FFmpeg work but is not spelt so.
  lemma BackendsDifferOnSpacedType()
    ensures
      var m := map["w" := Request(" FFmpeg ", Waiting, 10.0)];
      StatsOf(ParsesAsFfmpeg, Live(m, 0.0), Snapshot) != StatsOf(IsExactlyFfmpeg, Live(m, 0.0), Snapshot)
  {
    var m := map["w" := Request(" FFmpeg ", Waiting, 10.0)];
    SpacedTypeParses();
    hide ParsesAsFfmpeg;
    assert ParsesAsFfmpeg(m["w"].jobType) && |m["w"].jobType| == 8;
    BackendsAgreeIff(m, 0.0, Snapshot);
  }

  lemma SpacedTypeParses()
    ensures ParsesAsFfmpeg(" FFmpeg ")
  {
    var s := " FFmpeg ";
    assert s[1..] == "FFmpeg ";
    assert StripLeft(s[1..]) == s[1..];
    assert StripLeft(s) == "FFmpeg ";
    var l := "FFmpeg ";
    assert l[..6] == "FFmpeg";
    assert StripRight(l[..6]) == l[..6];
    assert StripRight(l) == "FFmpeg";
    var w := Lower("FFmpeg");
    assert |w| == 6 && w[0] == 'f' && w[1] == 'f' && w[2] == 'm' && w[3] == 'p' && w[4] == 'e' && w[5] == 'g';
    assert w == "ffmpeg";
  }

  // ---------------------------------------------------------------------------
  // FFmpeg priority and progress.

  // A call admits a request exactly when a slot is free and, for a request that is not FFmpeg
  // work, no other live FFmpeg request is waiting.
  lemma AdmissionRule(isFfmpeg: Recogniser, capacity: int, m: Store, call: Call)
    requires call.op.Acquire?
    ensures
      Step(isFfmpeg, capacity, m, call).1.flag
      <==>
      && |RunningIds(Live(m, call.purgeAt))| < capacity
      && (ParsesAsFfmpeg(call.op.jobType) ||
          !exists id :: id != call.op.id && id in m && m[id].expiresAt > call.purgeAt
                        && m[id].status == Waiting && isFfmpeg(m[id].jobType))
  {
    hide ParsesAsFfmpeg, RunningIds, StatsOf;
    var live := Live(m, call.purgeAt);
    var others := WaitingFfmpegIds(isFfmpeg, live) - {call.op.id};
    if others != {} {
      var id :| id in others;
      assert id in m && m[id].expiresAt > call.purgeAt;
    }
    assert forall id :: id in others <==>
      id != call.op.id && id in m && m[id].expiresAt > call.purgeAt && m[id].status == Waiting &&
          isFfmpeg(m[id].jobType);
  }

  // A recogniser that takes nothing for FFmpeg work that admission would not: both backends have such a one.
  ghost predicate Cautious(isFfmpeg: Recogniser) {
    forall jobType :: isFfmpeg(jobType) ==> ParsesAsFfmpeg(jobType)
  }

  lemma BackendsAreCautious()
    ensures Cautious(ParsesAsFfmpeg) && Cautious(IsExactlyFfmpeg)
  {
    CanonicalRecognisersAgree("ffmpeg");
  }

  // Main result: whenever a slot is free and somebody live is waiting, some live waiter is admitted.
  lemma FreeSlotAdmitsSomeWaiter(
    isFfmpeg: Recogniser, capacity: int, m: Store, now: real, leaseAt: real, lease: real, waiter: string)
    returns (winner: string)
    requires Cautious(isFfmpeg) && |RunningIds(Live(m, now))| < capacity
    requires waiter in Live(m, now) && m[waiter].status == Waiting
    ensures winner in Live(m, now) && m[winner].status == Waiting
    ensures Step(isFfmpeg, capacity, m, Call(Acquire(m[winner].jobType, winner, lease), now, leaseAt)).1.flag
  {
    hide ParsesAsFfmpeg;
    var ffmpeg := WaitingFfmpegIds(isFfmpeg, Live(m, now));
    if ffmpeg == {} {
      winner := waiter;
    } else {
      winner :| winner in ffmpeg;
    }
  }
}

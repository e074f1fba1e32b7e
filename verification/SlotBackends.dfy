/** The two slot backends in the form the program has them: a dictionary that is mutated under a
    lock and purged by a loop, and a table of rows that is filtered, updated and deleted inside a
    transaction. Each method is tied to `SlotStore.Step`, so every result proved there about runs of
    calls holds of both. `purgeAt` and `leaseAt` are the two clock readings of one call. */
module SlotBackends {
  import opened Text
  import opened SlotStore

  class InMemorySlotBackend {
    const capacity: int
    var requests: Store

    constructor (capacity: int)
      ensures this.capacity == capacity && requests == map[]
    {
      this.capacity := capacity;
      requests := map[];
    }

    method PurgeExpired(now: real)
      modifies this
      ensures requests == Live(old(requests), now)
    {
      var items := requests.Keys;
      while items != {}
        invariant items <= requests.Keys <= old(requests).Keys
        invariant forall id | id in requests :: requests[id] == old(requests)[id]
        invariant forall id | id in requests && id !in items :: requests[id].expiresAt > now
        invariant forall id | id in old(requests) && id !in requests :: old(requests)[id].expiresAt <= now
        decreases items
      {
        var id :| id in items;
        items := items - {id};
        if requests[id].expiresAt <= now {
          requests := requests - {id};
        }
      }
    }

    method CountStats(reason: Reason) returns (stats: Stats)
      ensures stats == StatsOf(ParsesAsFfmpeg, requests, reason)
    {
      stats := Stats(reason,
        |set id | id in requests && requests[id].status == Running|,
        |set id | id in requests && requests[id].status == Waiting && ParseKind(requests[id].jobType) == Some(Ffmpeg)|,
        |set id | id in requests && requests[id].status == Waiting && requests[id].jobType == "transcript"|);
      DictionaryStats(requests, reason);
    }

    method WaitStarted(jobType: string, id: string, lease: real, purgeAt: real, leaseAt: real) returns (stats: Stats)
      modifies this
      ensures (requests, Output(false, stats)) ==
        Step(ParsesAsFfmpeg, capacity, old(requests), Call(WaitStart(jobType, id, lease), purgeAt, leaseAt))
    {
      hide ParsesAsFfmpeg, StatsOf;
      PurgeExpired(purgeAt);
      requests := requests[id := Request(jobType, Waiting, leaseAt + lease)];
      stats := CountStats(Reason.WaitStarted);
    }

    method WaitHeartbeat(id: string, lease: real, purgeAt: real, leaseAt: real) returns (renewed: bool, stats: Stats)
      modifies this
      ensures (requests, Output(renewed, stats)) ==
        Step(ParsesAsFfmpeg, capacity, old(requests), Call(WaitBeat(id, lease), purgeAt, leaseAt))
    {
      hide ParsesAsFfmpeg, StatsOf;
      PurgeExpired(purgeAt);
      renewed := id in requests && requests[id].status == Waiting;
      if renewed {
        requests := requests[id := requests[id].(expiresAt := leaseAt + lease)];
      }
      stats := CountStats(Reason.WaitHeartbeat);
    }

    method WaitFinished(id: string, purgeAt: real) returns (stats: Stats)
      modifies this
      ensures (requests, Output(false, stats)) ==
        Step(ParsesAsFfmpeg, capacity, old(requests), Call(WaitFinish(id), purgeAt, purgeAt))
      ensures forall v :: v in requests <==>
        && v in old(requests) && old(requests)[v].expiresAt > purgeAt
        && !(v == id && old(requests)[v].status == Waiting)
      ensures forall v | v in requests :: requests[v] == old(requests)[v]
    {
      hide ParsesAsFfmpeg, StatsOf;
      PurgeExpired(purgeAt);
      if id in requests && requests[id].status == Waiting {
        requests := requests - {id};
      }
      stats := CountStats(Reason.WaitFinished);
    }

    method Acquire(jobType: string, id: string, lease: real, purgeAt: real, leaseAt: real)
      returns (ok: bool, stats: Stats)
      modifies this
      ensures (requests, Output(ok, stats)) ==
        Step(ParsesAsFfmpeg, capacity, old(requests), Call(Op.Acquire(jobType, id, lease), purgeAt, leaseAt))
    {
      hide ParsesAsFfmpeg, StatsOf;
      PurgeExpired(purgeAt);
      var inUse := |set i | i in requests && requests[i].status == Running|;
      var ffmpegWaiting := exists i | i in requests ::
        i != id && requests[i].status == Waiting && ParsesAsFfmpeg(requests[i].jobType);
      assert ffmpegWaiting == OtherFfmpegWaits(ParsesAsFfmpeg, requests, id) by {
        if ffmpegWaiting {
          var i :| i in requests && i != id && requests[i].status == Waiting && ParsesAsFfmpeg(requests[i].jobType);
          assert i in WaitingFfmpegIds(ParsesAsFfmpeg, requests) - {id};
        }
      }
      var reason := CapacityFull;
      ok := false;
      if inUse < capacity {
        if ParsesAsFfmpeg(jobType) || !ffmpegWaiting {
          requests := requests[id := Request(jobType, Running, leaseAt + lease)];
          ok := true;
          reason := Acquired;
        } else {
          reason := FfmpegWaiting;
        }
      }
      stats := CountStats(reason);
    }

    method Release(id: string, purgeAt: real) returns (stats: Stats)
      modifies this
      ensures (requests, Output(false, stats)) ==
        Step(ParsesAsFfmpeg, capacity, old(requests), Call(Op.Release(id), purgeAt, purgeAt))
    {
      hide ParsesAsFfmpeg, StatsOf;
      PurgeExpired(purgeAt);
      var reason := if id in requests then Released else Missing;
      requests := requests - {id};
      stats := CountStats(reason);
    }

    method Heartbeat(id: string, lease: real, purgeAt: real, leaseAt: real) returns (renewed: bool, stats: Stats)
      modifies this
      ensures (requests, Output(renewed, stats)) ==
        Step(ParsesAsFfmpeg, capacity, old(requests), Call(Beat(id, lease), purgeAt, leaseAt))
    {
      hide ParsesAsFfmpeg, StatsOf;
      PurgeExpired(purgeAt);
      renewed := id in requests && requests[id].status == Running;
      if renewed {
        requests := requests[id := requests[id].(expiresAt := leaseAt + lease)];
      }
      stats := CountStats(Reason.Heartbeat);
    }

    method Snapshot(purgeAt: real) returns (stats: Stats)
      modifies this
      ensures (requests, Output(false, stats)) ==
        Step(ParsesAsFfmpeg, capacity, old(requests), Call(Look, purgeAt, purgeAt))
    {
      hide ParsesAsFfmpeg, StatsOf;
      PurgeExpired(purgeAt);
      stats := CountStats(Reason.Snapshot);
    }
  }

  // ---------------------------------------------------------------------------
  // The table.

  datatype Row = Row(
    leaseId: string, jobType: string, status: Status, createdAt: real, updatedAt: real, expiresAt: real)

  // lease_id is the primary key.
  ghost predicate Keyed(rows: set<Row>) {
    forall r, s | r in rows && s in rows && r.leaseId == s.leaseId :: r == s
  }

  function RequestOf(r: Row): Request { Request(r.jobType, r.status, r.expiresAt) }

  // The dictionary a table stands for.
  ghost function View(rows: set<Row>): (m: Store)
    requires Keyed(rows)
    ensures m.Keys == set r | r in rows :: r.leaseId
    ensures forall r | r in rows :: r.leaseId in m && m[r.leaseId] == RequestOf(r)
  {
    map r | r in rows :: r.leaseId := RequestOf(r)
  }

  // Counting rows is counting keys.
  lemma {:induction false} CountsAgree(rows: set<Row>, ids: set<string>)
    requires Keyed(rows)
    requires forall r | r in rows :: r.leaseId in ids
    requires forall id | id in ids :: exists r :: r in rows && r.leaseId == id
    ensures |rows| == |ids|
  {
    if rows == {} {
      assert ids == {};
    } else {
      var r :| r in rows;
      forall id | id in ids - {r.leaseId} ensures exists q :: q in rows - {r} && q.leaseId == id {
        var q :| q in rows && q.leaseId == id;
        assert q in rows - {r};
      }
      CountsAgree(rows - {r}, ids - {r.leaseId});
    }
  }

  lemma DictionaryStats(requests: Store, reason: Reason)
    ensures
      Stats(reason,
            |set id | id in requests && requests[id].status == Running|,
            |set id | id in requests && requests[id].status == Waiting &&
                ParseKind(requests[id].jobType) == Some(Ffmpeg)|,
            |set id | id in requests && requests[id].status == Waiting && requests[id].jobType == "transcript"|)
      == StatsOf(ParsesAsFfmpeg, requests, reason)
  {
    hide ParseKind;
    assert RunningIds(requests) == set id | id in requests && requests[id].status == Running;
    assert WaitingFfmpegIds(ParsesAsFfmpeg, requests)
        == set id | id in requests && requests[id].status == Waiting && ParseKind(requests[id].jobType) == Some(Ffmpeg);
    hide RunningIds, WaitingFfmpegIds;
  }

  lemma TableStats(rows: set<Row>, reason: Reason)
    requires Keyed(rows)
    ensures
      Stats(reason,
            |set r | r in rows && r.status == Running|,
            |set r | r in rows && r.status == Waiting && r.jobType == "ffmpeg"|,
            |set r | r in rows && r.status == Waiting && r.jobType == "transcript"|)
      == StatsOf(IsExactlyFfmpeg, View(rows), reason)
  {
    hide View, RunningIds, WaitingFfmpegIds, WaitingTranscriptIds;
    RunningCount(rows);
    FfmpegCount(rows);
    TranscriptCount(rows);
  }

  lemma RunningCount(rows: set<Row>)
    requires Keyed(rows)
    ensures |set r | r in rows && r.status == Running| == |RunningIds(View(rows))|
  {
    hide View;
    CountsAgree((set r | r in rows && r.status == Running), RunningIds(View(rows)));
  }

  lemma FfmpegCount(rows: set<Row>)
    requires Keyed(rows)
    ensures |set r | r in rows && r.status == Waiting && r.jobType == "ffmpeg"|
         == |WaitingFfmpegIds(IsExactlyFfmpeg, View(rows))|
  {
    hide View;
    var waiting := set r | r in rows && r.status == Waiting && r.jobType == "ffmpeg";
    CountsAgree(waiting, WaitingFfmpegIds(IsExactlyFfmpeg, View(rows)));
  }

  lemma TranscriptCount(rows: set<Row>)
    requires Keyed(rows)
    ensures |set r | r in rows && r.status == Waiting && r.jobType == "transcript"|
         == |WaitingTranscriptIds(View(rows))|
  {
    hide View;
    var waiting := set r | r in rows && r.status == Waiting && r.jobType == "transcript";
    CountsAgree(waiting, WaitingTranscriptIds(View(rows)));
  }

  // One row replaced or inserted, the others unchanged: the dictionary is updated at one key.
  lemma Written(rows: set<Row>, r: Row)
    requires Keyed(rows)
    ensures
      var rows' := (set q | q in rows && q.leaseId != r.leaseId) + {r};
      Keyed(rows') && View(rows') == View(rows)[r.leaseId := RequestOf(r)]
  {
    hide View;
    var rows' := (set q | q in rows && q.leaseId != r.leaseId) + {r};
    assert View(rows').Keys == View(rows).Keys + {r.leaseId};
    forall id | id in View(rows') ensures View(rows')[id] == View(rows)[r.leaseId := RequestOf(r)][id] {
      var q :| q in rows' && q.leaseId == id;
    }
  }

  // The rows of one key removed: the dictionary loses that key.
  lemma Removed(rows: set<Row>, id: string)
    requires Keyed(rows)
    ensures
      var rows' := set q | q in rows && q.leaseId != id;
      Keyed(rows') && View(rows') == View(rows) - {id}
  {
    hide View;
    var rows' := set q | q in rows && q.leaseId != id;
    assert View(rows').Keys == View(rows).Keys - {id};
  }

  class DatabaseSlotBackend {
    const capacity: int
    var rows: set<Row>

    ghost predicate Valid() reads this { Keyed(rows) }

    constructor (capacity: int)
      ensures Valid() && this.capacity == capacity && View(rows) == map[]
    {
      this.capacity := capacity;
      rows := {};
    }

    method PurgeExpired(now: real)
      requires Valid()
      modifies this
      ensures Valid() && View(rows) == Live(old(View(rows)), now)
    {
      hide View;
      rows := set r | r in rows && !(r.expiresAt <= now);
      assert View(rows).Keys == Live(old(View(rows)), now).Keys;
    }

    method CountStats(reason: Reason) returns (stats: Stats)
      requires Valid()
      ensures stats == StatsOf(IsExactlyFfmpeg, View(rows), reason)
    {
      stats := Stats(reason,
        |set r | r in rows && r.status == Running|,
        |set r | r in rows && r.status == Waiting && r.jobType == "ffmpeg"|,
        |set r | r in rows && r.status == Waiting && r.jobType == "transcript"|);
      TableStats(rows, reason);
    }

    method WaitStarted(jobType: string, id: string, lease: real, purgeAt: real, leaseAt: real) returns (stats: Stats)
      requires Valid()
      modifies this
      ensures Valid()
      ensures (View(rows), Output(false, stats)) ==
        Step(IsExactlyFfmpeg, capacity, old(View(rows)), Call(WaitStart(jobType, id, lease), purgeAt, leaseAt))
    {
      hide ParsesAsFfmpeg, StatsOf, View, RunningIds, OtherFfmpegWaits;
      PurgeExpired(purgeAt);
      UpdateOrCreate(id, jobType, Waiting, leaseAt, leaseAt + lease);
      stats := CountStats(Reason.WaitStarted);
    }

    method WaitHeartbeat(id: string, lease: real, purgeAt: real, leaseAt: real) returns (renewed: bool, stats: Stats)
      requires Valid()
      modifies this
      ensures Valid()
      ensures (View(rows), Output(renewed, stats)) ==
        Step(IsExactlyFfmpeg, capacity, old(View(rows)), Call(WaitBeat(id, lease), purgeAt, leaseAt))
    {
      hide ParsesAsFfmpeg, StatsOf, View, RunningIds, OtherFfmpegWaits;
      PurgeExpired(purgeAt);
      renewed := RenewWhere(id, Waiting, leaseAt, leaseAt + lease);
      stats := CountStats(Reason.WaitHeartbeat);
    }

    method WaitFinished(id: string, purgeAt: real) returns (stats: Stats)
      requires Valid()
      modifies this
      ensures Valid()
      ensures (View(rows), Output(false, stats)) ==
        Step(IsExactlyFfmpeg, capacity, old(View(rows)), Call(WaitFinish(id), purgeAt, purgeAt))
      ensures forall v :: v in View(rows) <==>
        && v in old(View(rows)) && old(View(rows))[v].expiresAt > purgeAt
        && !(v == id && old(View(rows))[v].status == Waiting)
      ensures forall v | v in View(rows) :: View(rows)[v] == old(View(rows))[v]
    {
      hide ParsesAsFfmpeg, StatsOf, View, RunningIds, OtherFfmpegWaits;
      PurgeExpired(purgeAt);
      var found := Find(id);
      if found.Some? && found.value.status == Waiting {
        Delete(id);
      }
      stats := CountStats(Reason.WaitFinished);
    }

    method Acquire(jobType: string, id: string, lease: real, purgeAt: real, leaseAt: real)
      returns (ok: bool, stats: Stats)
      requires Valid()
      modifies this
      ensures Valid()
      ensures (View(rows), Output(ok, stats)) ==
        Step(IsExactlyFfmpeg, capacity, old(View(rows)), Call(Op.Acquire(jobType, id, lease), purgeAt, leaseAt))
    {
      hide ParsesAsFfmpeg, StatsOf, View, RunningIds, OtherFfmpegWaits;
      PurgeExpired(purgeAt);
      var inUse := CountRunning();
      var waitingFfmpeg := exists r | r in rows :: r.status == Waiting && r.jobType == "ffmpeg" && r.leaseId != id;
      WaitersAgree(rows, id);
      ok := false;
      var reason := CapacityFull;
      if inUse < capacity {
        if ParsesAsFfmpeg(jobType) || !waitingFfmpeg {
          UpdateOrCreate(id, jobType, Running, leaseAt, leaseAt + lease);
          ok := true;
          reason := Acquired;
        } else {
          reason := FfmpegWaiting;
        }
      }
      stats := CountStats(reason);
    }

    method Release(id: string, purgeAt: real) returns (stats: Stats)
      requires Valid()
      modifies this
      ensures Valid()
      ensures (View(rows), Output(false, stats)) ==
        Step(IsExactlyFfmpeg, capacity, old(View(rows)), Call(Op.Release(id), purgeAt, purgeAt))
    {
      hide ParsesAsFfmpeg, StatsOf, View, RunningIds, OtherFfmpegWaits;
      PurgeExpired(purgeAt);
      var found := Find(id);
      Delete(id);
      stats := CountStats(if found.Some? then Released else Missing);
    }

    method Heartbeat(id: string, lease: real, purgeAt: real, leaseAt: real) returns (renewed: bool, stats: Stats)
      requires Valid()
      modifies this
      ensures Valid()
      ensures (View(rows), Output(renewed, stats)) ==
        Step(IsExactlyFfmpeg, capacity, old(View(rows)), Call(Beat(id, lease), purgeAt, leaseAt))
    {
      hide ParsesAsFfmpeg, StatsOf, View, RunningIds, OtherFfmpegWaits;
      PurgeExpired(purgeAt);
      renewed := RenewWhere(id, Running, leaseAt, leaseAt + lease);
      stats := CountStats(Reason.Heartbeat);
    }

    method Snapshot(purgeAt: real) returns (stats: Stats)
      requires Valid()
      modifies this
      ensures Valid()
      ensures (View(rows), Output(false, stats)) ==
        Step(IsExactlyFfmpeg, capacity, old(View(rows)), Call(Look, purgeAt, purgeAt))
    {
      hide ParsesAsFfmpeg, StatsOf, View, RunningIds, OtherFfmpegWaits;
      PurgeExpired(purgeAt);
      stats := CountStats(Reason.Snapshot);
    }

    // filter(lease_id=…, status=…).update(…), reporting whether a row matched.
    method RenewWhere(id: string, status: Status, now: real, expiresAt: real) returns (updated: bool)
      requires Valid()
      modifies this
      ensures Valid()
      ensures updated <==> id in old(View(rows)) && old(View(rows))[id].status == status
      ensures View(rows) == if updated then Renew(old(View(rows)), id, expiresAt) else old(View(rows))
    {
      hide View;
      var found := Find(id);
      updated := found.Some? && found.value.status == status;
      if updated {
        Write(found.value.(updatedAt := now, expiresAt := expiresAt));
      }
    }

    method Find(id: string) returns (found: Option<Row>)
      requires Valid()
      ensures found.Some? <==> id in View(rows)
      ensures found.Some? ==>
          found.value in rows && found.value.leaseId == id && View(rows)[id] == RequestOf(found.value)
    {
      hide View;
      if r :| r in rows && r.leaseId == id {
        found := Some(r);
      } else {
        found := None;
      }
    }

    method Write(row: Row)
      requires Valid()
      modifies this
      ensures Valid() && View(rows) == old(View(rows))[row.leaseId := RequestOf(row)] && row in rows
    {
      Written(rows, row);
      rows := (set q | q in rows && q.leaseId != row.leaseId) + {row};
    }

    // The row of this key is overwritten but for its creation time, or created.
    method UpdateOrCreate(id: string, jobType: string, status: Status, now: real, expiresAt: real)
      requires Valid()
      modifies this
      ensures Valid() && View(rows) == old(View(rows))[id := Request(jobType, status, expiresAt)]
      ensures exists r ::
        && r in rows && r.leaseId == id && r.updatedAt == now
        && (forall q | q in old(rows) && q.leaseId == id :: r.createdAt == q.createdAt)
    {
      hide View;
      var found := Find(id);
      var row := match found
        case Some(r) => r.(jobType := jobType, status := status, updatedAt := now, expiresAt := expiresAt)
        case None => Row(id, jobType, status, now, now, expiresAt);
      Write(row);
    }

    method Delete(id: string)
      requires Valid()
      modifies this
      ensures Valid() && View(rows) == old(View(rows)) - {id}
    {
      Removed(rows, id);
      rows := set q | q in rows && q.leaseId != id;
    }

    method CountRunning() returns (n: nat)
      requires Valid()
      ensures n == |RunningIds(View(rows))|
    {
      n := |set r | r in rows && r.status == Running|;
      RunningCount(rows);
    }
  }

  lemma WaitersAgree(rows: set<Row>, id: string)
    requires Keyed(rows)
    ensures (exists r | r in rows :: r.status == Waiting && r.jobType == "ffmpeg" && r.leaseId != id)
        <==> OtherFfmpegWaits(IsExactlyFfmpeg, View(rows), id)
  {
    hide View;
    var waiters := WaitingFfmpegIds(IsExactlyFfmpeg, View(rows)) - {id};
    if r :| r in rows && r.status == Waiting && r.jobType == "ffmpeg" && r.leaseId != id {
      assert r.leaseId in waiters;
    }
    if waiters != {} {
      var i :| i in waiters;
      var r :| r in rows && r.leaseId == i;
      assert r.status == Waiting;
    }
  }
}

/** Recurring schedules: the catch-up loop, one scheduler pass over the due rows, and any number of
    scheduler processes and settings changes interleaved. Instants are integers in microseconds. */
module RecurringJobs {
  import opened Sets
  import opened Text

  const Second := 1_000_000

  datatype Schedule = Schedule(
    jobType: string, enabled: bool, intervalSeconds: nat, nextRunAt: int, lastRunAt: Option<int>)

  predicate KnownJobType(jobType: string) {
    Lower(Strip(jobType)) in {
      "check_for_episodes", "update_downloads", "download_episode", "download_single",
      "transcode_media", "generate_transcript", "generate_ocr", "retention_cleanup"
    }
  }

  // max(60, int(interval_seconds or 60)) seconds.
  function Interval(s: Schedule): (i: int)
    ensures i >= 60 * Second
  {
    Second * if s.intervalSeconds < 60 then 60 else s.intervalSeconds
  }

  // ---------------------------------------------------------------------------
  // The catch-up loop.

  function GridPoint(due: int, step: int, k: int): int { due + k * step }

  ghost predicate OnGrid(due: int, step: int, x: int) { exists k: int :: x == GridPoint(due, step, k) }

  // `r` is the least instant of the grid due + k * step (k >= 1) that is after the clock.
  ghost predicate LeastOnGridAfter(due: int, step: int, clock: int, r: int) {
    && (exists k :: k >= 1 && r == GridPoint(due, step, k))
    && r > clock
    && (forall k :: k >= 1 && GridPoint(due, step, k) > clock ==> r <= GridPoint(due, step, k))
  }

  function NextRun(due: int, step: int, clock: int): (r: int)
    requires step > 0
  {
    if clock < due then GridPoint(due, step, 1) else GridPoint(due, step, (clock - due) / step + 1)
  }

  lemma GridIsOrdered(due: int, step: int, j: int, k: int)
    requires step > 0 && j <= k
    ensures GridPoint(due, step, j) <= GridPoint(due, step, k)
    ensures j < k ==> GridPoint(due, step, j) + step <= GridPoint(due, step, k)
  {
    var d := k - j;
    assert k * step == j * step + d * step;
    if d >= 1 { assert d * step == step + (d - 1) * step; }
  }

  lemma GridComposes(due: int, step: int, j: int, k: int)
    ensures GridPoint(GridPoint(due, step, j), step, k) == GridPoint(due, step, j + k)
  {
    assert (j + k) * step == j * step + k * step;
  }

  lemma NextRunIsLeast(due: int, step: int, clock: int)
    requires step > 0
    ensures LeastOnGridAfter(due, step, clock, NextRun(due, step, clock))
  {
    var q := if clock < due then 0 else (clock - due) / step;
    var r := NextRun(due, step, clock);
    assert r == GridPoint(due, step, q + 1);
    GridIsOrdered(due, step, q, q + 1);
    if clock >= due {
      assert clock - due == step * q + (clock - due) % step;
      assert GridPoint(due, step, q) <= clock < GridPoint(due, step, q + 1) by {
        assert (q + 1) * step == step * q + step;
      }
    }
    forall k | k >= 1 && GridPoint(due, step, k) > clock ensures r <= GridPoint(due, step, k) {
      if k <= q { GridIsOrdered(due, step, k, q); } else { GridIsOrdered(due, step, q + 1, k); }
    }
  }

  lemma LeastIsUnique(due: int, step: int, clock: int, r: int, r': int)
    requires LeastOnGridAfter(due, step, clock, r) && LeastOnGridAfter(due, step, clock, r')
    ensures r == r'
  {
    var k :| k >= 1 && r == GridPoint(due, step, k);
    var k' :| k' >= 1 && r' == GridPoint(due, step, k');
  }

  method NextRunAfter(s: Schedule, due: int, clock: int) returns (nextRun: int)
    ensures LeastOnGridAfter(due, 1_000_000 * if s.intervalSeconds < 60 then 60 else s.intervalSeconds, clock, nextRun)
    ensures nextRun == NextRun(due, Interval(s), clock)
  {
    var interval := Interval(s);
    nextRun := due + interval;
    ghost var k := 1;
    while nextRun <= clock
      invariant k >= 1 && nextRun == GridPoint(due, interval, k)
      invariant k == 1 || GridPoint(due, interval, k - 1) <= clock
      decreases clock - nextRun
    {
      nextRun := nextRun + interval;
      k := k + 1;
      GridComposes(due, interval, k - 1, 1);
    }
    forall j | j >= 1 && GridPoint(due, interval, j) > clock ensures nextRun <= GridPoint(due, interval, j) {
      if j <= k - 1 { GridIsOrdered(due, interval, j, k - 1); } else { GridIsOrdered(due, interval, k, j); }
    }
    NextRunIsLeast(due, interval, clock);
    LeastIsUnique(due, interval, clock, nextRun, NextRun(due, interval, clock));
  }

  // The next run is after a pass's `now` exactly when no grid instant lies between the clock and it;
  // so always when the clock has reached `now`.
  lemma NextRunPassesNowIff(due: int, step: int, clock: int, now: int)
    requires step > 0 && due <= now
    ensures NextRun(due, step, clock) > now <==> !exists k :: k >= 1 && clock < GridPoint(due, step, k) <= now
    ensures clock >= now ==> NextRun(due, step, clock) > now
  {
    NextRunIsLeast(due, step, clock);
    var r := NextRun(due, step, clock);
    var k :| k >= 1 && r == GridPoint(due, step, k);
    hide NextRun;
  }

  // A `now` one interval ahead of the clock: the schedule that has just run is due again.
  lemma AheadOfTheClock()
    ensures NextRun(0, 60 * Second, 0) == 60 * Second
    ensures exists k :: k >= 1 && 0 < GridPoint(0, 60 * Second, k) <= 60 * Second
  {
    assert GridPoint(0, 60 * Second, 1) == 60 * Second;
    NextRunPassesNowIff(0, 60 * Second, 0, 60 * Second);
  }

  // ---------------------------------------------------------------------------
  // One transaction.

  type Table = map<nat, Schedule>

  predicate Due(s: Schedule, now: int) { s.enabled && s.nextRunAt <= now }

  predicate Fires(s: Schedule, now: int) { Due(s, now) && KnownJobType(s.jobType) }

  function Processed(s: Schedule, now: int, clock: int): Schedule {
    if !Due(s, now) then s
    else if !KnownJobType(s.jobType) then s.(enabled := false)
    else s.(lastRunAt := Some(now), nextRunAt := NextRun(s.nextRunAt, Interval(s), clock))
  }

  // A row that is disabled or not yet due stays as it is. One of an unknown type is switched off. Any other keeps its
  // settings, notes the pass, and moves on by a whole number of its intervals, one if the pass is punctual.
  lemma ProcessedFields(s: Schedule, now: int, clock: int)
    ensures
      var s' := Processed(s, now, clock);
      var step := 1_000_000 * if s.intervalSeconds < 60 then 60 else s.intervalSeconds;
      if !s.enabled || s.nextRunAt > now then s' == s && !Fires(s, now)
      else if !KnownJobType(s.jobType) then s' == s.(enabled := false) && !Fires(s, now)
      else
        && Fires(s, now)
        && s'.jobType == s.jobType && s'.enabled && s'.intervalSeconds == s.intervalSeconds && s'.lastRunAt == Some(now)
        && s'.nextRunAt > clock && (exists k :: k >= 1 && s'.nextRunAt == GridPoint(s.nextRunAt, step, k))
        && (clock < s.nextRunAt + step <==> s'.nextRunAt == s.nextRunAt + step)
  {
    hide KnownJobType;
    if Fires(s, now) {
      var step := Interval(s);
      NextRunIsLeast(s.nextRunAt, step, clock);
      var k :| k >= 1 && NextRun(s.nextRunAt, step, clock) == GridPoint(s.nextRunAt, step, k);
      assert GridPoint(s.nextRunAt, step, 1) == s.nextRunAt + step;
      GridIsOrdered(s.nextRunAt, step, 1, k);
      assert step == 1_000_000 * if s.intervalSeconds < 60 then 60 else s.intervalSeconds;
      hide NextRun, Interval, GridPoint;
    }
  }

  // The types a schedule can have, when spelt plainly.
  lemma KnownTypesAre(jobType: string)
    requires forall i | 0 <= i < |jobType| :: !('A' <= jobType[i] <= 'Z') && !IsSpace(jobType[i])
    ensures KnownJobType(jobType) <==>
      || jobType == "check_for_episodes" || jobType == "update_downloads" || jobType == "download_episode"
      || jobType == "download_single" || jobType == "transcode_media" || jobType == "generate_transcript"
      || jobType == "generate_ocr" || jobType == "retention_cleanup"
  {
    PlainTextStays(jobType);
    hide Lower, Strip;
  }

  // However they are spelt: capitals and white space around do not matter.
  lemma KnownInAnySpelling(jobType: string)
    ensures KnownJobType(jobType) <==> KnownJobType(Lower(Strip(jobType)))
  {
    StripThenLower(jobType);
    hide Lower, Strip;
  }

  lemma ProcessedAdvances(s: Schedule, now: int, clock: int)
    ensures
      var s' := Processed(s, now, clock);
      && (Fires(s, now) ==> s'.nextRunAt > s.nextRunAt && s'.nextRunAt > clock
                            && OnGrid(s.nextRunAt, Interval(s), s'.nextRunAt))
      && (!Fires(s, now) ==> s'.nextRunAt == s.nextRunAt)
      && Interval(s') == Interval(s)
      && (clock >= now ==> !Due(s', now))
  {
    hide KnownJobType;
    if Fires(s, now) {
      NextRunIsLeast(s.nextRunAt, Interval(s), clock);
      var k :| k >= 1 && NextRun(s.nextRunAt, Interval(s), clock) == GridPoint(s.nextRunAt, Interval(s), k);
      GridIsOrdered(s.nextRunAt, Interval(s), 0, k);
    }
  }

  // ---------------------------------------------------------------------------
  // One pass.

  function DueIds(table: Table, now: int): set<nat> { set id | id in table && Due(table[id], now) }

  // order_by("next_run_at", "id")
  predicate Before(table: Table, i: nat, j: nat) {
    && i in table && j in table
    && (table[i].nextRunAt < table[j].nextRunAt || (table[i].nextRunAt == table[j].nextRunAt && i < j))
  }

  class ScheduleTable {
    var table: Table

    // The first `limit` (at least one) due rows in order.
    method SelectDue(now: int, limit: int) returns (ids: seq<nat>)
      ensures forall i | 0 <= i < |ids| :: ids[i] in DueIds(table, now)
      ensures forall i, j | 0 <= i < j < |ids| :: Before(table, ids[i], ids[j])
      ensures forall i, j | 0 <= i < j < |ids| ::
        && ids[i] in table && ids[j] in table && table[ids[i]].nextRunAt <= table[ids[j]].nextRunAt
        && (table[ids[i]].nextRunAt == table[ids[j]].nextRunAt ==> ids[i] < ids[j])
      ensures |ids| <= if limit < 1 then 1 else limit
      ensures |ids| < (if limit < 1 then 1 else limit) ==> forall id | id in DueIds(table, now) :: id in ids
      ensures forall id, i | id in DueIds(table, now) && id !in ids && 0 <= i < |ids| :: Before(table, ids[i], id)
    {
      ids := [];
      var rest := DueIds(table, now);
      var bound := if limit < 1 then 1 else limit;
      while rest != {} && |ids| < bound
        invariant |ids| <= bound
        invariant rest <= DueIds(table, now)
        invariant forall i | 0 <= i < |ids| :: ids[i] in DueIds(table, now) && ids[i] !in rest
        invariant forall id | id in DueIds(table, now) && id !in rest :: id in ids
        invariant forall i, j | 0 <= i < j < |ids| :: Before(table, ids[i], ids[j])
        invariant forall id, i | id in rest && 0 <= i < |ids| :: Before(table, ids[i], id)
        decreases rest
      {
        var first := Least(rest, now);
        rest := rest - {first};
        ids := ids + [first];
      }
    }

    method Least(ids: set<nat>, ghost now: int) returns (least: nat)
      requires ids != {} && ids <= DueIds(table, now)
      ensures least in ids && forall id | id in ids && id != least :: Before(table, least, id)
    {
      least :| least in ids;
      var rest := ids - {least};
      while rest != {}
        invariant rest <= ids && least in ids && least !in rest
        invariant forall id | id in ids && id !in rest && id != least :: Before(table, least, id)
        decreases rest
      {
        var id :| id in rest;
        rest := rest - {id};
        if Before(table, id, least) { least := id; }
      }
    }

    // One transaction of the loop: re-read the row under its lock, then disable or fire it.
    method RunSchedule(id: nat, now: int, clock: int) returns (fired: bool)
      requires id in table
      modifies this
      ensures table == old(table)[id := Processed(old(table)[id], now, clock)]
      ensures fired <==> Fires(old(table)[id], now)
    {
      hide KnownJobType;
      var s := table[id];
      if !s.enabled || s.nextRunAt > now {
        return false;
      }
      if !KnownJobType(s.jobType) {
        table := table[id := s.(enabled := false)];
        return false;
      }
      var next := NextRunAfter(s, s.nextRunAt, clock);
      table := table[id := s.(lastRunAt := Some(now), nextRunAt := next)];
      fired := true;
    }

    // A pass that nothing interrupts; `clocks[i]` is the clock when the i-th row is rescheduled.
    // Exactly the selected rows change, and when the limit covers the due rows and the clock has
    // reached `now`, no enabled schedule is due at `now` afterwards.
    method EnqueueDue(now: int, limit: int, clocks: nat -> int) returns (enqueued: seq<nat>, ghost selected: seq<nat>)
      modifies this
      ensures table.Keys == old(table).Keys
      ensures forall id | id in table && id !in selected :: table[id] == old(table)[id]
      ensures forall i | 0 <= i < |selected| ::
        selected[i] in old(table) && table[selected[i]] == Processed(old(table)[selected[i]], now, clocks(i))
      ensures forall id :: id in enqueued <==> id in selected && Fires(old(table)[id], now)
      ensures |DueIds(old(table), now)| <= (if limit < 1 then 1 else limit) && (forall i: nat :: clocks(i) >= now) ==>
        DueIds(table, now) == {}
    {
      var ids := SelectDue(now, limit);
      selected := ids;
      enqueued := [];
      ghost var before := table;
      hide Processed, Fires, Due, Before, UpTo;
      NothingDoneYet(table, now, clocks);
      for i := 0 to |ids|
        invariant UpTo(before, table, ids[..i], enqueued, now, clocks)
      {
        assert ids[..i + 1] == ids[..i] + [ids[i]];
        SelectedOnce(before, now, ids, i);
        OneMoreRow(before, table, ids[..i], enqueued, now, clocks, ids[i]);
        var fired := RunSchedule(ids[i], now, clocks(i));
        if fired {
          enqueued := enqueued + [ids[i]];
        }
      }
      assert ids[..|ids|] == ids;
      hide DueIds;
      AllDone(before, table, ids, enqueued, now, clocks);
      if |DueIds(before, now)| <= (if limit < 1 then 1 else limit) && (forall i: nat :: clocks(i) >= now) {
        SelectionCovers(before, now, ids, limit);
        NothingIsDueAfter(before, table, ids, now, clocks);
      }
    }
  }

  // The rows `done` are processed, the others as before.
  ghost predicate UpTo(before: Table, table: Table, done: seq<nat>, enqueued: seq<nat>, now: int, clocks: nat -> int) {
    && table.Keys == before.Keys
    && (forall id | id in table && id !in done :: table[id] == before[id])
    && (forall j | 0 <= j < |done| :: done[j] in before && table[done[j]] == Processed(before[done[j]], now, clocks(j)))
    && (forall id :: id in enqueued <==> id in done && Fires(before[id], now))
  }

  lemma NothingDoneYet(table: Table, now: int, clocks: nat -> int)
    ensures UpTo(table, table, [], [], now, clocks)
  {}

  lemma AllDone(before: Table, table: Table, done: seq<nat>, enqueued: seq<nat>, now: int, clocks: nat -> int)
    requires UpTo(before, table, done, enqueued, now, clocks)
    ensures table.Keys == before.Keys
    ensures forall id | id in table && id !in done :: table[id] == before[id]
    ensures forall j | 0 <= j < |done| ::
      done[j] in before && table[done[j]] == Processed(before[done[j]], now, clocks(j))
    ensures forall id :: id in enqueued <==> id in done && Fires(before[id], now)
  {
    hide Processed, Fires;
  }

  lemma SelectedOnce(table: Table, now: int, ids: seq<nat>, i: nat)
    requires forall i | 0 <= i < |ids| :: ids[i] in DueIds(table, now)
    requires i < |ids| && forall j, k | 0 <= j < k < |ids| :: Before(table, ids[j], ids[k])
    ensures ids[i] in table && ids[i] !in ids[..i]
  {
    forall j | 0 <= j < i ensures ids[j] != ids[i] { assert Before(table, ids[j], ids[i]); }
  }

  lemma OneMoreRow(
    before: Table, table: Table, done: seq<nat>, enqueued: seq<nat>, now: int, clocks: nat -> int, id: nat)
    requires UpTo(before, table, done, enqueued, now, clocks) && id in before && id !in done
    ensures id in table && table[id] == before[id]
    ensures
      var table' := table[id := Processed(table[id], now, clocks(|done|))];
      UpTo(before, table', done + [id], if Fires(table[id], now) then enqueued + [id] else enqueued, now, clocks)
  {
    hide Processed, Fires;
  }

  lemma NothingIsDueAfter(before: Table, after: Table, ids: seq<nat>, now: int, clocks: nat -> int)
    requires after.Keys == before.Keys && forall i: nat :: clocks(i) >= now
    requires forall id | id in after && id !in ids :: after[id] == before[id]
    requires forall i | 0 <= i < |ids| :: ids[i] in before && after[ids[i]] == Processed(before[ids[i]], now, clocks(i))
    requires forall id | id in DueIds(before, now) :: id in ids
    ensures DueIds(after, now) == {}
  {
    forall id | id in after ensures !Due(after[id], now) {
      if id in ids {
        var i :| 0 <= i < |ids| && ids[i] == id;
        ProcessedAdvances(before[id], now, clocks(i));
      } else {
        assert id !in DueIds(before, now);
      }
    }
  }

  lemma SelectionCovers(table: Table, now: int, ids: seq<nat>, limit: int)
    requires forall i | 0 <= i < |ids| :: ids[i] in DueIds(table, now)
    requires forall i, j | 0 <= i < j < |ids| :: Before(table, ids[i], ids[j])
    requires |ids| < (if limit < 1 then 1 else limit) ==> forall id | id in DueIds(table, now) :: id in ids
    requires |DueIds(table, now)| <= if limit < 1 then 1 else limit
    ensures forall id | id in DueIds(table, now) :: id in ids
  {
    var chosen := Elements(ids);
    forall i, j | 0 <= i < j < |ids| ensures ids[i] != ids[j] { assert Before(table, ids[i], ids[j]); }
    DistinctLength(ids);
    if |ids| >= (if limit < 1 then 1 else limit) && chosen != DueIds(table, now) {
      assert chosen < DueIds(table, now);
      SubsetIsSmaller(chosen, DueIds(table, now));
    }
  }

  function Elements(ids: seq<nat>): set<nat> { set id | id in ids }

  lemma {:induction false} DistinctLength(ids: seq<nat>)
    requires forall i, j | 0 <= i < j < |ids| :: ids[i] != ids[j]
    ensures |Elements(ids)| == |ids|
  {
    if ids == [] {
      assert Elements(ids) == {};
    } else {
      var init, last := ids[..|ids| - 1], ids[|ids| - 1];
      DistinctLength(init);
      assert last !in Elements(init);
      assert ids == init + [last];
      assert Elements(ids) == Elements(init) + {last};
    }
  }

  // ---------------------------------------------------------------------------
  // Any number of scheduler processes and settings changes.

  datatype Firing = Firing(id: nat, due: int)

  datatype State = State(clock: int, table: Table, fired: seq<Firing>)

  datatype Action =
    | Add(id: nat, s: Schedule)
    | Run(id: nat, now: int)            // one transaction of a pass that started at `now`
    | Sync(id: nat, minutes: int)       // the settings page sets the interval
    | Tick(to: int)

  predicate Enabled(s: State, a: Action) {
    match a
    case Add(id, _) => id !in s.table
    case Run(id, now) => id in s.table && now <= s.clock
    case Sync(id, _) => id in s.table
    case Tick(to) => s.clock <= to
  }

  function Synced(s: Schedule, minutes: int, clock: int): Schedule {
    if minutes <= 0 then s.(enabled := false)
    else
      var seconds := if minutes * 60 < 60 then 60 else minutes * 60;
      var s' := s.(enabled := true, intervalSeconds := seconds);
      if s.nextRunAt <= clock || s.intervalSeconds != seconds then s'.(nextRunAt := clock + seconds * Second) else s'
  }

  function Apply(s: State, a: Action): State
    requires Enabled(s, a)
  {
    match a
    case Add(id, x) => s.(table := s.table[id := x])
    case Run(id, now) =>
      s.(table := s.table[id := Processed(s.table[id], now, s.clock)],
         fired := if Fires(s.table[id], now) then s.fired + [Firing(id, s.table[id].nextRunAt)] else s.fired)
    case Sync(id, minutes) => s.(table := s.table[id := Synced(s.table[id], minutes, s.clock)])
    case Tick(to) => s.(clock := to)
  }

  predicate Runs(s: State, actions: seq<Action>)
    decreases |actions|
  {
    actions == [] || (Enabled(s, actions[0]) && Runs(Apply(s, actions[0]), actions[1..]))
  }

  function After(s: State, actions: seq<Action>): State
    requires Runs(s, actions)
    decreases |actions|
  {
    if actions == [] then s else After(Apply(s, actions[0]), actions[1..])
  }

  ghost predicate Inv(s: State) {
    && (forall i | 0 <= i < |s.fired| ::
          var f := s.fired[i]; f.id in s.table && f.due < s.table[f.id].nextRunAt && f.due <= s.clock)
    && (forall i, j | 0 <= i < j < |s.fired| && s.fired[i].id == s.fired[j].id :: s.fired[i].due < s.fired[j].due)
  }

  lemma StepKeepsInv(s: State, a: Action)
    requires Inv(s) && Enabled(s, a)
    ensures Inv(Apply(s, a))
  {
    hide KnownJobType;
    if a.Run? { ProcessedAdvances(s.table[a.id], a.now, s.clock); }
    hide Processed;
  }

  lemma {:induction false} RunKeepsInv(s: State, actions: seq<Action>)
    requires Inv(s) && Runs(s, actions)
    ensures Inv(After(s, actions))
    decreases |actions|
  {
    if actions != [] {
      StepKeepsInv(s, actions[0]);
      RunKeepsInv(Apply(s, actions[0]), actions[1..]);
    }
  }

  // Main result: the instants for which one schedule creates work strictly increase, over any
  // interleaving of passes by any number of processes and of interval changes; so each due instant
  // creates work at most once, and never before it has come.
  lemma EachDueInstantFiresOnce(clock: int, table: Table, actions: seq<Action>, i: nat, j: nat)
    requires Runs(State(clock, table, []), actions)
    requires i <= j < |After(State(clock, table, []), actions).fired|
    requires
      var fired := After(State(clock, table, []), actions).fired;
      fired[i].id == fired[j].id
    ensures
      var end := After(State(clock, table, []), actions);
      && (i < j ==> end.fired[i].due < end.fired[j].due)
      && (end.fired[i].due == end.fired[j].due ==> i == j)
      && end.fired[j].due <= end.clock
  {
    RunKeepsInv(State(clock, table, []), actions);
  }

  // A transaction of a pass fires exactly for an enabled schedule of a known type whose time has come at the pass's
  // `now`, and for that time.
  lemma RunFiresIff(s: State, id: nat, now: int)
    requires Enabled(s, Run(id, now))
    ensures
      var x, s' := s.table[id], Apply(s, Run(id, now));
      && s'.fired == s.fired + (if x.enabled && x.nextRunAt <= now && KnownJobType(x.jobType)
                                then [Firing(id, x.nextRunAt)] else [])
      && s'.clock == s.clock && s'.table == s.table[id := s'.table[id]]
  {
    hide KnownJobType, Processed;
    assert s.fired + [] == s.fired;
  }

  // Saving the settings: no minutes switch the schedule off and leave its time. Otherwise it is on, with that interval;
  // its next run stays if the interval is the old one and the run is still to come, and is one interval away if not.
  // Saving the same settings again at once changes nothing.
  lemma SavingSettings(s: State, id: nat, minutes: int)
    requires Enabled(s, Sync(id, minutes))
    ensures
      var x, s' := s.table[id], Apply(s, Sync(id, minutes));
      var y := s'.table[id];
      && s' == s.(table := s.table[id := y]) && y.jobType == x.jobType && y.lastRunAt == x.lastRunAt
      && (minutes <= 0 ==> !y.enabled && y.intervalSeconds == x.intervalSeconds && y.nextRunAt == x.nextRunAt)
      && (minutes > 0 ==>
            && y.enabled && y.intervalSeconds == 60 * minutes && y.nextRunAt > s.clock
            && (x.nextRunAt > s.clock && x.intervalSeconds == 60 * minutes ==> y.nextRunAt == x.nextRunAt)
            && (x.nextRunAt <= s.clock || x.intervalSeconds != 60 * minutes ==>
                  y.nextRunAt == s.clock + minutes * 60_000_000))
      && Apply(s', Sync(id, minutes)) == s'
  {
    var s' := Apply(s, Sync(id, minutes));
    assert Apply(s', Sync(id, minutes)).table == s'.table;
  }

  // What the others do while a pass is under way does not make a schedule due again at the pass's `now`.
  lemma StaysUndue(s: State, a: Action, id: nat, now: int)
    requires Enabled(s, a) && id in s.table && now <= s.clock
    requires !Due(s.table[id], now) || (a.Run? && a.id == id && a.now == now)
    ensures id in Apply(s, a).table && !Due(Apply(s, a).table[id], now)
  {
    if a.Run? && a.id == id {
      ProcessedAdvances(s.table[id], a.now, s.clock);
      hide Processed, Fires;
    }
  }

  // A pass among other passes, settings changes and clock ticks: once it has come to every schedule due at its
  // `now`, none of the schedules it found is due at `now`.
  lemma {:induction false} PassLeavesNothingDue(s: State, actions: seq<Action>, now: int, id: nat)
    requires Runs(s, actions) && now <= s.clock && id in s.table
    requires Due(s.table[id], now) ==> Run(id, now) in actions
    ensures id in After(s, actions).table && !Due(After(s, actions).table[id], now)
    decreases |actions|
  {
    hide Due, Apply, Enabled;
    if actions != [] {
      var a := actions[0];
      KeepsTableAndClock(s, a, id);
      if !Due(s.table[id], now) || a == Run(id, now) {
        StaysUndue(s, a, id, now);
      } else {
        assert Run(id, now) in actions[1..];
      }
      PassLeavesNothingDue(Apply(s, a), actions[1..], now, id);
    }
  }

  lemma KeepsTableAndClock(s: State, a: Action, id: nat)
    requires Enabled(s, a) && id in s.table
    ensures id in Apply(s, a).table && s.clock <= Apply(s, a).clock
  {}

  // While nobody changes its settings, a schedule's next run never goes back, moves only along its
  // grid, and every instant it fires for is on that grid.
  lemma {:induction false} StaysOnGrid(s: State, actions: seq<Action>, id: nat)
    requires Runs(s, actions) && id in s.table
    requires forall a | a in actions :: !(a.Sync? && a.id == id)
    ensures id in After(s, actions).table && s.fired <= After(s, actions).fired
    ensures
      var x, y, step := s.table[id], After(s, actions).table[id], Interval(s.table[id]);
      Interval(y) == step && y.nextRunAt >= x.nextRunAt && OnGrid(x.nextRunAt, step, y.nextRunAt)
    ensures
      var x, end := s.table[id], After(s, actions);
      forall i | |s.fired| <= i < |end.fired| && end.fired[i].id == id ::
        x.nextRunAt <= end.fired[i].due < end.table[id].nextRunAt && OnGrid(x.nextRunAt, Interval(x), end.fired[i].due)
    decreases |actions|
  {
    hide KnownJobType, Processed;
    var x, step := s.table[id], Interval(s.table[id]);
    if actions == [] {
      assert x.nextRunAt == GridPoint(x.nextRunAt, step, 0);
    } else {
      assert actions[0] in actions;
      StepOnGrid(s, actions[0], id);
      var s' := Apply(s, actions[0]);
      StaysOnGrid(s', actions[1..], id);
      var end := After(s, actions);
      hide Apply, Interval, GridPoint;
      var from := s'.table[id].nextRunAt;
      GridIsTransitive(x.nextRunAt, step, from, end.table[id].nextRunAt);
      forall i | |s.fired| <= i < |end.fired| && end.fired[i].id == id
        ensures OnGrid(x.nextRunAt, step, end.fired[i].due) && x.nextRunAt <= end.fired[i].due < end.table[id].nextRunAt
      {
        if i >= |s'.fired| {
          GridIsTransitive(x.nextRunAt, step, from, end.fired[i].due);
        } else {
          assert end.fired[i] == s'.fired[i];
        }
      }
    }
  }

  lemma StepOnGrid(s: State, a: Action, id: nat)
    requires Enabled(s, a) && id in s.table && !(a.Sync? && a.id == id)
    ensures
      var s', x := Apply(s, a), s.table[id];
      && id in s'.table && s.fired <= s'.fired
      && Interval(s'.table[id]) == Interval(x)
      && s'.table[id].nextRunAt >= x.nextRunAt
      && OnGrid(x.nextRunAt, Interval(x), s'.table[id].nextRunAt)
      && (forall i | |s.fired| <= i < |s'.fired| && s'.fired[i].id == id ::
            s'.fired[i].due == x.nextRunAt && OnGrid(x.nextRunAt, Interval(x), x.nextRunAt) &&
                x.nextRunAt < s'.table[id].nextRunAt)
  {
    hide KnownJobType;
    var x := s.table[id];
    assert x.nextRunAt == GridPoint(x.nextRunAt, Interval(x), 0);
    if a.Run? { ProcessedAdvances(s.table[a.id], a.now, s.clock); }
    hide Processed;
  }

  lemma GridIsTransitive(a: int, step: int, b: int, c: int)
    requires OnGrid(a, step, b) && OnGrid(b, step, c)
    ensures OnGrid(a, step, c)
  {
    var j: int :| b == GridPoint(a, step, j);
    var k: int :| c == GridPoint(b, step, k);
    GridComposes(a, step, j, k);
  }
}

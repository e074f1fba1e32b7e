/** The lease lock that lets one FFmpeg conversion per target run at a time: a row per lock key holds
    `owner|expiry`; any number of executions acquire, renew and release it in short transactions, with
    the clock advancing and crashes possible anywhere. */
module TranscodeLock {
  import opened Text

  const LeaseSeconds: real := 300.0

  // The parsed row value; no expiry means an empty or unreadable one, which counts as expired.
  datatype LockRow = LockRow(owner: string, expires: Option<real>)

  const FreeRow := LockRow("", None)

  datatype Pc =
    | Ensuring  // about to create the row if it is missing
    | Trying    // about to read the row and perhaps take it
    | Inside    // the critical section
    | Leaving   // the stop flag is set; the row is not released yet
    | Out
    | Dead

  datatype Beater = Off | Idle | Armed

  // `renewedAt`: when the lease was taken or last renewed before its deadline.
  datatype Exec = Exec(owner: string, key: string, pc: Pc, beater: Beater, renewedAt: real)

  datatype State = State(now: real, rows: map<string, LockRow>, execs: map<nat, Exec>)

  datatype Action =
    | Enter(e: nat, owner: string, key: string)
    | Ensure(e: nat)
    | Try(e: nat, t0: real, t1: real)
    | Arm(e: nat)
    | Beat(e: nat, t1: real)
    | Leave(e: nat)
    | Release(e: nat)
    | Die(e: nat)
    | Tick(t1: real)

  function Deadline(x: Exec): real { x.renewedAt + LeaseSeconds }

  predicate Holds(x: Exec) { x.pc == Inside || x.pc == Leaving }

  predicate Expired(row: LockRow, t: real) { row.expires.None? || row.expires.value <= t }

  predicate MayTake(row: LockRow, owner: string, t: real) {
    row.owner == "" || row.owner == owner || Expired(row, t)
  }

  predicate Enabled(s: State, a: Action) {
    if a.Tick? then s.now <= a.t1
    else if a.Enter? then a.e !in s.execs && a.owner != ""
    else
      && a.e in s.execs
      && match a
         case Ensure(e) => s.execs[e].pc == Ensuring
         case Try(e, t0, t1) => s.execs[e].pc == Trying && s.now <= t0 <= t1
         case Arm(e) => s.execs[e].beater == Idle && s.execs[e].pc == Inside
         case Beat(e, t1) => s.execs[e].beater == Armed && s.now <= t1
         case Leave(e) => s.execs[e].pc == Inside
         case Release(e) => s.execs[e].pc == Leaving
         case _ => true
  }

  // `select_for_update().get(key=key)` finds its row.
  predicate RowFound(s: State, a: Action)
    requires Enabled(s, a)
  {
    a.Try? || a.Beat? || a.Release? ==> s.execs[a.e].key in s.rows
  }

  function Apply(s: State, a: Action): State
    requires Enabled(s, a) && RowFound(s, a)
  {
    match a
    case Tick(t1) => s.(now := t1)
    case Enter(e, owner, key) => s.(execs := s.execs[e := Exec(owner, key, Ensuring, Off, s.now)])
    case Ensure(e) =>
      var x := s.execs[e];
      s.(rows := if x.key in s.rows then s.rows else s.rows[x.key := FreeRow],
         execs := s.execs[e := x.(pc := Trying)])
    case Try(e, t0, t1) =>
      var x := s.execs[e];
      if MayTake(s.rows[x.key], x.owner, t0) then
        State(t1, s.rows[x.key := LockRow(x.owner, Some(t1 + LeaseSeconds))],
              s.execs[e := x.(pc := Inside, beater := Idle, renewedAt := t1)])
      else State(t1, s.rows, s.execs[e := x.(pc := Ensuring)])
    case Arm(e) => s.(execs := s.execs[e := s.execs[e].(beater := Armed)])
    case Beat(e, t1) =>
      var x := s.execs[e];
      var x' := x.(beater := Idle, renewedAt := if t1 < Deadline(x) then t1 else x.renewedAt);
      State(t1,
            if s.rows[x.key].owner == x.owner then s.rows[x.key := LockRow(x.owner, Some(t1 + LeaseSeconds))]
            else s.rows,
            s.execs[e := x'])
    case Leave(e) => s.(execs := s.execs[e := s.execs[e].(pc := Leaving)])
    case Release(e) =>
      var x := s.execs[e];
      s.(rows := if s.rows[x.key].owner == x.owner then s.rows[x.key := FreeRow] else s.rows,
         execs := s.execs[e := x.(pc := Out)])
    case Die(e) => s.(execs := s.execs[e := s.execs[e].(pc := Dead, beater := Off)])
  }

  // ---------------------------------------------------------------------------
  // What holds in every run, timely or not.

  // Ownership passes exactly when an execution tries on an empty, unreadable or expired row, and is given up exactly
  // when its owner leaves.
  lemma OwnershipPassesOnlyWhenFreeOrExpired(s: State, a: Action, key: string)
    requires Enabled(s, a) && RowFound(s, a) && key in s.rows
    ensures key in Apply(s, a).rows
    ensures
      var row, row' := s.rows[key], Apply(s, a).rows[key];
      && (row'.owner != row.owner <==>
            || (a.Try? && s.execs[a.e].key == key && row.owner != s.execs[a.e].owner
                && (row.owner == "" || row.expires.None? || row.expires.value <= a.t0))
            || (a.Release? && s.execs[a.e].key == key && row.owner == s.execs[a.e].owner && row.owner != ""))
      && (row'.owner != row.owner ==> row'.owner == if a.Try? then s.execs[a.e].owner else "")
  {}

  // A heartbeat or a release by an execution whose lease was taken over leaves every row as it was.
  lemma SuccessorIsUntouched(s: State, a: Action)
    requires Enabled(s, a) && RowFound(s, a) && (a.Beat? || a.Release?)
    requires s.rows[s.execs[a.e].key].owner != s.execs[a.e].owner
    ensures Apply(s, a).rows == s.rows
  {}

  // ---------------------------------------------------------------------------
  // Mutual exclusion.

  // No two executions use one lock key under one owner name.
  ghost predicate DistinctOwners(s: State) {
    forall e, f | e in s.execs && f in s.execs && s.execs[e].owner == s.execs[f].owner &&
        s.execs[e].key == s.execs[f].key ::
      e == f
  }

  predicate ExecInv(s: State, e: nat)
    requires e in s.execs
  {
    var x := s.execs[e];
    && x.owner != ""
    && (x.pc != Ensuring && x.pc != Dead ==> x.key in s.rows)
    && (x.beater != Off ==> x.key in s.rows && x.pc in {Inside, Leaving, Out})
    && (Holds(x) && s.now < Deadline(x) ==>
          s.rows[x.key].owner == x.owner && s.rows[x.key].expires.Some? && s.rows[x.key].expires.value >= Deadline(x))
  }

  ghost predicate Inv(s: State) { forall e | e in s.execs :: ExecInv(s, e) }

  lemma InvFindsRows(s: State, a: Action)
    requires Inv(s) && Enabled(s, a)
    ensures RowFound(s, a)
  {
    if a.Try? || a.Beat? || a.Release? { assert ExecInv(s, a.e); }
  }

  lemma StepKeepsExecInv(s: State, a: Action, e: nat)
    requires Enabled(s, a) && RowFound(s, a)
    requires e in s.execs && ExecInv(s, e)
    requires !a.Enter? && !a.Tick? && a.e != e ==>
        s.execs[a.e].owner != s.execs[e].owner || s.execs[a.e].key != s.execs[e].key
    ensures e in Apply(s, a).execs && ExecInv(Apply(s, a), e)
  {}

  lemma StepKeepsInv(s: State, a: Action)
    requires Inv(s) && DistinctOwners(s) && Enabled(s, a) && RowFound(s, a)
    ensures Inv(Apply(s, a))
  {
    var s' := Apply(s, a);
    forall e | e in s'.execs ensures ExecInv(s', e) {
      if e in s.execs { StepKeepsExecInv(s, a, e); }
    }
  }

  // Executions that hold the lock and whose renewals came before the deadline are alone on their key.
  lemma TimelyHoldersExclude(s: State, e: nat, f: nat)
    requires Inv(s) && DistinctOwners(s)
    requires e in s.execs && f in s.execs && s.execs[e].key == s.execs[f].key
    requires Holds(s.execs[e]) && s.now < Deadline(s.execs[e])
    requires Holds(s.execs[f]) && s.now < Deadline(s.execs[f])
    ensures e == f
  {
    assert ExecInv(s, e) && ExecInv(s, f);
  }

  predicate Runs(s: State, actions: seq<Action>)
    decreases |actions|
  {
    actions == [] || (Enabled(s, actions[0]) && RowFound(s, actions[0]) && Runs(Apply(s, actions[0]), actions[1..]))
  }

  function After(s: State, actions: seq<Action>): State
    requires Runs(s, actions)
    decreases |actions|
  {
    if actions == [] then s else After(Apply(s, actions[0]), actions[1..])
  }

  function Initial(now: real): State { State(now, map[], map[]) }

  // Owners and keys never change and executions are never forgotten.
  ghost predicate Extends(s: State, s': State) {
    forall e | e in s.execs ::
      && e in s'.execs
      && s'.execs[e].owner == s.execs[e].owner
      && s'.execs[e].key == s.execs[e].key
  }

  lemma {:induction false} OwnersPersist(s: State, actions: seq<Action>)
    requires Runs(s, actions)
    ensures Extends(s, After(s, actions))
    ensures DistinctOwners(After(s, actions)) ==> DistinctOwners(s)
    decreases |actions|
  {
    if actions != [] {
      assert Extends(s, Apply(s, actions[0]));
      OwnersPersist(Apply(s, actions[0]), actions[1..]);
    }
  }

  lemma {:induction false} RunKeepsInv(s: State, actions: seq<Action>)
    requires Inv(s) && Runs(s, actions) && DistinctOwners(After(s, actions))
    ensures Inv(After(s, actions))
    decreases |actions|
  {
    if actions != [] {
      OwnersPersist(s, actions);
      StepKeepsInv(s, actions[0]);
      RunKeepsInv(Apply(s, actions[0]), actions[1..]);
    }
  }

  // Main result: in every run with distinct owners, at most one execution per key is inside the
  // critical section before its lease's deadline, and every transaction finds its row.
  lemma AtMostOneTimelyHolder(now: real, actions: seq<Action>, e: nat, f: nat)
    requires Runs(Initial(now), actions) && DistinctOwners(After(Initial(now), actions))
    requires
      var s := After(Initial(now), actions);
      && e in s.execs && f in s.execs && s.execs[e].key == s.execs[f].key
      && s.execs[e].pc == Inside && s.now < Deadline(s.execs[e])
      && s.execs[f].pc == Inside && s.now < Deadline(s.execs[f])
    ensures e == f
  {
    RunKeepsInv(Initial(now), actions);
    TimelyHoldersExclude(After(Initial(now), actions), e, f);
  }

  lemma TransactionsFindTheirRow(now: real, actions: seq<Action>, a: Action)
    requires Runs(Initial(now), actions) && DistinctOwners(After(Initial(now), actions))
    requires Enabled(After(Initial(now), actions), a)
    ensures RowFound(After(Initial(now), actions), a)
  {
    RunKeepsInv(Initial(now), actions);
    InvFindsRows(After(Initial(now), actions), a);
  }

  // This execution has been in the lock, and the row is somebody else's now, or nobody's.
  ghost predicate TakenOver(s: State, e: nat) {
    && e in s.execs && s.execs[e].owner != "" && s.execs[e].pc != Ensuring && s.execs[e].pc != Trying
    && s.execs[e].key in s.rows && s.rows[s.execs[e].key].owner != s.execs[e].owner
  }

  lemma TakenOverStep(s: State, a: Action, e: nat)
    requires TakenOver(s, e) && DistinctOwners(s) && Enabled(s, a) && RowFound(s, a)
    requires DistinctOwners(Apply(s, a))
    ensures TakenOver(Apply(s, a), e)
    ensures !a.Tick? && a.e == e ==> Apply(s, a).rows == s.rows
  {
    assert !a.Tick? && !a.Enter? && a.e != e ==>
        s.execs[a.e].key != s.execs[e].key || s.execs[a.e].owner != s.execs[e].owner;
  }

  // Whatever a run does after a takeover, no step of the old holder changes any row any more.
  lemma {:induction false} OldHolderChangesNothing(s: State, actions: seq<Action>, a: Action)
    requires !a.Tick? && Runs(s, actions) && TakenOver(s, a.e)
    requires Enabled(After(s, actions), a) && RowFound(After(s, actions), a)
    requires DistinctOwners(Apply(After(s, actions), a))
    ensures Apply(After(s, actions), a).rows == After(s, actions).rows
    decreases |actions|
  {
    hide Apply, Enabled, TakenOver, DistinctOwners;
    OwnersStay(After(s, actions), a);
    OwnersPersist(s, actions);
    if actions == [] {
      TakenOverStep(s, a, a.e);
    } else {
      OwnersPersist(Apply(s, actions[0]), actions[1..]);
      TakenOverStep(s, actions[0], a.e);
      OldHolderChangesNothing(Apply(s, actions[0]), actions[1..], a);
    }
  }

  lemma OwnersStay(s: State, a: Action)
    requires Enabled(s, a) && RowFound(s, a) && DistinctOwners(Apply(s, a))
    ensures DistinctOwners(s)
  {
    var s' := Apply(s, a);
    forall e, f | e in s.execs && f in s.execs && s.execs[e].owner == s.execs[f].owner &&
        s.execs[e].key == s.execs[f].key
      ensures e == f
    {
      assert e in s'.execs && f in s'.execs && s'.execs[e].owner == s'.execs[f].owner &&
          s'.execs[e].key == s'.execs[f].key;
    }
  }

  // ---------------------------------------------------------------------------
  // The lock is granted, renewed and given back.

  // An execution that tries gets in exactly when the row is empty, its own, unreadable or expired; then the row is
  // its own for five minutes, and otherwise no row changes and it tries again.
  lemma TryGetsInIff(s: State, e: nat, t0: real, t1: real)
    requires Enabled(s, Try(e, t0, t1)) && RowFound(s, Try(e, t0, t1))
    ensures
      var x, s' := s.execs[e], Apply(s, Try(e, t0, t1));
      var row := s.rows[x.key];
      && (s'.execs[e].pc == Inside <==>
            row.owner == "" || row.owner == x.owner || row.expires.None? || row.expires.value <= t0)
      && (s'.execs[e].pc != Inside ==> s'.execs == s.execs[e := x.(pc := Ensuring)])
      && s'.rows == (if s'.execs[e].pc == Inside then s.rows[x.key := LockRow(x.owner, Some(t1 + 300.0))] else s.rows)
  {}

  // A heartbeat gives the holder of the row another five minutes.
  lemma BeatRenewsTheOwnRow(s: State, e: nat, t1: real)
    requires Enabled(s, Beat(e, t1)) && RowFound(s, Beat(e, t1))
    ensures
      var x, s' := s.execs[e], Apply(s, Beat(e, t1));
      && (s.rows[x.key].owner == x.owner ==> s'.rows == s.rows[x.key := LockRow(x.owner, Some(t1 + 300.0))])
      && (s.rows[x.key].owner != x.owner ==> s'.rows == s.rows)
      && (t1 < x.renewedAt + 300.0 ==> s'.execs[e].renewedAt == t1)
  {}

  // Once its holder has left, the next execution to try gets in at once.
  lemma ReleasedLockIsFree(s: State, e: nat, f: nat, t0: real, t1: real)
    requires Enabled(s, Release(e)) && RowFound(s, Release(e)) && s.rows[s.execs[e].key].owner == s.execs[e].owner
    requires f in s.execs && f != e && s.execs[f].key == s.execs[e].key
    requires s.execs[f].pc == Trying && s.now <= t0 <= t1
    ensures Runs(s, [Release(e), Try(f, t0, t1)])
    ensures
      var s' := After(s, [Release(e), Try(f, t0, t1)]);
      f in s'.execs && s'.execs[f].pc == Inside
  {
    var s1 := Apply(s, Release(e));
    var s2 := Apply(s1, Try(f, t0, t1));
    assert [Release(e), Try(f, t0, t1)][1..] == [Try(f, t0, t1)] && [Try(f, t0, t1)][1..] == [];
    assert Runs(s2, []) && After(s2, []) == s2;
    assert Runs(s1, [Try(f, t0, t1)]) && After(s1, [Try(f, t0, t1)]) == s2;
  }

  ghost predicate ExpiriesAreNear(s: State) {
    forall key | key in s.rows && s.rows[key].expires.Some? :: s.rows[key].expires.value <= s.now + 300.0
  }

  // In every reachable state no row is kept for more than five minutes from now.
  lemma {:induction false} RunKeepsExpiriesNear(s: State, actions: seq<Action>)
    requires ExpiriesAreNear(s) && Runs(s, actions)
    ensures ExpiriesAreNear(After(s, actions)) && s.now <= After(s, actions).now
    decreases |actions|
  {
    if actions != [] {
      assert ExpiriesAreNear(Apply(s, actions[0]));
      RunKeepsExpiriesNear(Apply(s, actions[0]), actions[1..]);
    }
  }

  // A dead execution, and what the row of its key may be by now: as it was left, or somebody else's.
  ghost predicate LeftBehind(s: State, e: nat, row: LockRow) {
    && e in s.execs && s.execs[e].pc == Dead && s.execs[e].beater == Off && s.execs[e].owner != ""
    && (s.execs[e].key in s.rows && s.rows[s.execs[e].key].owner == s.execs[e].owner ==> s.rows[s.execs[e].key] == row)
  }

  lemma {:induction false} DeadStaysLeftBehind(s: State, actions: seq<Action>, e: nat, row: LockRow)
    requires LeftBehind(s, e, row) && Runs(s, actions) && DistinctOwners(After(s, actions))
    ensures LeftBehind(After(s, actions), e, row)
    decreases |actions|
  {
    if actions != [] {
      OwnersPersist(s, actions);
      OwnersPersist(Apply(s, actions[0]), actions[1..]);
      var a := actions[0];
      assert !a.Tick? && !a.Enter? && a.e != e ==>
          s.execs[a.e].key != s.execs[e].key || s.execs[a.e].owner != s.execs[e].owner;
      assert LeftBehind(Apply(s, a), e, row);
      hide Apply, Enabled, LeftBehind, DistinctOwners;
      DeadStaysLeftBehind(Apply(s, a), actions[1..], e, row);
    }
  }

  // Main result: an execution that dies blocks its key until the expiry it wrote last, at most five minutes after its
  // death. Whoever tries after that, whatever happens in between, gets in unless a living execution has the lock.
  lemma DeadHolderBlocksAtMostOneLease(
    now: real, before: seq<Action>, after: seq<Action>, e: nat, f: nat, t0: real, t1: real)
    requires Runs(Initial(now), before) && Runs(After(Initial(now), before), after)
    requires
      var s := After(Initial(now), before);
      && DistinctOwners(After(s, after))
      && e in s.execs && s.execs[e].pc == Dead
      && Enabled(After(s, after), Try(f, t0, t1)) && RowFound(After(s, after), Try(f, t0, t1))
      && After(s, after).execs[f].key == s.execs[e].key
    ensures
      var s, end := After(Initial(now), before), After(After(Initial(now), before), after);
      var key := s.execs[e].key;
      && (key in s.rows && s.rows[key].expires.Some? ==> s.rows[key].expires.value <= s.now + 300.0)
      && (end.rows[key].owner == s.execs[e].owner
          && (key in s.rows && s.rows[key].expires.Some? ==> s.rows[key].expires.value <= t0) ==>
            Apply(end, Try(f, t0, t1)).execs[f].pc == Inside)
  {
    var s := After(Initial(now), before);
    OwnersPersist(s, after);
    RunKeepsInv(Initial(now), before);
    RunKeepsExpiriesNear(Initial(now), before);
    assert ExecInv(s, e);
    var key := s.execs[e].key;
    var row := if key in s.rows then s.rows[key] else FreeRow;
    DeadStaysLeftBehind(s, after, e, row);
    TryGetsInIff(After(s, after), f, t0, t1);
    hide Apply, Runs, After, Enabled;
  }

  lemma Prepend(s: State, a: Action, rest: seq<Action>, end: State) returns (actions: seq<Action>)
    requires Enabled(s, a) && RowFound(s, a) && Runs(Apply(s, a), rest) && After(Apply(s, a), rest) == end
    ensures Runs(s, actions) && After(s, actions) == end
  {
    actions := [a] + rest;
    assert actions[1..] == rest;
  }

  const AllTrying := map[
    0 := Exec("7", "k", Trying, Off, 0.0), 1 := Exec("7", "k", Trying, Off, 0.0), 2 := Exec("8", "k", Trying, Off, 0.0)]

  // Distinct owners are needed: two executions of one job share the row, and the first one to leave
  // frees it for a third execution while the second is still inside, however timely everybody is.
  lemma SharedOwnerBreaksExclusion() returns (actions: seq<Action>)
    ensures Runs(Initial(0.0), actions)
    ensures
      var s := After(Initial(0.0), actions);
      && s.now == 0.0 && {1, 2} <= s.execs.Keys
      && s.execs[1] == Exec("7", "k", Inside, Idle, 0.0) && s.execs[2] == Exec("8", "k", Inside, Idle, 0.0)
  {
    var s0 := State(0.0, map["k" := FreeRow], AllTrying);
    var s1 := Apply(s0, Try(0, 0.0, 0.0));
    var s2 := Apply(s1, Try(1, 0.0, 0.0));
    var s3 := Apply(s2, Leave(0));
    var s4 := Apply(s3, Release(0));
    var end := Apply(s4, Try(2, 0.0, 0.0));
    actions := [];
    actions := Prepend(s4, Try(2, 0.0, 0.0), actions, end);
    actions := Prepend(s3, Release(0), actions, end);
    actions := Prepend(s2, Leave(0), actions, end);
    actions := Prepend(s1, Try(1, 0.0, 0.0), actions, end);
    actions := Prepend(s0, Try(0, 0.0, 0.0), actions, end);
    actions := Arrivals(actions, end);
  }

  lemma Arrivals(rest: seq<Action>, end: State) returns (actions: seq<Action>)
    requires
      var s := State(0.0, map["k" := FreeRow], AllTrying);
      Runs(s, rest) && After(s, rest) == end
    ensures Runs(Initial(0.0), actions) && After(Initial(0.0), actions) == end
  {
    var s0 := Initial(0.0);
    var s1 := Apply(s0, Enter(0, "7", "k"));
    var s2 := Apply(s1, Enter(1, "7", "k"));
    var s3 := Apply(s2, Enter(2, "8", "k"));
    var s4 := Apply(s3, Ensure(0));
    var s5 := Apply(s4, Ensure(1));
    assert Apply(s5, Ensure(2)) == State(0.0, map["k" := FreeRow], AllTrying);
    actions := Prepend(s5, Ensure(2), rest, end);
    actions := Prepend(s4, Ensure(1), actions, end);
    actions := Prepend(s3, Ensure(0), actions, end);
    actions := Prepend(s2, Enter(2, "8", "k"), actions, end);
    actions := Prepend(s1, Enter(1, "7", "k"), actions, end);
    actions := Prepend(s0, Enter(0, "7", "k"), actions, end);
  }
}

/** FFmpeg post-processing over rows and files: a finished download's row moves to the converted file before
    the inputs are deleted. Any number of executions, duplicates included, interleave; an execution may
    crash between any two effects. */
module TranscodeFiles {
  import opened Sets
  import opened Text

  // parent / "stem.ext"
  datatype Path = Path(dir: string, stem: string, ext: string)

  datatype Row = Row(path: Path, downloaded: bool)

  // `deferred`: there is no row yet, it is written at the end under `key`. `screened`: a video that
  // still has to be screened, so no row is written here. `sources` empty: convert the row's own file.
  datatype Job = Job(key: string, uid: string, deferred: bool, screened: bool,
                     sources: seq<Path>, target: Option<Path>, ext: string)

  // What the lock key is made from: the row's number, or the paths as given with the item's number. Equal hashes
  // stand for equal texts.
  datatype LockKey = OfRow(key: string) | OfFiles(sources: seq<Path>, target: Option<Path>, uid: string)

  function LockOf(job: Job): LockKey {
    if job.deferred then OfFiles(job.sources, job.target, job.uid) else OfRow(job.key)
  }

  datatype Phase =
    | Waiting            // for the lock
    | Entered            // inside the lock
    | Checked            // the row does not show the target as current
    | Ready              // every input is there
    | Converted          // FFmpeg succeeded and wrote the target
    | Saved(next: nat)   // the row shows the target; inputs before `next` are dealt with

  datatype Exec = Exec(job: Job, sources: seq<Path>, cache: Path, target: Path, phase: Phase)

  datatype State = State(rows: map<string, Row>, files: set<Path>, execs: map<nat, Exec>)

  datatype Action =
    | Register(key: string, path: Path)           // a download worker saves a row for a downloaded file
    | AddFile(path: Path)
    | Start(x: nat, job: Job, target: Path)       // read the row, choose the target
    | Enter(x: nat)
    | Refresh(x: nat)                             // read the row again
    | Inspect(x: nat, fetched: bool, target: Path)  // look for the inputs, fetch them if need be
    | Convert(x: nat, ok: bool, wrote: bool)
    | Save(x: nat)
    | Delete(x: nat, removed: bool)
    | Finish(x: nat)
    | Crash(x: nat)

  // ---------------------------------------------------------------------------
  // Names for converted files.

  // .lower().lstrip(".")
  function CleanExt(ext: string): string { WithoutDots(Lower(ext)) }

  function WithoutDots(s: string): string { if s != "" && s[0] == '.' then WithoutDots(s[1..]) else s }

  function Candidate(source: Path, ext: string, k: nat): Path {
    Path(source.dir,
         source.stem + ".converted" + (if k == 0 then "" else "-" + Dec(k)),
         if CleanExt(ext) == "" then source.ext else CleanExt(ext))
  }

  // A converted file stays beside its source, is named after it, and has the extension asked for, with or without a
  // leading dot; the source's own if none was asked for.
  lemma ConvertedName(source: Path, ext: string, k: nat)
    requires ext == "" || ext[0] != '.'
    requires forall i | 0 <= i < |ext| :: !('A' <= ext[i] <= 'Z') && !IsSpace(ext[i])
    ensures
      var t := Candidate(source, ext, k);
      && t.dir == source.dir && source.stem + ".converted" <= t.stem && t != source
      && t.ext == (if ext == "" then source.ext else ext)
      && t == Candidate(source, "." + ext, k)
  {
    PlainTextStays(ext);
    assert Lower("." + ext) == "." + Lower(ext);
    assert (("." + ext)[1..]) == ext;
    hide Lower;
  }

  ghost predicate IsCandidate(source: Path, ext: string, t: Path) { exists k: nat :: t == Candidate(source, ext, k) }

  // Where a file fetched through the API is kept: a directory of the download's own.
  function CachePath(key: string, path: Path): Path { Path("/cache/" + key, path.stem, path.ext) }

  // Two downloads never share a fetched file, nor do two files of one download that differ in name or extension.
  lemma FetchedFilesAreApart(key: string, path: Path, key': string, path': Path)
    ensures CachePath(key, path) == CachePath(key', path') <==>
      key == key' && path.stem == path'.stem && path.ext == path'.ext
  {
    var a, b := "/cache/" + key, "/cache/" + key';
    assert a[|"/cache/"|..] == key && b[|"/cache/"|..] == key';
  }

  lemma CandidatesAreDistinct(source: Path, ext: string, j: nat, k: nat)
    requires Candidate(source, ext, j) == Candidate(source, ext, k)
    ensures j == k
  {
    var base := source.stem + ".converted";
    var a, b := Candidate(source, ext, j).stem, Candidate(source, ext, k).stem;
    if j > 0 { assert a[|base| + 1..] == Dec(j); DecValueOfDec(j); }
    if k > 0 { assert b[|base| + 1..] == Dec(k); DecValueOfDec(k); }
    assert (j == 0 ==> |a| == |base|) && (k == 0 ==> |b| == |base|);
  }

  function Taken(source: Path, ext: string, k: nat): (r: set<Path>) {
    set j | 0 <= j < k :: Candidate(source, ext, j)
  }

  lemma NextIsNotTaken(source: Path, ext: string, k: nat)
    ensures Candidate(source, ext, k) !in Taken(source, ext, k)
  {
    forall j: nat | j < k ensures Candidate(source, ext, j) != Candidate(source, ext, k) {
      if Candidate(source, ext, j) == Candidate(source, ext, k) { CandidatesAreDistinct(source, ext, j, k); }
    }
    hide Candidate;
  }

  lemma {:induction false} TakenSize(source: Path, ext: string, k: nat)
    ensures |Taken(source, ext, k)| == k
  {
    if k > 0 {
      TakenSize(source, ext, k - 1);
      NextIsNotTaken(source, ext, k - 1);
      hide Candidate;
      assert Taken(source, ext, k) == Taken(source, ext, k - 1) + {Candidate(source, ext, k - 1)};
      hide Taken;
    }
  }

  // ---------------------------------------------------------------------------
  // The steps.

  function SourcesOf(s: State, job: Job): seq<Path>
    requires job.sources == [] ==> job.key in s.rows
  {
    if job.sources != [] then job.sources else [s.rows[job.key].path]
  }

  // An explicit target is used as given. An implicit one is some candidate name: which one depends on the
  // files seen at the time, so every candidate is allowed.
  ghost predicate IsTarget(job: Job, source: Path, t: Path) {
    if job.target.Some? then t == job.target.value else IsCandidate(source, job.ext, t)
  }

  predicate Inside(e: Exec) { e.phase != Waiting }

  function Localised(sources: seq<Path>, cache: Path, files: set<Path>): (r: seq<Path>)
    ensures |r| == |sources| && forall i | 0 <= i < |r| :: r[i] == if sources[i] in files then sources[i] else cache
  {
    seq(|sources|, i requires 0 <= i < |sources| => if sources[i] in files then sources[i] else cache)
  }

  predicate AllPresent(paths: seq<Path>, files: set<Path>) { forall p | p in paths :: p in files }

  // What an execution's next step may be.
  ghost predicate MayAct(s: State, a: Action, e: Exec) {
    && (a.Enter? ==> e.phase.Waiting? && forall y | y in s.execs && Inside(s.execs[y]) ::
        LockOf(s.execs[y].job) != LockOf(e.job))
    && (a.Refresh? ==> e.phase.Entered?)
    && (a.Inspect? ==>
          && e.phase.Checked? && e.sources != []
          && (a.fetched ==> IsTarget(e.job, Localised(e.sources, e.cache, s.files)[0], a.target)))
    && (a.Convert? ==> e.phase.Ready?)
    && (a.Save? ==> e.phase.Converted? && (e.job.deferred || e.job.key in s.rows))
    && (a.Delete? ==> e.phase.Saved? && e.phase.next < |e.sources|)
    && (a.Finish? ==> e.phase.Saved? && e.phase.next == |e.sources|)
  }

  ghost predicate Enabled(s: State, a: Action) {
    match a
    case Register(key, path) => path in s.files
    case AddFile(path) => true
    case Start(x, job, target) =>
      && x !in s.execs
      && (if job.deferred then job.sources != [] else job.key in s.rows)
      && IsTarget(job, SourcesOf(s, job)[0], target)
    case _ => a.x in s.execs && MayAct(s, a, s.execs[a.x])
  }

  function Ended(s: State, x: nat): State { s.(execs := s.execs - {x}) }

  function Apply(s: State, a: Action): State
    requires Enabled(s, a)
  {
    match a
    case Register(key, path) => s.(rows := s.rows[key := Row(path, true)])
    case AddFile(path) => s.(files := s.files + {path})
    case Start(x, job, target) =>
      var sources := SourcesOf(s, job);
      var shown := if job.key in s.rows then s.rows[job.key].path else sources[0];
      s.(execs := s.execs[x := Exec(job, sources, CachePath(job.key, shown), target, Waiting)])
    case Enter(x) => s.(execs := s.execs[x := s.execs[x].(phase := Entered)])
    case Refresh(x) =>
      var e := s.execs[x];
      if !e.job.deferred && e.job.key in s.rows && s.rows[e.job.key].path == e.target && e.target in s.files then
        Ended(s, x)
      else
        s.(execs := s.execs[x := e.(phase := Checked)])
    case Inspect(x, fetched, target) =>
      var e := s.execs[x];
      if AllPresent(e.sources, s.files) then s.(execs := s.execs[x := e.(phase := Ready)])
      else if !e.job.deferred && e.target !in s.files && fetched then
        State(s.rows, s.files + {e.cache},
              s.execs[x := e.(sources := Localised(e.sources, e.cache, s.files), target := target, phase := Ready)])
      else Ended(s, x)
    case Convert(x, ok, wrote) =>
      var e := s.execs[x];
      if !ok then Ended(s.(files := s.files + if wrote then {e.target} else {}), x)
      else if e.job.deferred && e.job.screened then Ended(s.(files := s.files + {e.target}), x)
      else s.(files := s.files + {e.target}, execs := s.execs[x := e.(phase := Converted)])
    case Save(x) =>
      var e := s.execs[x];
      s.(rows := s.rows[e.job.key := Row(e.target, true)], execs := s.execs[x := e.(phase := Saved(0))])
    case Delete(x, removed) =>
      var e := s.execs[x];
      var source := e.sources[e.phase.next];
      s.(files := if source != e.target && removed then s.files - {source} else s.files,
         execs := s.execs[x := e.(phase := Saved(e.phase.next + 1))])
    case Finish(x) => Ended(s, x)
    case Crash(x) => Ended(s, x)
  }

  ghost predicate Runs(s: State, actions: seq<Action>)
    decreases |actions|
  {
    actions == [] || (Enabled(s, actions[0]) && Runs(Apply(s, actions[0]), actions[1..]))
  }

  ghost function After(s: State, actions: seq<Action>): State
    requires Runs(s, actions)
    decreases |actions|
  {
    if actions == [] then s else After(Apply(s, actions[0]), actions[1..])
  }

  // ---------------------------------------------------------------------------
  // What executions may do to each other and to rows.

  // A video still to be screened: the execution writes its target and hands over, without row or clean-up.
  predicate HandsOver(job: Job) { job.deferred && job.screened }

  // Inputs this execution deletes if it gets that far.
  predicate Claims(e: Exec, p: Path) { !HandsOver(e.job) && p in e.sources && p != e.target }

  // Inputs this execution may still delete.
  ghost predicate Doomed(e: Exec, p: Path) {
    e.phase.Saved? && p != e.target && exists i | e.phase.next <= i < |e.sources| :: e.sources[i] == p
  }

  // What one execution writes into a row is an input that the other one deletes.
  predicate Crossed(e: Exec, f: Exec) { !HandsOver(e.job) && Claims(f, e.target) }

  // Two executions for one row with one lock key, or neither deletes what the other writes.
  predicate Apart(s: State, x: nat, y: nat)
    requires x in s.execs && y in s.execs
  {
    var e, f := s.execs[x], s.execs[y];
    || x == y
    || (e.job.key == f.job.key && LockOf(e.job) == LockOf(f.job))
    || (!Crossed(e, f) && !Crossed(f, e))
  }

  // No other DOWNLOADED row names an input that the execution deletes.
  predicate Clear(s: State, x: nat, key: string)
    requires x in s.execs
  {
    key != s.execs[x].job.key && key in s.rows && s.rows[key].downloaded ==> !Claims(s.execs[x], s.rows[key].path)
  }

  // An execution that starts, or settles on its inputs, is apart from the others and clear of the other rows; a
  // download is not registered for a file that a conversion is deleting, or that one for another row will delete.
  ghost predicate Orderly(s: State, a: Action)
    requires Enabled(s, a)
  {
    && (a.Register? ==> forall x | x in s.execs ::
          if s.execs[x].job.key == a.key then !Doomed(s.execs[x], a.path) else !Claims(s.execs[x], a.path))
    && (a.Start? || a.Inspect? ==>
          var s' := Apply(s, a);
          a.x in s'.execs ==>
            && (forall y | y in s'.execs :: Apart(s', a.x, y) && Apart(s', y, a.x))
            && (forall key | key in s'.rows :: Clear(s', a.x, key)))
  }

  ghost predicate OrderlyRun(s: State, actions: seq<Action>)
    requires Runs(s, actions)
    decreases |actions|
  {
    actions != [] ==> Orderly(s, actions[0]) && OrderlyRun(Apply(s, actions[0]), actions[1..])
  }

  // ---------------------------------------------------------------------------
  // The invariant.

  predicate RowInv(s: State, key: string)
    requires key in s.rows
  {
    s.rows[key].downloaded ==> s.rows[key].path in s.files
  }

  ghost predicate ExecInv(s: State, x: nat)
    requires x in s.execs
  {
    var e := s.execs[x];
    && e.sources != []
    && (!e.job.deferred ==> e.job.key in s.rows)
    && (e.phase.Converted? || e.phase.Saved? ==> !HandsOver(e.job))
    && (e.phase.Converted? ==> e.target in s.files)
    && (e.phase.Saved? ==> e.phase.next <= |e.sources|)
    && (e.job.key in s.rows ==> !Doomed(e, s.rows[e.job.key].path))
  }

  ghost predicate Exclusive(s: State, x: nat, y: nat)
    requires x in s.execs && y in s.execs
  {
    Inside(s.execs[x]) && Inside(s.execs[y]) && LockOf(s.execs[x].job) == LockOf(s.execs[y].job) ==> x == y
  }

  ghost predicate Inv(s: State) {
    && (forall key | key in s.rows :: RowInv(s, key))
    && (forall x | x in s.execs :: ExecInv(s, x))
    && (forall x, y | x in s.execs && y in s.execs :: Exclusive(s, x, y) && Apart(s, x, y))
    && (forall x, key | x in s.execs && key in s.rows :: Clear(s, x, key))
  }

  predicate ActsInside(a: Action) { !a.Register? && !a.AddFile? && !a.Start? }

  lemma DoomedIsClaimed(s: State, x: nat, p: Path)
    requires x in s.execs && ExecInv(s, x)
    ensures Doomed(s.execs[x], p) ==> Inside(s.execs[x]) && Claims(s.execs[x], p)
  {}

  // Only a start, and a look for the inputs, set what an execution reads and writes.
  lemma StepKeepsAims(s: State, a: Action, x: nat)
    requires Enabled(s, a) && x in Apply(s, a).execs && !((a.Start? || a.Inspect?) && a.x == x)
    ensures
      && x in s.execs && Apply(s, a).execs[x].job == s.execs[x].job
      && Apply(s, a).execs[x].sources == s.execs[x].sources && Apply(s, a).execs[x].target == s.execs[x].target
  {
    hide IsTarget, CachePath;
  }

  lemma StepKeepsApart(s: State, a: Action, x: nat, y: nat)
    requires Enabled(s, a) && Orderly(s, a)
    requires x in Apply(s, a).execs && y in Apply(s, a).execs
    requires x in s.execs && y in s.execs ==> Apart(s, x, y)
    ensures Apart(Apply(s, a), x, y)
  {
    if !((a.Start? || a.Inspect?) && (a.x == x || a.x == y)) {
      StepKeepsAims(s, a, x);
      StepKeepsAims(s, a, y);
    }
    hide Apply, Enabled, Doomed, Clear;
  }

  lemma StepKeepsExclusion(s: State, a: Action, x: nat, y: nat)
    requires Enabled(s, a) && (x in s.execs && y in s.execs ==> Exclusive(s, x, y) && Exclusive(s, y, x))
    requires x in Apply(s, a).execs && y in Apply(s, a).execs
    ensures Exclusive(Apply(s, a), x, y)
  {
    hide IsTarget, Crossed, CachePath, LockOf;
  }

  // A row changes by Register, or by the Save of an execution for it.
  lemma StepKeepsOtherRows(s: State, a: Action, key: string)
    requires Enabled(s, a) && key in Apply(s, a).rows
    requires !(a.Register? && a.key == key) && !(a.Save? && s.execs[a.x].job.key == key)
    ensures key in s.rows && Apply(s, a).rows[key] == s.rows[key]
  {
    hide IsTarget, CachePath;
  }

  lemma StepKeepsClear(s: State, a: Action, x: nat, key: string)
    requires Inv(s) && Enabled(s, a) && Orderly(s, a)
    requires x in Apply(s, a).execs && key in Apply(s, a).rows
    ensures Clear(Apply(s, a), x, key)
  {
    if (a.Start? || a.Inspect?) && a.x == x {
    } else {
      StepKeepsAims(s, a, x);
      if a.Save? && s.execs[a.x].job.key == key {
        assert ExecInv(s, a.x) && Apart(s, a.x, x);
      } else if !a.Register? || a.key != key {
        StepKeepsOtherRows(s, a, key);
        assert Clear(s, x, key);
      }
      hide Inv, Enabled, Doomed, ExecInv;
    }
  }

  // A file that the actor does not claim stays.
  lemma UnclaimedFilesStay(s: State, a: Action, p: Path)
    requires Enabled(s, a) && p in s.files
    requires a.Delete? ==> ExecInv(s, a.x) && (!Claims(s.execs[a.x], p) || !Doomed(s.execs[a.x], p))
    ensures p in Apply(s, a).files
  {
    hide IsTarget, CachePath;
    if a.Delete? { assert s.execs[a.x].sources[s.execs[a.x].phase.next] in s.execs[a.x].sources; }
  }

  lemma StepKeepsRow(s: State, a: Action, key: string)
    requires Inv(s) && Enabled(s, a) && Orderly(s, a) && key in Apply(s, a).rows
    ensures RowInv(Apply(s, a), key)
  {
    if ActsInside(a) { assert ExecInv(s, a.x); }
    if a.Register? && a.key == key {
    } else if a.Save? && s.execs[a.x].job.key == key {
    } else {
      StepKeepsOtherRows(s, a, key);
      assert RowInv(s, key);
      if a.Delete? {
        assert Clear(s, a.x, key);
      }
      if s.rows[key].downloaded { UnclaimedFilesStay(s, a, s.rows[key].path); }
      hide Apply, Enabled;
    }
  }

  // What an execution needs from a step of another one, or of its surroundings: its own row does not come to name
  // what it is deleting, and what it has written is not deleted.
  ghost predicate LeavesAlone(s: State, s': State, e: Exec) {
    && (e.job.key in s.rows ==> e.job.key in s'.rows)
    && (e.job.key in s'.rows ==> !Doomed(e, s'.rows[e.job.key].path))
    && (e.phase.Converted? ==> e.target in s'.files)
  }

  lemma OtherStepsLeaveAlone(s: State, a: Action, y: nat)
    requires Enabled(s, a) && Orderly(s, a)
    requires y in s.execs && ExecInv(s, y) && ((!ActsInside(a) && !a.Start?) || a.x != y)
    requires ActsInside(a) ==> ExecInv(s, a.x) && Exclusive(s, a.x, y) && Apart(s, a.x, y)
    ensures LeavesAlone(s, Apply(s, a), s.execs[y])
  {
    hide IsTarget, Candidate, IsCandidate, CachePath, Doomed;
    var f := s.execs[y];
    if a.Delete? {
      if f.phase.Converted? { UnclaimedFilesStay(s, a, f.target); }
    } else if a.Save? {
      DoomedIsClaimed(s, y, s.execs[a.x].target);
    } else if a.Register? {
      DoomedIsClaimed(s, y, a.path);
    }
  }

  lemma StepKeepsOtherExec(s: State, a: Action, y: nat)
    requires Inv(s) && Enabled(s, a) && Orderly(s, a)
    requires y in s.execs && ((!ActsInside(a) && !a.Start?) || a.x != y)
    ensures y in Apply(s, a).execs && ExecInv(Apply(s, a), y)
  {
    hide IsTarget, Candidate, IsCandidate, CachePath;
    assert ExecInv(s, y);
    if ActsInside(a) {
      assert ExecInv(s, a.x) && Exclusive(s, a.x, y) && Apart(s, a.x, y);
    }
    OtherStepsLeaveAlone(s, a, y);
    hide Inv, Doomed, Orderly, MayAct, Exclusive, Apart;
    assert Apply(s, a).execs[y] == s.execs[y];
  }

  lemma StepKeepsOwnExec(s: State, a: Action)
    requires Enabled(s, a) && (a.Start? || ActsInside(a)) && (ActsInside(a) ==> ExecInv(s, a.x))
    requires a.x in Apply(s, a).execs
    ensures ExecInv(Apply(s, a), a.x)
  {
    hide IsTarget, CachePath;
  }

  lemma StepKeepsInv(s: State, a: Action)
    requires Inv(s) && Enabled(s, a) && Orderly(s, a)
    ensures Inv(Apply(s, a))
  {
    var s' := Apply(s, a);
    assert forall p, q | p in s.execs && q in s.execs :: Exclusive(s, p, q) && Apart(s, p, q);
    assert ActsInside(a) ==> ExecInv(s, a.x);
    forall key | key in s'.rows ensures RowInv(s', key) { StepKeepsRow(s, a, key); }
    forall x, key | x in s'.execs && key in s'.rows ensures Clear(s', x, key) { StepKeepsClear(s, a, x, key); }
    forall x, y | x in s'.execs && y in s'.execs ensures Exclusive(s', x, y) && Apart(s', x, y) {
      StepKeepsExclusion(s, a, x, y);
      StepKeepsApart(s, a, x, y);
    }
    forall y | y in s'.execs ensures ExecInv(s', y) {
      if (!ActsInside(a) && !a.Start?) || a.x != y { StepKeepsOtherExec(s, a, y); } else { StepKeepsOwnExec(s, a); }
    }
    hide Apply, Enabled, Orderly, ExecInv, RowInv, Clear, Apart, Exclusive;
  }

  lemma {:induction false} RunKeepsInv(s: State, actions: seq<Action>)
    requires Inv(s) && Runs(s, actions) && OrderlyRun(s, actions)
    ensures Inv(After(s, actions))
    decreases |actions|
  {
    if actions != [] {
      StepKeepsInv(s, actions[0]);
      RunKeepsInv(Apply(s, actions[0]), actions[1..]);
    }
  }

  const Empty := State(map[], {}, map[])

  // Main result: whatever interleaves and wherever executions crash, a row that says DOWNLOADED names a file
  // that exists.
  lemma DownloadedRowsHaveTheirFile(actions: seq<Action>, key: string)
    requires Runs(Empty, actions) && OrderlyRun(Empty, actions)
    requires key in After(Empty, actions).rows && After(Empty, actions).rows[key].downloaded
    ensures After(Empty, actions).rows[key].path in After(Empty, actions).files
  {
    RunKeepsInv(Empty, actions);
    assert RowInv(After(Empty, actions), key);
  }

  // ---------------------------------------------------------------------------
  // Duplicates of a job with an explicit target do nothing once the target is current.

  // The row shows `t`, and executions for the row all aim at `t` and have not passed the check inside the lock.
  ghost predicate Settled(s: State, key: string, t: Path) {
    && key in s.rows && s.rows[key] == Row(t, true) && t in s.files
    && forall x | x in s.execs && s.execs[x].job.key == key :: AimsAt(s.execs[x], t)
  }

  predicate AimsAt(e: Exec, t: Path) {
    && !e.job.deferred && e.job.target == Some(t) && e.target == t
    && (e.phase.Waiting? || e.phase.Entered?)
  }

  // Only such executions start, and the item is not downloaded anew.
  ghost predicate OnlyDuplicates(a: Action, key: string, t: Path) {
    && (a.Register? ==> a.key != key)
    && (a.Start? && a.job.key == key ==> !a.job.deferred && a.job.target == Some(t))
  }

  // The step of an execution for the row changes nothing; that of another one leaves the row and its file.
  lemma SettledEffects(s: State, a: Action, key: string, t: Path)
    requires Settled(s, key, t) && Enabled(s, a) && OnlyDuplicates(a, key, t)
    requires ActsInside(a) ==> ExecInv(s, a.x) && Clear(s, a.x, key)
    ensures
      var s' := Apply(s, a);
      && key in s'.rows && s'.rows[key] == Row(t, true) && t in s'.files
      && (!a.Register? && !a.AddFile? && !a.Start? && s.execs[a.x].job.key == key ==>
            s'.rows == s.rows && s'.files == s.files)
  {
    hide IsTarget, Candidate, IsCandidate, CachePath, Doomed;
    if ActsInside(a) { assert s.execs[a.x].job.key == key ==> AimsAt(s.execs[a.x], t); }
    UnclaimedFilesStay(s, a, t);
  }

  lemma SettledExecs(s: State, a: Action, key: string, t: Path, x: nat)
    requires Settled(s, key, t) && Enabled(s, a) && OnlyDuplicates(a, key, t)
    requires x in Apply(s, a).execs && Apply(s, a).execs[x].job.key == key
    ensures AimsAt(Apply(s, a).execs[x], t)
  {
    hide Candidate, IsCandidate, CachePath;
    assert x in s.execs && s.execs[x].job.key == key ==> AimsAt(s.execs[x], t);
  }

  lemma SettledStep(s: State, a: Action, key: string, t: Path)
    requires Inv(s) && Settled(s, key, t)
    requires Enabled(s, a) && OnlyDuplicates(a, key, t)
    ensures Settled(Apply(s, a), key, t)
    ensures !a.Register? && !a.AddFile? && !a.Start? && s.execs[a.x].job.key == key ==>
              Apply(s, a).rows == s.rows && Apply(s, a).files == s.files
  {
    assert ActsInside(a) ==> ExecInv(s, a.x) && Clear(s, a.x, key);
    SettledEffects(s, a, key, t);
    forall x | x in Apply(s, a).execs && Apply(s, a).execs[x].job.key == key ensures AimsAt(Apply(s, a).execs[x], t) {
      SettledExecs(s, a, key, t, x);
    }
    hide Inv, ExecInv, Apply, Enabled, AimsAt;
  }

  lemma {:induction false} SettledForGood(s: State, actions: seq<Action>, key: string, t: Path)
    requires Inv(s) && Settled(s, key, t)
    requires Runs(s, actions) && OrderlyRun(s, actions)
    requires forall a | a in actions :: OnlyDuplicates(a, key, t)
    ensures Settled(After(s, actions), key, t)
    decreases |actions|
  {
    if actions != [] {
      SettledStep(s, actions[0], key, t);
      StepKeepsInv(s, actions[0]);
      SettledForGood(Apply(s, actions[0]), actions[1..], key, t);
    }
  }

  // The execution that saves the row settles it, apart from its own deletions.
  lemma FinishSettles(s: State, x: nat, key: string, t: Path)
    requires Inv(s) && Enabled(s, Finish(x)) && s.execs[x].job.key == key
    requires key in s.rows && s.rows[key] == Row(t, true)
    requires forall y | y in s.execs && s.execs[y].job.key == key ::
               !s.execs[y].job.deferred && s.execs[y].job.target == Some(t) && s.execs[y].target == t
    ensures Settled(Apply(s, Finish(x)), key, t)
  {
    assert RowInv(s, key) && ExecInv(s, x);
    forall y | y in s.execs && y != x && s.execs[y].job.key == key ensures !Inside(s.execs[y]) {
      assert ExecInv(s, y) && Exclusive(s, x, y);
    }
  }

  // ---------------------------------------------------------------------------
  // A duplicate without a row passes neither check: what stops it is a missing input.

  predicate OnlyBy(actions: seq<Action>, x: nat) { forall a | a in actions :: ActsInside(a) && a.x == x }

  // FFmpeg runs in this execution, and writes the target.
  ghost predicate Rewrites(s: State, actions: seq<Action>, x: nat) {
    OnlyBy(actions, x) && Runs(s, actions) && exists a :: a in actions && a.Convert? && (a.ok || a.wrote)
  }

  // Inside the lock, on its way to FFmpeg, with an input missing; or over.
  predicate Stuck(s: State, x: nat) {
    x in s.execs ==>
      && s.execs[x].job.deferred && (s.execs[x].phase.Entered? || s.execs[x].phase.Checked?)
      && !AllPresent(s.execs[x].sources, s.files)
  }

  lemma {:induction false} StuckChangesNothing(s: State, actions: seq<Action>, x: nat)
    requires Stuck(s, x) && Runs(s, actions) && OnlyBy(actions, x)
    ensures After(s, actions).rows == s.rows && After(s, actions).files == s.files
    ensures forall a | a in actions :: !a.Convert?
    decreases |actions|
  {
    if actions != [] {
      var s' := Apply(s, actions[0]);
      assert ActsInside(actions[0]) && actions[0].x == x;
      assert Stuck(s', x) && s'.rows == s.rows && s'.files == s.files && !actions[0].Convert?;
      assert forall a | a in actions[1..] :: a in actions;
      StuckChangesNothing(s', actions[1..], x);
      assert actions == [actions[0]] + actions[1..];
    }
  }

  // It converts again, over its target and whatever the target is used for by then, if and only if all its inputs
  // are still there; otherwise it changes nothing.
  lemma DeferredDuplicateIff(s: State, x: nat)
    requires x in s.execs && s.execs[x].job.deferred && s.execs[x].phase.Entered? && s.execs[x].sources != []
    ensures (exists actions :: Rewrites(s, actions, x)) <==> AllPresent(s.execs[x].sources, s.files)
    ensures !AllPresent(s.execs[x].sources, s.files) ==>
      forall actions | OnlyBy(actions, x) && Runs(s, actions) ::
        After(s, actions).rows == s.rows && After(s, actions).files == s.files
  {
    var e := s.execs[x];
    if AllPresent(e.sources, s.files) {
      var s1 := s.(execs := s.execs[x := e.(phase := Checked)]);
      var s2 := s.(execs := s.execs[x := e.(phase := Ready)]);
      assert Apply(s, Refresh(x)).execs == s1.execs;
      assert Apply(s1, Inspect(x, false, e.target)).execs == s2.execs;
      var a := Convert(x, true, true);
      assert Runs(Apply(s2, a), []);
      hide AllPresent;
      var actions := Prepend(s2, a, [], Apply(s2, a));
      actions := Prepend(s1, Inspect(x, false, e.target), actions, Apply(s2, a));
      actions := Prepend(s, Refresh(x), actions, Apply(s2, a));
      assert a in actions && Rewrites(s, actions, x);
    } else {
      forall actions | OnlyBy(actions, x) && Runs(s, actions)
        ensures After(s, actions).rows == s.rows && After(s, actions).files == s.files && !Rewrites(s, actions, x)
      {
        StuckChangesNothing(s, actions, x);
      }
    }
  }

  // ---------------------------------------------------------------------------
  // The conditions are exact.

  lemma Prepend(s: State, a: Action, rest: seq<Action>, end: State) returns (actions: seq<Action>)
    requires Enabled(s, a) && Runs(Apply(s, a), rest) && After(Apply(s, a), rest) == end
    ensures Runs(s, actions) && After(s, actions) == end
    ensures actions == [a] + rest
  {
    actions := [a] + rest;
    assert actions[1..] == rest;
  }

  predicate OnlyDeletes(actions: seq<Action>) { forall a | a in actions :: a.Delete? }

  ghost predicate DeletesLose(s: State, actions: seq<Action>, p: Path) {
    OnlyDeletes(actions) && Runs(s, actions) && p !in After(s, actions).files
  }

  // Deletions leave the rows as they are and take only doomed files.
  lemma {:induction false} DeletesTakeTheDoomed(s: State, actions: seq<Action>, p: Path)
    requires OnlyDeletes(actions) && Runs(s, actions)
    ensures After(s, actions).rows == s.rows
    ensures p in s.files && (forall x | x in s.execs :: !Doomed(s.execs[x], p)) ==> p in After(s, actions).files
    decreases |actions|
  {
    if actions != [] {
      var a := actions[0];
      assert a in actions;
      OneDelete(s, a, p);
      assert forall b | b in actions[1..] :: b in actions;
      hide Doomed, Apply, Enabled;
      DeletesTakeTheDoomed(Apply(s, a), actions[1..], p);
    }
  }

  lemma OneDelete(s: State, a: Action, p: Path)
    requires a.Delete? && Enabled(s, a)
    ensures Apply(s, a).rows == s.rows && Apply(s, a).execs.Keys == s.execs.Keys
    ensures p in s.files && (forall x | x in s.execs :: !Doomed(s.execs[x], p)) ==>
              p in Apply(s, a).files && forall x | x in Apply(s, a).execs :: !Doomed(Apply(s, a).execs[x], p)
  {
    var e, s' := s.execs[a.x], Apply(s, a);
    assert !Doomed(e, p) ==> p == e.target || e.sources[e.phase.next] != p;
    forall x | x in s'.execs && !Doomed(s.execs[x], p) ensures !Doomed(s'.execs[x], p) {}
  }

  // An execution gets to delete what it has set out to delete.
  lemma {:induction false} DoomedIsDeleted(s: State, x: nat, p: Path, i: nat) returns (actions: seq<Action>)
    requires x in s.execs && s.execs[x].phase.Saved? && s.execs[x].phase.next <= i < |s.execs[x].sources|
    requires s.execs[x].sources[i] == p && p != s.execs[x].target
    ensures DeletesLose(s, actions, p) && forall a | a in actions :: a.x == x
    decreases i - s.execs[x].phase.next
  {
    var a := Delete(x, s.execs[x].phase.next == i);
    var s' := Apply(s, a);
    if s.execs[x].phase.next == i {
      actions := [];
      assert Runs(s', actions) && After(s', actions) == s';
    } else {
      actions := DoomedIsDeleted(s', x, p, i);
    }
    actions := Prepend(s, a, actions, After(s', actions));
  }

  // Deletions under way can take a file if and only if one of them has it among its inputs.
  lemma DeletedIff(s: State, p: Path)
    requires p in s.files
    ensures (exists actions :: DeletesLose(s, actions, p)) <==> exists x :: x in s.execs && Doomed(s.execs[x], p)
  {
    if actions :| DeletesLose(s, actions, p) {
      DeletesTakeTheDoomed(s, actions, p);
    }
    if x :| x in s.execs && Doomed(s.execs[x], p) {
      var i :| s.execs[x].phase.next <= i < |s.execs[x].sources| && s.execs[x].sources[i] == p;
      var actions := DoomedIsDeleted(s, x, p, i);
    }
  }

  // So a download registered for a row can lose its file to the clean-ups under way if and only if the file is
  // one of theirs, and the row goes on naming it.
  lemma RegisteredFileIsLostIff(s: State, key: string, p: Path)
    requires Enabled(s, Register(key, p))
    ensures
      var s' := Apply(s, Register(key, p));
      && s'.rows[key] == Row(p, true)
      && ((exists actions :: DeletesLose(s', actions, p) && After(s', actions).rows == s'.rows) <==>
          exists x :: x in s.execs && Doomed(s.execs[x], p))
  {
    var s' := Apply(s, Register(key, p));
    DeletedIff(s', p);
    if actions :| DeletesLose(s', actions, p) {
      DeletesTakeTheDoomed(s', actions, p);
    }
  }

  // Two executions for one row, about to enter different locks with nothing in their way.
  ghost predicate Poised(s: State, x: nat, y: nat) {
    && x != y && s.execs.Keys == {x, y}
    && s.execs[x].job.key == s.execs[y].job.key && LockOf(s.execs[x].job) != LockOf(s.execs[y].job)
    && Unhindered(s, s.execs[x]) && Unhindered(s, s.execs[y])
  }

  predicate Unhindered(s: State, e: Exec) {
    && e.phase == Waiting && e.sources != [] && AllPresent(e.sources, s.files)
    && !(e.job.deferred && e.job.screened)
    && (!e.job.deferred ==> e.job.key in s.rows && (s.rows[e.job.key].path == e.target ==> e.target !in s.files))
  }

  // Only these two act, without fetching inputs.
  predicate OnlyThese(actions: seq<Action>, x: nat, y: nat) {
    forall a | a in actions :: ByThese(a, x, y)
  }

  predicate ByThese(a: Action, x: nat, y: nat) {
    !a.Register? && !a.AddFile? && !a.Start? && (a.x == x || a.x == y) && (a.Inspect? ==> !a.fetched)
  }

  ghost predicate LosesFile(s: State, actions: seq<Action>, key: string) {
    && Runs(s, actions)
    && var end := After(s, actions);
       key in end.rows && end.rows[key].downloaded && end.rows[key].path !in end.files
  }

  // From waiting for the lock to the converted file.
  lemma GetsConverted(s: State, x: nat, rest: seq<Action>, end: State) returns (actions: seq<Action>)
    requires x in s.execs && Unhindered(s, s.execs[x])
    requires forall y | y in s.execs && Inside(s.execs[y]) :: LockOf(s.execs[y].job) != LockOf(s.execs[x].job)
    requires
      var e := s.execs[x];
      var s' := State(s.rows, s.files + {e.target}, s.execs[x := e.(phase := Converted)]);
      Runs(s', rest) && After(s', rest) == end
    ensures Runs(s, actions) && After(s, actions) == end
    ensures actions == [Enter(x), Refresh(x), Inspect(x, false, s.execs[x].target), Convert(x, true, true)] + rest
  {
    hide *;
    var e := s.execs[x];
    var s1 := s.(execs := s.execs[x := e.(phase := Entered)]);
    EntersAndChecks(s, x);
    var later := LooksAndConverts(s, x, rest, end);
    actions := Prepend(s1, Refresh(x), later, end);
    actions := Prepend(s, Enter(x), actions, end);
  }

  lemma EntersAndChecks(s: State, x: nat)
    requires x in s.execs && Unhindered(s, s.execs[x])
    requires forall y | y in s.execs && Inside(s.execs[y]) :: LockOf(s.execs[y].job) != LockOf(s.execs[x].job)
    ensures
      var e := s.execs[x];
      var s1, s2 := s.(execs := s.execs[x := e.(phase := Entered)]), s.(execs := s.execs[x := e.(phase := Checked)]);
      && Enabled(s, Enter(x)) && Apply(s, Enter(x)) == s1
      && Enabled(s1, Refresh(x)) && Apply(s1, Refresh(x)) == s2
  {
    var e := s.execs[x];
    var s1, s2 := s.(execs := s.execs[x := e.(phase := Entered)]), s.(execs := s.execs[x := e.(phase := Checked)]);
    assert Apply(s1, Refresh(x)).execs == s2.execs;
  }

  lemma LooksAndConverts(s: State, x: nat, rest: seq<Action>, end: State) returns (actions: seq<Action>)
    requires x in s.execs && Unhindered(s, s.execs[x])
    requires
      var e := s.execs[x];
      var s' := State(s.rows, s.files + {e.target}, s.execs[x := e.(phase := Converted)]);
      Runs(s', rest) && After(s', rest) == end
    ensures
      var s2 := s.(execs := s.execs[x := s.execs[x].(phase := Checked)]);
      Runs(s2, actions) && After(s2, actions) == end
    ensures actions == [Inspect(x, false, s.execs[x].target), Convert(x, true, true)] + rest
  {
    hide Runs, After;
    var e := s.execs[x];
    var s2, s3 := s.(execs := s.execs[x := e.(phase := Checked)]), s.(execs := s.execs[x := e.(phase := Ready)]);
    assert Apply(s2, Inspect(x, false, e.target)).execs == s3.execs;
    assert Apply(s3, Convert(x, true, true)).execs == s.execs[x := e.(phase := Converted)];
    actions := Prepend(s3, Convert(x, true, true), rest, end);
    actions := Prepend(s2, Inspect(x, false, e.target), actions, end);
  }

  lemma SavesAndDeletes(s: State, x: nat, y: nat) returns (actions: seq<Action>)
    requires x in s.execs && y in s.execs && x != y && s.execs[x].job.key == s.execs[y].job.key
    requires s.execs[x].phase == Converted && s.execs[y].phase == Converted && Crossed(s.execs[x], s.execs[y])
    requires forall z | z == x || z == y :: s.execs[z].job.deferred || s.execs[z].job.key in s.rows
    ensures OnlyThese(actions, x, y) && LosesFile(s, actions, s.execs[x].job.key)
  {
    var e, f := s.execs[x], s.execs[y];
    var s1 := Apply(s, Save(y));
    var s2 := Apply(s1, Save(x));
    var i :| 0 <= i < |f.sources| && f.sources[i] == e.target;
    var deletes := DoomedIsDeleted(s2, y, e.target, i);
    DeletesTakeTheDoomed(s2, deletes, e.target);
    hide Runs, After;
    var end := After(s2, deletes);
    assert end.rows == s2.rows;
    actions := Prepend(s1, Save(x), deletes, end);
    actions := Prepend(s, Save(y), actions, end);
  }

  // If what x writes is deleted by y, they can leave the row without its file: both convert, y saves, x saves,
  // y deletes.
  lemma CrossedJobsLoseTheFile(s: State, x: nat, y: nat) returns (actions: seq<Action>)
    requires Poised(s, x, y) && Crossed(s.execs[x], s.execs[y])
    ensures OnlyThese(actions, x, y) && LosesFile(s, actions, s.execs[x].job.key)
  {
    var e, f := s.execs[x], s.execs[y];
    var s1 := State(s.rows, s.files + {f.target}, s.execs[y := f.(phase := Converted)]);
    var s2 := State(s1.rows, s1.files + {e.target}, s1.execs[x := e.(phase := Converted)]);
    assert Unhindered(s1, e);
    actions := SavesAndDeletes(s2, x, y);
    hide Runs, After;
    var end := After(s2, actions);
    actions := GetsConverted(s1, x, actions, end);
    actions := GetsConverted(s, y, actions, end);
  }

  lemma {:induction false} TheseAreOrderly(s: State, actions: seq<Action>, x: nat, y: nat)
    requires Inv(s) && Runs(s, actions) && OnlyThese(actions, x, y)
    ensures OrderlyRun(s, actions)
    decreases |actions|
  {
    if actions != [] {
      var a := actions[0];
      assert ByThese(a, x, y);
      StepKeepsThemApart(s, a);
      StepKeepsInv(s, a);
      assert forall b | b in actions[1..] :: b in actions;
      hide Inv, Apply, Enabled, Orderly;
      TheseAreOrderly(Apply(s, a), actions[1..], x, y);
    }
  }

  // Without a fetch, a look for the inputs changes neither inputs nor outputs.
  lemma StepKeepsThemApart(s: State, a: Action)
    requires Inv(s) && Enabled(s, a) && !a.Register? && !a.AddFile? && !a.Start? && (a.Inspect? ==> !a.fetched)
    ensures Orderly(s, a)
  {
    if a.Inspect? {
      var s' := Apply(s, a);
      forall z | a.x in s'.execs && z in s'.execs ensures Apart(s', a.x, z) && Apart(s', z, a.x) {
        assert Apart(s, a.x, z) && Apart(s, z, a.x);
      }
    }
  }

  // Two conversions of one row under different locks can leave it without its file if and only if one deletes
  // what the other writes. (`Apart` leaves exactly this out.)
  lemma FileIsLostIffCrossed(s: State, x: nat, y: nat)
    requires Poised(s, x, y)
    requires forall key | key in s.rows :: RowInv(s, key)
    requires forall z | z in s.execs :: ExecInv(s, z) && forall key | key in s.rows :: Clear(s, z, key)
    ensures
      (exists actions :: OnlyThese(actions, x, y) && LosesFile(s, actions, s.execs[x].job.key)) <==>
      Crossed(s.execs[x], s.execs[y]) || Crossed(s.execs[y], s.execs[x])
  {
    var key := s.execs[x].job.key;
    if Crossed(s.execs[x], s.execs[y]) {
      var actions := CrossedJobsLoseTheFile(s, x, y);
    } else if Crossed(s.execs[y], s.execs[x]) {
      var actions := CrossedJobsLoseTheFile(s, y, x);
      assert OnlyThese(actions, x, y);
    } else {
      assert Inv(s);
      forall actions | OnlyThese(actions, x, y) && Runs(s, actions) ensures !LosesFile(s, actions, key) {
        TheseAreOrderly(s, actions, x, y);
        RunKeepsInv(s, actions);
        assert key in After(s, actions).rows ==> RowInv(After(s, actions), key);
      }
    }
  }

  // What one execution does not claim it leaves, and it writes no other row.
  lemma {:induction false} UnclaimedStays(s: State, actions: seq<Action>, x: nat, key: string)
    requires Runs(s, actions) && OnlyBy(actions, x) && forall a | a in actions && a.Inspect? :: !a.fetched
    requires key in s.rows && s.rows[key].path in s.files
    requires x in s.execs ==> s.execs[x].job.key != key && ExecInv(s, x) && !Claims(s.execs[x], s.rows[key].path)
    ensures key in After(s, actions).rows && After(s, actions).rows[key] == s.rows[key]
    ensures s.rows[key].path in After(s, actions).files
    decreases |actions|
  {
    if actions != [] {
      var a, s' := actions[0], Apply(s, actions[0]);
      assert a in actions && ActsInside(a) && a.x == x;
      StepKeepsOwnExecIfThere(s, a, key);
      UnclaimedFilesStay(s, a, s.rows[key].path);
      assert forall b | b in actions[1..] :: b in actions;
      UnclaimedStays(s', actions[1..], x, key);
    }
  }

  lemma StepKeepsOwnExecIfThere(s: State, a: Action, key: string)
    requires Enabled(s, a) && ActsInside(a) && ExecInv(s, a.x) && (a.Inspect? ==> !a.fetched)
    requires s.execs[a.x].job.key != key && key in s.rows && !Claims(s.execs[a.x], s.rows[key].path)
    ensures
      var s' := Apply(s, a);
      && key in s'.rows && s'.rows[key] == s.rows[key]
      && (a.x in s'.execs ==>
            s'.execs[a.x].job.key != key && ExecInv(s', a.x) && !Claims(s'.execs[a.x], s'.rows[key].path))
  {
    if a.x in Apply(s, a).execs { StepKeepsOwnExec(s, a); }
    hide ExecInv, IsTarget, CachePath;
  }

  // An execution on its own, nothing in its way, takes the file of another row if and only if that file is one of
  // its inputs.
  lemma OtherRowLosesFileIff(s: State, x: nat, key: string)
    requires s.execs.Keys == {x} && Unhindered(s, s.execs[x]) && ExecInv(s, x) && s.execs[x].job.key != key
    requires key in s.rows && s.rows[key].downloaded && s.rows[key].path in s.files
    ensures (exists actions :: OnlyThese(actions, x, x) && LosesFile(s, actions, key)) <==>
            Claims(s.execs[x], s.rows[key].path)
  {
    var e, p := s.execs[x], s.rows[key].path;
    if Claims(e, p) {
      var actions := ClaimedIsLost(s, x, key);
    } else {
      forall actions | OnlyThese(actions, x, x) && Runs(s, actions) ensures !LosesFile(s, actions, key) {
        assert forall a | a in actions :: ByThese(a, x, x);
        UnclaimedStays(s, actions, x, key);
      }
    }
  }

  lemma ClaimedIsLost(s: State, x: nat, key: string) returns (actions: seq<Action>)
    requires s.execs.Keys == {x} && Unhindered(s, s.execs[x]) && s.execs[x].job.key != key
    requires key in s.rows && s.rows[key].downloaded && Claims(s.execs[x], s.rows[key].path)
    ensures OnlyThese(actions, x, x) && LosesFile(s, actions, key)
  {
    var e, p := s.execs[x], s.rows[key].path;
    var s1 := State(s.rows, s.files + {e.target}, s.execs[x := e.(phase := Converted)]);
    var s2 := Apply(s1, Save(x));
    var i :| 0 <= i < |e.sources| && e.sources[i] == p;
    actions := DoomedIsDeleted(s2, x, p, i);
    DeletesTakeTheDoomed(s2, actions, p);
    hide Runs, After;
    var end := After(s2, actions);
    actions := Prepend(s1, Save(x), actions, end);
    actions := GetsConverted(s, x, actions, end);
  }

  // ---------------------------------------------------------------------------
  // Such jobs are made.

  // The stem up to the first ".f", where the downloader marks separate streams.
  function StreamStem(stem: string): string {
    if stem == "" || ".f" <= stem then "" else [stem[0]] + StreamStem(stem[1..])
  }

  function MergedPath(source: Path, ext: string): Path { Path(source.dir, StreamStem(source.stem), ext) }

  predicate AllProduced(actions: seq<Action>) { forall a | a in actions && a.Start? :: Produced(a.job) }

  // Where the first ".f" is, or the end.
  function StreamMark(stem: string): (k: nat)
    ensures k <= |stem|
  {
    if stem == "" || ".f" <= stem then 0 else 1 + StreamMark(stem[1..])
  }

  lemma {:induction false} StreamStemIsPrefix(stem: string)
    ensures StreamStem(stem) == stem[..StreamMark(stem)]
    ensures StreamMark(stem) < |stem| ==> ".f" <= stem[StreamMark(stem)..]
    ensures forall i | 0 <= i < StreamMark(stem) :: !(".f" <= stem[i..])
  {
    if stem != "" && !(".f" <= stem) {
      var k := StreamMark(stem[1..]);
      StreamStemIsPrefix(stem[1..]);
      assert StreamStem(stem) == [stem[0]] + StreamStem(stem[1..]) && StreamMark(stem) == k + 1;
      hide StreamStem, StreamMark;
      MarkFurther(stem, k);
    } else if stem != "" {
      assert stem[0..] == stem;
    }
  }

  lemma MarkFurther(stem: string, k: nat)
    requires stem != "" && !(".f" <= stem) && k <= |stem[1..]|
    requires k < |stem[1..]| ==> ".f" <= stem[1..][k..]
    requires forall i | 0 <= i < k :: !(".f" <= stem[1..][i..])
    ensures stem[..k + 1] == [stem[0]] + stem[1..][..k]
    ensures k + 1 < |stem| ==> ".f" <= stem[k + 1..]
    ensures forall i | 0 <= i < k + 1 :: !(".f" <= stem[i..])
  {
    assert stem[1..][k..] == stem[k + 1..];
    forall i | 0 <= i < k + 1 ensures !(".f" <= stem[i..]) {
      if i > 0 { assert stem[i..] == stem[1..][i - 1..]; } else { assert stem[0..] == stem; }
    }
  }

  // Two downloads of one folder are merged into one file if and only if their names agree up to the first ".f",
  // which may be part of a title.
  lemma MergedPathsMeetIff(a: Path, b: Path, ext: string)
    ensures MergedPath(a, ext) == MergedPath(b, ext) <==>
            a.dir == b.dir && a.stem[..StreamMark(a.stem)] == b.stem[..StreamMark(b.stem)]
  {
    StreamStemIsPrefix(a.stem);
    StreamStemIsPrefix(b.stem);
  }

  // The jobs the two producers build: for a file just downloaded, a video (with a row, or without one if it must be
  // screened) or audio, which has no row and no target of its own; and for a row that is there already.
  predicate Produced(job: Job) {
    var video := job.sources != [] && job.target ==
      if |job.sources| > 1 || Lower(job.sources[0].ext) != job.ext then Some(MergedPath(job.sources[0], job.ext))
      else None;
    var audio := |job.sources| == 1 && Lower(job.sources[0].ext) != "mp3" && job.target == None && job.ext == "mp3";
    if !job.deferred then !job.screened && (video || (job.sources == [] && job.target == None))
    else if job.screened then video
    else audio
  }

  const AudioJob := Job("k", "u", true, false, [Path("d", "v", "mp4")], None, "mp3")
  const VideoJob := Job("k", "u", false, false, [Path("d", "v", "webm")], Some(Path("d", "v", "mp4")), "mp4")

  lemma TheyAreProduced()
    ensures Produced(AudioJob) && Produced(VideoJob)
  {
    assert Lower("mp4")[2] == '4' && Lower("webm")[0] == 'w';
    var stem := "v";
    assert stem[1..] == "";
    assert StreamStem("") == "" && StreamStem(stem) == "v";
  }

  // The item is fetched as audio, then as video; both conversions wait for their locks.
  function BothWaiting(): State {
    var M, W := AudioJob.sources[0], VideoJob.sources[0];
    State(map["k" := Row(W, true)], {M, W},
          map[0 := Exec(AudioJob, [M], CachePath("k", M), Candidate(M, "mp3", 0), Waiting),
              1 := Exec(VideoJob, [W], CachePath("k", W), M, Waiting)])
  }

  lemma BothWaitingIsReached(rest: seq<Action>, end: State) returns (actions: seq<Action>)
    requires Runs(BothWaiting(), rest) && After(BothWaiting(), rest) == end
    requires forall a | a in rest :: !a.Start?
    ensures Runs(Empty, actions) && After(Empty, actions) == end
    ensures AllProduced(actions)
  {
    TheyAreProduced();
    hide Runs, After, Produced, Candidate, CachePath;
    var M, W := AudioJob.sources[0], VideoJob.sources[0];
    var A := Candidate(M, "mp3", 0);
    var s3 := State(map["k" := Row(W, true)], {M, W}, map[0 := Exec(AudioJob, [M], CachePath("k", M), A, Waiting)]);
    assert Apply(s3, Start(1, VideoJob, M)).execs == BothWaiting().execs;
    actions := Prepend(s3, Start(1, VideoJob, M), rest, end);
    actions := AudioWaitingIsReached(s3, actions, end);
  }

  lemma AudioWaitingIsReached(s3: State, rest: seq<Action>, end: State) returns (actions: seq<Action>)
    requires
      var M, W := AudioJob.sources[0], VideoJob.sources[0];
      s3 == State(map["k" := Row(W, true)], {M, W},
                  map[0 := Exec(AudioJob, [M], CachePath("k", M), Candidate(M, "mp3", 0), Waiting)])
    requires Runs(s3, rest) && After(s3, rest) == end
    requires Produced(AudioJob) && forall a | a in rest && a.Start? :: Produced(a.job)
    ensures Runs(Empty, actions) && After(Empty, actions) == end
    ensures AllProduced(actions)
  {
    hide Runs, After, Produced, Candidate, CachePath;
    var M, W := AudioJob.sources[0], VideoJob.sources[0];
    var A := Candidate(M, "mp3", 0);
    assert IsCandidate(M, "mp3", A);
    hide IsCandidate;
    var s1 := State(map[], {M}, map[]);
    var s2 := State(map[], {M}, s3.execs);
    assert Apply(Empty, AddFile(M)) == s1;
    assert Apply(s1, Start(0, AudioJob, A)).execs == s2.execs;
    assert Apply(s2, AddFile(W)).files == s3.files;
    actions := Prepend(s2.(files := s3.files), Register("k", W), rest, end);
    actions := Prepend(s2, AddFile(W), actions, end);
    actions := Prepend(s1, Start(0, AudioJob, A), actions, end);
    actions := Prepend(Empty, AddFile(M), actions, end);
  }

  // An item fetched once as audio and once as video. The audio conversion has no row yet, its lock key is made
  // from paths; the video conversion has one. The second writes the very file that the first deletes.
  lemma TwoLocksLoseTheFile() returns (actions: seq<Action>)
    ensures AllProduced(actions)
    ensures LosesFile(Empty, actions, "k")
  {
    var s := BothWaiting();
    TargetsDiffer();
    hide Candidate, CachePath, Produced;
    assert s.execs.Keys == {1, 0};
    assert Poised(s, 1, 0);
    actions := CrossedJobsLoseTheFile(s, 1, 0);
    assert forall a | a in actions :: ByThese(a, 1, 0);
    hide Runs, After, Poised, BothWaiting;
    actions := BothWaitingIsReached(actions, After(s, actions));
  }

  lemma TargetsDiffer()
    ensures Candidate(AudioJob.sources[0], "mp3", 0) != AudioJob.sources[0]
  {
    ConvertedName(AudioJob.sources[0], "mp3", 0);
  }

  // A repeated download that saves the row between the conversion's save and its clean-up.
  lemma RegisteringDuringCleanUpLosesTheFile() returns (actions: seq<Action>)
    ensures AllProduced(actions)
    ensures LosesFile(Empty, actions, "k")
  {
    var M, W := AudioJob.sources[0], VideoJob.sources[0];
    TheyAreProduced();
    hide CachePath, Produced;
    var s1 := State(map[], {W}, map[]);
    var s2 := State(map["k" := Row(W, true)], {W}, map[]);
    assert Apply(Empty, AddFile(W)) == s1;
    var s3 := Apply(s2, Start(0, VideoJob, M));
    actions := RegistersDuringCleanUp(s3);
    hide Runs, After;
    var end := After(s3, actions);
    actions := Prepend(s2, Start(0, VideoJob, M), actions, end);
    actions := Prepend(s1, Register("k", W), actions, end);
    actions := Prepend(Empty, AddFile(W), actions, end);
  }

  lemma RegistersDuringCleanUp(s: State) returns (actions: seq<Action>)
    requires
      var M, W := AudioJob.sources[0], VideoJob.sources[0];
      s == State(map["k" := Row(W, true)], {W}, map[0 := Exec(VideoJob, [W], CachePath("k", W), M, Waiting)])
    ensures LosesFile(s, actions, "k") && forall a | a in actions :: !a.Start?
  {
    var M, W := AudioJob.sources[0], VideoJob.sources[0];
    hide CachePath;
    var s1 := State(s.rows, s.files + {M}, s.execs[0 := s.execs[0].(phase := Converted)]);
    var s2 := Apply(s1, Save(0));
    var s3 := Apply(s2, Register("k", W));
    actions := DoomedIsDeleted(s3, 0, W, 0);
    DeletesTakeTheDoomed(s3, actions, W);
    hide Runs, After;
    var end := After(s3, actions);
    actions := Prepend(s2, Register("k", W), actions, end);
    actions := Prepend(s1, Save(0), actions, end);
    actions := GetsConverted(s, 0, actions, end);
  }

  // ---------------------------------------------------------------------------
  // One execution on its own, as the handler runs it.

  function Cleaned(files: set<Path>, sources: seq<Path>, target: Path, stubborn: set<Path>): (r: set<Path>) {
    set p | p in files && (p in sources ==> p == target || p in stubborn)
  }

  function FirstIndex(paths: seq<Path>, p: Path): (k: nat)
    requires p in paths
    ensures k < |paths| && paths[k] == p && p !in paths[..k]
  {
    if paths[0] == p then 0 else 1 + FirstIndex(paths[1..], p)
  }

  lemma {:induction false} FirstIndexIs(paths: seq<Path>, i: nat)
    requires i < |paths| && paths[i] !in paths[..i]
    ensures FirstIndex(paths, paths[i]) == i
  {
    if i > 0 {
      assert paths[0] == paths[..i][0];
      assert paths[1..][..i - 1] == paths[..i][1..];
      FirstIndexIs(paths[1..], i - 1);
    }
  }

  datatype Outcome =
    | NoDownload                                       // no row and not enough to write one, or handed over
    | Current                                          // a duplicate: the target is already there
    | Done(target: Path, inputs: seq<Path>)
    | Raised

  lemma Append(s: State, actions: seq<Action>, a: Action)
    requires Runs(s, actions) && Enabled(After(s, actions), a)
    ensures Runs(s, actions + [a]) && After(s, actions + [a]) == Apply(After(s, actions), a)
    decreases |actions|
  {
    if actions != [] {
      Append(Apply(s, actions[0]), actions[1..], a);
      assert (actions + [a])[1..] == actions[1..] + [a];
    } else {
      assert Runs(Apply(s, a), []);
      assert ([] + [a])[1..] == [];
    }
  }

  // Deleting the inputs is a run of Delete steps.
  lemma {:induction false} DeletesRun(s: State, actions: seq<Action>, now: State, e: Exec, stubborn: set<Path>)
    returns (longer: seq<Action>)
    requires Runs(s, actions) && After(s, actions) == now
    requires now.execs == map[0 := e] && e.phase.Saved? && e.phase.next <= |e.sources|
    ensures Runs(s, longer)
    ensures After(s, longer) ==
            State(now.rows, Cleaned(now.files, e.sources[e.phase.next..], e.target, stubborn), map[])
    ensures AllProduced(actions) ==> AllProduced(longer)
    decreases |e.sources| - e.phase.next
  {
    if e.phase.next == |e.sources| {
      Append(s, actions, Finish(0));
      longer := actions + [Finish(0)];
    } else {
      var a := Delete(0, e.sources[e.phase.next] !in stubborn);
      Append(s, actions, a);
      var next := Apply(now, a);
      var e' := e.(phase := Saved(e.phase.next + 1));
      assert next.execs == map[0 := e'];
      longer := DeletesRun(s, actions + [a], next, e', stubborn);
      assert e.sources[e.phase.next..] == [e.sources[e.phase.next]] + e'.sources[e'.phase.next..];
      assert Cleaned(now.files, e.sources[e.phase.next..], e.target, stubborn)
          == Cleaned(next.files, e'.sources[e'.phase.next..], e.target, stubborn);
    }
  }

  function Alone(rows: map<string, Row>, files: set<Path>): State { State(rows, files, map[]) }

  function One(rows: map<string, Row>, files: set<Path>, e: Exec): State { State(rows, files, map[0 := e]) }

  // There is a row, or enough to write one.
  predicate Loads(rows: map<string, Row>, job: Job) {
    if job.deferred then job.sources != [] else job.key in rows
  }

  function Inputs(rows: map<string, Row>, job: Job): seq<Path>
    requires Loads(rows, job)
  {
    if job.sources != [] then job.sources else [rows[job.key].path]
  }

  // An explicit target that is there already, shown by the row or left by a run that deleted its inputs.
  predicate IsCurrent(rows: map<string, Row>, files: set<Path>, job: Job)
    requires Loads(rows, job)
  {
    && !job.deferred && job.target.Some? && job.target.value in files
    && (rows[job.key].path == job.target.value || !AllPresent(Inputs(rows, job), files))
  }

  // Inputs on disk, or to be had through the API or its cache.
  predicate InputsAvailable(rows: map<string, Row>, files: set<Path>, job: Job, api: bool)
    requires Loads(rows, job)
  {
    || AllPresent(Inputs(rows, job), files)
    || (!job.deferred && (api || CachePath(job.key, rows[job.key].path) in files))
  }

  lemma InputsCover(sources: seq<Path>, cache: Path, files: set<Path>)
    ensures AllPresent(sources, files) ==> files == files + (set p | p in sources)
    ensures !AllPresent(sources, files) ==> files + {cache} == files + (set p | p in Localised(sources, cache, files))
  {
    var here := Localised(sources, cache, files);
    if !AllPresent(sources, files) {
      var i :| 0 <= i < |sources| && sources[i] !in files;
      assert here[i] in here;
    }
  }

  // One more step of a run.
  lemma Advance(s0: State, actions: seq<Action>, now: State, a: Action, next: State) returns (longer: seq<Action>)
    requires Runs(s0, actions) && After(s0, actions) == now
    requires Enabled(now, a) && Apply(now, a) == next
    ensures Runs(s0, longer) && After(s0, longer) == next && longer == actions + [a]
  {
    Append(s0, actions, a);
    longer := actions + [a];
  }

  // Up to the check inside the lock.
  lemma Entering(s0: State, before: seq<Action>, rows: map<string, Row>, files: set<Path>, e: Exec)
    returns (actions: seq<Action>)
    requires Runs(s0, before) && After(s0, before) == Alone(rows, files) && Loads(rows, e.job) && e.phase == Entered
    requires e.sources == Inputs(rows, e.job) && IsTarget(e.job, e.sources[0], e.target)
    requires e.cache == CachePath(e.job.key, if e.job.key in rows then rows[e.job.key].path else e.sources[0])
    ensures Runs(s0, actions) && After(s0, actions) == One(rows, files, e)
    ensures AllProduced(before) && Produced(e.job) ==> AllProduced(actions)
  {
    hide CachePath, IsTarget, Produced;
    var s, s1 := Alone(rows, files), One(rows, files, e.(phase := Waiting));
    assert Apply(s, Start(0, e.job, e.target)) == s1;
    actions := Advance(s0, before, s, Start(0, e.job, e.target), s1);
    assert Apply(s1, Enter(0)).execs == map[0 := e];
    actions := Advance(s0, actions, s1, Enter(0), One(rows, files, e));
  }

  // From a converted file to the end: save, delete the inputs, leave.
  lemma Completing(
    s0: State, actions: seq<Action>, rows: map<string, Row>, files: set<Path>, e: Exec, stubborn: set<Path>)
    returns (longer: seq<Action>)
    requires Runs(s0, actions) && After(s0, actions) == One(rows, files, e)
    requires e.phase == Converted && (e.job.deferred || e.job.key in rows)
    ensures Runs(s0, longer)
    ensures After(s0, longer) ==
            Alone(rows[e.job.key := Row(e.target, true)], Cleaned(files, e.sources, e.target, stubborn))
    ensures AllProduced(actions) ==> AllProduced(longer)
  {
    var saved := One(rows[e.job.key := Row(e.target, true)], files, e.(phase := Saved(0)));
    assert Apply(One(rows, files, e), Save(0)).execs == saved.execs;
    longer := Advance(s0, actions, One(rows, files, e), Save(0), saved);
    assert e.sources[0..] == e.sources;
    longer := DeletesRun(s0, longer, saved, e.(phase := Saved(0)), stubborn);
  }

  // The second look at the row shows the target.
  lemma Skipping(s0: State, actions: seq<Action>, rows: map<string, Row>, files: set<Path>, e: Exec)
    returns (longer: seq<Action>)
    requires Runs(s0, actions) && After(s0, actions) == One(rows, files, e) && e.phase == Entered
    requires !e.job.deferred && e.job.key in rows && rows[e.job.key].path == e.target && e.target in files
    ensures Runs(s0, longer) && After(s0, longer) == Alone(rows, files)
  {
    longer := Advance(s0, actions, One(rows, files, e), Refresh(0), Ended(One(rows, files, e), 0));
    assert Ended(One(rows, files, e), 0).execs == map[];
  }

  // From the second look at the row to the converter's inputs being ready, or to the end.
  lemma Preparing(s0: State, actions: seq<Action>, rows: map<string, Row>, files: set<Path>, e: Exec,
                  fetched: bool, target: Path) returns (longer: seq<Action>)
    requires Runs(s0, actions) && After(s0, actions) == One(rows, files, e)
    requires e.phase == Entered && e.sources != []
    requires !(!e.job.deferred && e.job.key in rows && rows[e.job.key].path == e.target && e.target in files)
    requires fetched ==> IsTarget(e.job, Localised(e.sources, e.cache, files)[0], target)
    ensures Runs(s0, longer)
    ensures After(s0, longer) == Looked(rows, files, e, fetched, target)
    ensures AllProduced(actions) ==> AllProduced(longer)
  {
    hide IsTarget, Runs, After;
    var checked := One(rows, files, e.(phase := Checked));
    assert Apply(One(rows, files, e), Refresh(0)).execs == checked.execs;
    longer := Advance(s0, actions, One(rows, files, e), Refresh(0), checked);
    var next := Looked(rows, files, e, fetched, target);
    LookedIsNext(rows, files, e, fetched, target);
    hide Apply, Enabled;
    longer := Advance(s0, longer, checked, Inspect(0, fetched, target), next);
  }

  // What the look for the inputs leads to.
  function Looked(rows: map<string, Row>, files: set<Path>, e: Exec, fetched: bool, target: Path): State {
    if AllPresent(e.sources, files) then One(rows, files, e.(phase := Ready))
    else if !e.job.deferred && e.target !in files && fetched then
      One(rows, files + {e.cache},
          e.(sources := Localised(e.sources, e.cache, files), target := target, phase := Ready))
    else Alone(rows, files)
  }

  lemma LookedIsNext(rows: map<string, Row>, files: set<Path>, e: Exec, fetched: bool, target: Path)
    requires e.sources != [] && (fetched ==> IsTarget(e.job, Localised(e.sources, e.cache, files)[0], target))
    ensures
      var checked := One(rows, files, e.(phase := Checked));
      && Enabled(checked, Inspect(0, fetched, target))
      && Apply(checked, Inspect(0, fetched, target)) == Looked(rows, files, e, fetched, target)
  {
    hide IsTarget, Runs, After;
    var checked := One(rows, files, e.(phase := Checked));
    assert Apply(checked, Inspect(0, fetched, target)).execs == Looked(rows, files, e, fetched, target).execs;
  }

  // FFmpeg runs.
  lemma Converting(
    s0: State, actions: seq<Action>, rows: map<string, Row>, files: set<Path>, e: Exec, ok: bool, wrote: bool)
    returns (longer: seq<Action>)
    requires Runs(s0, actions) && After(s0, actions) == One(rows, files, e) && e.phase == Ready
    ensures Runs(s0, longer)
    ensures After(s0, longer) ==
            if !ok then Alone(rows, files + if wrote then {e.target} else {})
            else if e.job.deferred && e.job.screened then Alone(rows, files + {e.target})
            else One(rows, files + {e.target}, e.(phase := Converted))
    ensures AllProduced(actions) ==> AllProduced(longer)
  {
    var next := Apply(One(rows, files, e), Convert(0, ok, wrote));
    longer := Advance(s0, actions, One(rows, files, e), Convert(0, ok, wrote), next);
    assert next.execs == if !ok || (e.job.deferred && e.job.screened) then map[] else map[0 := e.(phase := Converted)];
  }

  // One conversion from start to finish, with its inputs there and FFmpeg succeeding.
  lemma ConvertsAlone(
    s0: State, before: seq<Action>, rows: map<string, Row>, files: set<Path>, job: Job, target: Path)
    returns (actions: seq<Action>)
    requires Runs(s0, before) && After(s0, before) == Alone(rows, files)
    requires Loads(rows, job) && AllPresent(Inputs(rows, job), files) && IsTarget(job, Inputs(rows, job)[0], target)
    requires !HandsOver(job) && (!job.deferred ==> rows[job.key].path != target || target !in files)
    ensures Runs(s0, actions)
    ensures After(s0, actions) ==
            Alone(rows[job.key := Row(target, true)], Cleaned(files + {target}, Inputs(rows, job), target, {}))
    ensures AllProduced(before) && Produced(job) ==> AllProduced(actions)
  {
    hide Runs, After, IsTarget, CachePath, Produced, Cleaned, AllProduced;
    var sources := Inputs(rows, job);
    var cache := CachePath(job.key, if job.key in rows then rows[job.key].path else sources[0]);
    var e := Exec(job, sources, cache, target, Entered);
    actions := Entering(s0, before, rows, files, e);
    actions := Preparing(s0, actions, rows, files, e, false, target);
    actions := Converting(s0, actions, rows, files, e.(phase := Ready), true, true);
    actions := Completing(s0, actions, rows, files + {target}, e.(phase := Converted), {});
  }

  // ---------------------------------------------------------------------------
  // Two items, one file.

  const FirstFile := Path("d", "x.fa", "webm")
  const SecondFile := Path("d", "x.fb", "webm")
  const MergedFile := Path("d", "x", "mp4")

  function VideoJobFor(key: string, file: Path, screened: bool): Job {
    Job(key, key, screened, screened, [file], Some(MergedFile), "mp4")
  }

  // Different items' jobs with one target, as the download worker builds them, with rows or to be screened.
  lemma TwoItemsShareATarget(screened: bool)
    ensures Produced(VideoJobFor("k1", FirstFile, screened)) && Produced(VideoJobFor("k2", SecondFile, screened))
    ensures FirstFile != SecondFile
  {
    assert Lower("webm")[0] == 'w' && |Lower("mp4")| == 3 && |Lower("webm")| == 4;
    StemBefore("a");
    StemBefore("b");
    assert FirstFile.stem[3] != SecondFile.stem[3];
  }

  lemma StemBefore(c: string)
    requires |c| == 1
    ensures StreamStem("x.f" + c) == "x"
  {
    var stem := "x.f" + c;
    assert stem[0] == 'x' && stem[1..] == ".f" + c && (".f" + c)[..2] == ".f";
    assert StreamStem(stem[1..]) == "";
  }

  lemma AddsAndRegisters(
    s0: State, before: seq<Action>, rows: map<string, Row>, files: set<Path>, key: string, p: Path)
    returns (actions: seq<Action>)
    requires Runs(s0, before) && After(s0, before) == Alone(rows, files)
    ensures Runs(s0, actions) && After(s0, actions) == Alone(rows[key := Row(p, true)], files + {p})
    ensures AllProduced(before) ==> AllProduced(actions)
  {
    hide Runs, After, Produced;
    actions := Advance(s0, before, Alone(rows, files), AddFile(p), Alone(rows, files + {p}));
    actions := Advance(s0, actions, Alone(rows, files + {p}), Register(key, p),
                       Alone(rows[key := Row(p, true)], files + {p}));
  }

  function BothAt(p: Path): map<string, Row> { map["k1" := Row(p, true), "k2" := Row(MergedFile, true)] }

  // One more item is downloaded and merged.
  lemma DownloadsAndMerges(before: seq<Action>, rows: map<string, Row>, files: set<Path>, key: string, p: Path)
    returns (actions: seq<Action>)
    requires Runs(Empty, before) && After(Empty, before) == Alone(rows, files) && AllProduced(before)
    requires files <= {MergedFile} && p != MergedFile && Produced(VideoJobFor(key, p, false))
    ensures AllProduced(actions) && Runs(Empty, actions)
    ensures After(Empty, actions) == Alone(rows[key := Row(MergedFile, true)], {MergedFile})
  {
    hide Runs, After, Produced, Candidate, IsCandidate, CachePath, AllProduced, Apply, Enabled;
    var M, job := MergedFile, VideoJobFor(key, p, false);
    actions := AddsAndRegisters(Empty, before, rows, files, key, p);
    var rows' := rows[key := Row(p, true)];
    actions := ConvertsAlone(Empty, actions, rows', files + {p}, job, M);
    assert Cleaned(files + {p} + {M}, [p], M, {}) == {M};
    assert rows'[key := Row(M, true)] == rows[key := Row(M, true)];
  }

  lemma BothAreMerged() returns (actions: seq<Action>)
    ensures AllProduced(actions) && Runs(Empty, actions)
    ensures After(Empty, actions) == Alone(BothAt(MergedFile), {MergedFile})
  {
    TwoItemsShareATarget(false);
    var none: map<string, Row> := map[];
    assert Runs(Empty, []) && After(Empty, []) == Alone(none, {});
    hide Runs, After, Produced, AllProduced;
    NothingStarted();
    actions := DownloadsAndMerges([], none, {}, "k1", FirstFile);
    actions := DownloadsAndMerges(actions, none["k1" := Row(MergedFile, true)], {MergedFile}, "k2", SecondFile);
    assert none["k1" := Row(MergedFile, true)]["k2" := Row(MergedFile, true)] == BothAt(MergedFile);
  }

  // Both are converted, one after the other; then the first row's file is converted again and its input deleted,
  // which the second row still names.
  lemma SharedTargetLosesTheFile() returns (actions: seq<Action>)
    ensures AllProduced(actions) && LosesFile(Empty, actions, "k2")
  {
    actions := BothAreMerged();
    var again := Job("k1", "k1", false, false, [], None, "mp4");
    var M := MergedFile;
    var C := Candidate(M, "mp4", 0);
    assert C != M by { assert |C.stem| > |M.stem|; }
    assert Produced(again) && IsTarget(again, M, C);
    hide Runs, After, Produced, Candidate, IsCandidate, CachePath, AllProduced;
    actions := ConvertsAlone(Empty, actions, BothAt(M), {M}, again, C);
    assert Cleaned({M} + {C}, [M], C, {}) == {C};
    assert After(Empty, actions) == Alone(BothAt(M)["k1" := Row(C, true)], {C});
  }

  lemma NothingStarted()
    ensures AllProduced([])
  {}

  class Host {
    var files: set<Path>
    var rows: map<string, Row>

    // The first free candidate name.
    method TargetPath(source: Path, ext: string) returns (candidate: Path)
      ensures candidate !in files
      ensures exists k: nat :: candidate == Candidate(source, ext, k) && Taken(source, ext, k) <= files
      ensures candidate.dir == source.dir && source.stem + ".converted" <= candidate.stem
    {
      var counter := 0;
      candidate := Candidate(source, ext, 0);
      hide CleanExt;
      while candidate in files
        invariant candidate == Candidate(source, ext, counter) && Taken(source, ext, counter) <= files
        invariant candidate.dir == source.dir && source.stem + ".converted" <= candidate.stem
        decreases |files| - counter
      {
        assert Taken(source, ext, counter + 1) == Taken(source, ext, counter) + {candidate};
        hide Taken;
        TakenSize(source, ext, counter + 1);
        SubsetIsSmaller(Taken(source, ext, counter + 1), files);
        counter := counter + 1;
        candidate := Candidate(source, ext, counter);
      }
    }

    // `stubborn` files cannot be deleted. Returned: the files that went, each once, in the order given.
    method DeleteSourceFiles(sources: seq<Path>, target: Path, stubborn: set<Path>) returns (deleted: seq<Path>)
      modifies this
      ensures rows == old(rows)
      ensures files == Cleaned(old(files), sources, target, stubborn)
      ensures forall p :: p in deleted <==> p in old(files) && p !in files
      ensures forall p | p in deleted :: p in sources
      ensures forall i, j | 0 <= i < j < |deleted| :: FirstIndex(sources, deleted[i]) < FirstIndex(sources, deleted[j])
    {
      deleted := [];
      for n := 0 to |sources|
        invariant rows == old(rows)
        invariant files == Cleaned(old(files), sources[..n], target, stubborn)
        invariant forall p :: p in deleted <==> p in old(files) && p !in files
        invariant forall p | p in deleted :: p in sources && FirstIndex(sources, p) < n
        invariant forall i, j | 0 <= i < j < |deleted| ::
            FirstIndex(sources, deleted[i]) < FirstIndex(sources, deleted[j])
      {
        var candidate := sources[n];
        assert sources[..n + 1] == sources[..n] + [candidate];
        if candidate == target || candidate !in files || candidate in stubborn {
          continue;
        }
        FirstIndexIs(sources, n);
        files := files - {candidate};
        deleted := deleted + [candidate];
      }
      assert sources[..|sources|] == sources;
    }

    // From the FFmpeg call on; so far the run of the shared system has got to the inputs being ready.
    method ConvertAndSave(
      job: Job, inputs: seq<Path>, ghost cache: Path, target: Path, ok: bool, wrote: bool, stubborn: set<Path>,
      ghost s0: State, ghost before: seq<Action>) returns (r: Outcome, ghost actions: seq<Action>)
      requires job.deferred || job.key in rows
      requires Runs(s0, before) && After(s0, before) == One(rows, files, Exec(job, inputs, cache, target, Ready))
      modifies this
      ensures Runs(s0, actions) && After(s0, actions) == Alone(rows, files)
      ensures r == if !ok then Raised else if job.deferred && job.screened then NoDownload else Done(target, inputs)
      ensures rows == if r.Done? then old(rows)[job.key := Row(target, true)] else old(rows)
      ensures files == if r.Done? then Cleaned(old(files) + {target}, inputs, target, stubborn)
                       else old(files) + if ok || wrote then {target} else {}
    {
      hide Runs, After, Apply, Enabled, Cleaned;
      ghost var e := Exec(job, inputs, cache, target, Ready);
      actions := Converting(s0, before, rows, files, e, ok, wrote);
      if !ok {
        files := files + if wrote then {target} else {};
        return Raised, actions;
      }
      files := files + {target};
      if job.deferred && job.screened {
        return NoDownload, actions;
      }
      actions := Completing(s0, actions, rows, files, e.(phase := Converted), stubborn);
      rows := rows[job.key := Row(target, true)];
      var _ := DeleteSourceFiles(inputs, target, stubborn);
      r := Done(target, inputs);
    }

    // The whole handler for one job. `api`: the API can deliver a missing input; `ok`: FFmpeg succeeds;
    // `wrote`: a failing FFmpeg leaves a file. Its effects are, in order, steps of the shared system.
    method Postprocess(job: Job, api: bool, ok: bool, wrote: bool, stubborn: set<Path>)
      returns (r: Outcome, ghost actions: seq<Action>)
      modifies this
      ensures Runs(Alone(old(rows), old(files)), actions)
      ensures After(Alone(old(rows), old(files)), actions) == Alone(rows, files)
      ensures r.Current? <==> Loads(old(rows), job) && IsCurrent(old(rows), old(files), job)
      ensures r.Done? <==>
          && Loads(old(rows), job) && !IsCurrent(old(rows), old(files), job)
          && InputsAvailable(old(rows), old(files), job, api) && ok && !(job.deferred && job.screened)
      ensures r.Done? ==>
          && rows == old(rows)[job.key := Row(r.target, true)]
          && (job.target.Some? ==> r.target == job.target.value) && (job.target.None? ==> r.target !in old(files))
          && files == Cleaned(old(files) + (set p | p in r.inputs) + {r.target}, r.inputs, r.target, stubborn)
          && |r.inputs| == |Inputs(old(rows), job)|
          && forall i | 0 <= i < |r.inputs| && Inputs(old(rows), job)[i] in old(files) ::
              r.inputs[i] == Inputs(old(rows), job)[i]
      ensures !r.Done? ==> rows == old(rows) && old(files) <= files
    {
      ghost var s0 := Alone(rows, files);
      actions := [];
      assert Runs(s0, []) && After(s0, []) == s0;
      hide Runs, After, CachePath, Candidate, Taken, Apply, Enabled, Cleaned, AllPresent, Localised;
      if !Loads(rows, job) {
        return NoDownload, actions;
      }
      var sources := Inputs(rows, job);
      var cache := CachePath(job.key, if job.key in rows then rows[job.key].path else sources[0]);
      var target: Path;
      if job.target.Some? {
        target := job.target.value;
      } else {
        target := TargetPath(sources[0], job.ext);
      }
      ghost var e := Exec(job, sources, cache, target, Entered);
      actions := Entering(s0, [], rows, files, e);
      if !job.deferred && rows[job.key].path == target && target in files {
        actions := Skipping(s0, actions, rows, files, e);
        return Current, actions;
      }
      var fetched := !AllPresent(sources, files) && !job.deferred && target !in files && (api || cache in files);
      var inputs := sources;
      if fetched {
        inputs := Localised(sources, cache, files);
        files := files + {cache};
        if job.target.None? {
          target := TargetPath(inputs[0], job.ext);
        }
      }
      actions := Preparing(s0, actions, s0.rows, s0.files, e, fetched, target);
      if !AllPresent(inputs, files) {
        return if !job.deferred && target in files then Current else Raised, actions;
      }
      InputsCover(sources, cache, s0.files);
      assert files == s0.files + (set p | p in inputs);
      r, actions := ConvertAndSave(job, inputs, cache, target, ok, wrote, stubborn, s0, actions);
    }
  }
}

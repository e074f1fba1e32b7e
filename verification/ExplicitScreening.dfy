/** Videos are screened before their row is written: a transcript is made, read and judged, and only then is
    the row inserted or the media deleted. Executions of one item, duplicates included, interleave on either
    route (downloaded file, or converted file with a deferred transcript job) and may crash anywhere. */
module ExplicitScreening {
  import opened Text
  import Files = TranscodeFiles

  type Path = Files.Path

  // A subtitle is torn while it is being written, and stays so if its writer dies; it is muddled when two
  // executions write it at once. Every media file written has a number of its own; `of` says which one a whole
  // transcript was made from, if from a single one.
  datatype Content = Media(version: nat) | Torn | Muddled | Whole(of: Option<nat>)

  // `of`: the media file that was there when the row was written.
  datatype Row = NoRow | Downloaded(path: Path, of: Option<nat>) | Filtered

  // A conversion's inputs and output, and later the media to screen with the inputs to delete.
  datatype Hand = Hand(sources: seq<Path>, media: Path)

  datatype Verdict = Clean | Match | Failure

  datatype Phase =
    | Converting
    | Looking                                    // for an existing subtitle
    | Transcribing(seen: Option<nat>)            // the media file it found
    | Writing(alone: bool, of: Option<nat>)      // alone: nobody else was writing this subtitle at the start
    | Screening
    | Inserting
    | Dropping(left: set<Path>, matched: bool)   // deleting the media and its companions
    | Recording                                  // the filtered row
    | Cleaning(next: nat)                        // deleting the conversion's inputs

  datatype Exec = Exec(hand: Hand, phase: Phase)

  // `clean`: the media files whose whole transcript some execution has found clean; `matched`: some execution has
  // found a match; `next`: the number of the next media file.
  datatype State = State(row: Row, files: map<Path, Content>, toConvert: set<Hand>, toScreen: set<Hand>,
                         execs: map<nat, Exec>, clean: set<nat>, matched: bool, next: nat)

  datatype Action =
    | AddMedia(path: Path)                        // a download writes a file
    | BeginDirect(x: nat, media: Path)            // the download needs no conversion
    | QueueConversion(hand: Hand)
    | BeginConversion(x: nat, hand: Hand)
    | Convert(x: nat, ok: bool)
    | BeginTranscript(x: nat, hand: Hand)
    | Look(x: nat)
    | GiveUp(x: nat)                              // transcription fails
    | Open(x: nat)
    | Close(x: nat)
    | Screen(x: nat, verdict: Verdict)
    | Insert(x: nat)
    | Drop(x: nat, path: Path, removed: bool)
    | Dropped(x: nat)
    | Record(x: nat)
    | CleanUp(x: nat, removed: bool)
    | Finish(x: nat)
    | Crash(x: nat)

  // media_path.with_suffix(".srt")
  function Subtitle(media: Path): Path { media.(ext := "srt") }

  function Name(p: Path): string { p.stem + "." + p.ext }

  // The files a filtered video takes along: itself and everything named after it.
  predicate Companion(media: Path, p: Path) {
    p == media || (p.dir == media.dir && media.stem + "." <= Name(p))
  }

  function Companions(media: Path, files: map<Path, Content>): set<Path> {
    set p | p in files && Companion(media, p)
  }

  lemma SubtitleIsCompanion(media: Path)
    ensures Companion(media, Subtitle(media))
  {
    assert Name(Subtitle(media))[..|media.stem + "."|] == media.stem + ".";
  }

  // Downloads and conversions never produce or consume a file named like a canonical subtitle.
  predicate IsMedia(p: Path) { p.ext != "srt" }

  predicate MediaOnly(h: Hand) { IsMedia(h.media) && forall p | p in h.sources :: IsMedia(p) }

  // Which media file is at a path, if any.
  function VersionAt(files: map<Path, Content>, p: Path): Option<nat> {
    if p in files && files[p].Media? then Some(files[p].version) else None
  }

  predicate WritesTo(e: Exec, sub: Path) { e.phase.Writing? && Subtitle(e.hand.media) == sub }

  // ---------------------------------------------------------------------------
  // The steps.

  predicate MayAct(s: State, a: Action, e: Exec) {
    match a
    case Convert(x, ok) => e.phase.Converting? && (ok ==> forall p | p in e.hand.sources :: p in s.files)
    case Look(x) => e.phase.Looking?
    case GiveUp(x) => e.phase.Transcribing?
    case Open(x) => e.phase.Transcribing?
    case Close(x) => e.phase.Writing?
    case Screen(x, verdict) => e.phase.Screening?
    case Insert(x) => e.phase.Inserting?
    case Drop(x, path, removed) => e.phase.Dropping? && path in e.phase.left
    case Dropped(x) => e.phase.Dropping? && e.phase.left == {}
    case Record(x) => e.phase.Recording?
    case CleanUp(x, removed) => e.phase.Cleaning? && e.phase.next < |e.hand.sources|
    case Finish(x) => e.phase.Cleaning? && e.phase.next == |e.hand.sources|
    case _ => true
  }

  predicate Enabled(s: State, a: Action) {
    match a
    case AddMedia(path) => IsMedia(path)
    case BeginDirect(x, media) => x !in s.execs && IsMedia(media)
    case QueueConversion(hand) => MediaOnly(hand)
    case BeginConversion(x, hand) => x !in s.execs && hand in s.toConvert
    case BeginTranscript(x, hand) => x !in s.execs && hand in s.toScreen
    case _ => a.x in s.execs && MayAct(s, a, s.execs[a.x])
  }

  function Moved(s: State, x: nat, phase: Phase): State
    requires x in s.execs
  {
    s.(execs := s.execs[x := s.execs[x].(phase := phase)])
  }

  function StartDropping(s: State, x: nat, matched: bool): State
    requires x in s.execs
  {
    Moved(s, x, Dropping(Companions(s.execs[x].hand.media, s.files), matched))
  }

  // The media file a clean transcript speaks for.
  function Vouched(transcript: Content): set<nat> {
    if transcript.Whole? && transcript.of.Some? then {transcript.of.value} else {}
  }

  // screen_transcript: a missing subtitle is not screened and counts as clean.
  function Judged(s: State, x: nat, verdict: Verdict): State
    requires x in s.execs
  {
    var media := s.execs[x].hand.media;
    var sub := Subtitle(media);
    if sub !in s.files then Moved(s, x, Inserting)
    else match verdict
      case Clean => Moved(s.(clean := s.clean + Vouched(s.files[sub])), x, Inserting)
      case Match => StartDropping(s.(matched := true), x, true)
      case Failure => StartDropping(s, x, false)
  }

  function Apply(s: State, a: Action): State
    requires Enabled(s, a)
  {
    match a
    case AddMedia(path) => s.(files := s.files[path := Media(s.next)], next := s.next + 1)
    case BeginDirect(x, media) => s.(execs := s.execs[x := Exec(Hand([], media), Looking)])
    case QueueConversion(hand) => s.(toConvert := s.toConvert + {hand})
    case BeginConversion(x, hand) => s.(execs := s.execs[x := Exec(hand, Converting)])
    case BeginTranscript(x, hand) => s.(execs := s.execs[x := Exec(hand, Looking)])
    case Convert(x, ok) =>
      var h := s.execs[x].hand;
      if ok then
        s.(files := s.files[h.media := Media(s.next)], next := s.next + 1,
           toScreen := s.toScreen + {h}, execs := s.execs - {x})
      else s.(execs := s.execs - {x})
    case Look(x) =>
      var media := s.execs[x].hand.media;
      if media !in s.files then StartDropping(s, x, false)
      else Moved(s, x, if Subtitle(media) in s.files then Screening else Transcribing(VersionAt(s.files, media)))
    case GiveUp(x) => StartDropping(s, x, false)
    case Open(x) =>
      var media, seen := s.execs[x].hand.media, s.execs[x].phase.seen;
      var alone := forall y | y in s.execs :: !WritesTo(s.execs[y], Subtitle(media));
      Moved(s.(files := s.files[Subtitle(media) := if alone then Torn else Muddled]), x,
            Writing(alone, if VersionAt(s.files, media) == seen then seen else None))
    case Close(x) =>
      var sub := Subtitle(s.execs[x].hand.media);
      if sub !in s.files then StartDropping(s, x, false)
      else
        var phase := s.execs[x].phase;
        Moved(s.(files := if phase.alone && s.files[sub] == Torn then s.files[sub := Whole(phase.of)] else s.files),
              x, Screening)
    case Screen(x, verdict) => Judged(s, x, verdict)
    case Insert(x) =>
      var media := s.execs[x].hand.media;
      Moved(s.(row := Downloaded(media, VersionAt(s.files, media))), x, Cleaning(0))
    case Drop(x, path, removed) =>
      var e := s.execs[x];
      Moved(s.(files := if removed then s.files - {path} else s.files), x, e.phase.(left := e.phase.left - {path}))
    case Dropped(x) => Moved(s, x, if s.execs[x].phase.matched then Recording else Cleaning(0))
    case Record(x) => Moved(s.(row := Filtered), x, Cleaning(0))
    case CleanUp(x, removed) =>
      var e := s.execs[x];
      var source := e.hand.sources[e.phase.next];
      Moved(s.(files := if source != e.hand.media && removed then s.files - {source} else s.files),
            x, Cleaning(e.phase.next + 1))
    case Finish(x) => s.(execs := s.execs - {x})
    case Crash(x) => s.(execs := s.execs - {x})
  }

  predicate Runs(s: State, actions: seq<Action>)
    decreases |actions|
  {
    actions == [] || (Enabled(s, actions[0]) && Runs(Apply(s, actions[0]), actions[1..]))
  }

  function After(s: State, actions: seq<Action>): State
    requires Runs(s, actions)
    decreases |actions|
  {
    if actions == [] then s else After(Apply(s, actions[0]), actions[1..])
  }

  // A new item: no row, nobody at work. Files may be there already, subtitles of other videos among them.
  ghost predicate Fresh(s: State) {
    && s.row == NoRow && s.execs == map[] && s.toConvert == {} && s.toScreen == {} && s.clean == {} && !s.matched
    && Numbered(s)
  }

  // Numbers of media files that have been used.
  ghost predicate Numbered(s: State) {
    && (forall p | p in s.files :: KnownContent(s.files[p], s.next))
    && (forall v | v in s.clean :: v < s.next)
    && (forall x | x in s.execs :: KnownPhase(s.execs[x].phase, s.next))
  }

  predicate Used(of: Option<nat>, next: nat) { of.Some? ==> of.value < next }

  predicate KnownContent(c: Content, next: nat) {
    Used(if c.Media? then Some(c.version) else if c.Whole? then c.of else None, next)
  }

  predicate KnownPhase(p: Phase, next: nat) {
    Used(if p.Transcribing? then p.seen else if p.Writing? then p.of else None, next)
  }

  lemma StepKeepsNumbered(s: State, a: Action)
    requires Numbered(s) && Enabled(s, a)
    ensures Numbered(Apply(s, a)) && s.next <= Apply(s, a).next
  {
    var s' := Apply(s, a);
    forall p | p in s'.files ensures KnownContent(s'.files[p], s'.next) { StepKeepsContent(s, a, p); }
    forall x | x in s'.execs ensures KnownPhase(s'.execs[x].phase, s'.next) { StepKeepsPhase(s, a, x); }
    StepKeepsClean(s, a);
    hide KnownContent, KnownPhase, Apply, Enabled;
  }

  lemma StepKeepsContent(s: State, a: Action, p: Path)
    requires Numbered(s) && Enabled(s, a) && p in Apply(s, a).files
    ensures KnownContent(Apply(s, a).files[p], Apply(s, a).next)
  {
    hide Companions, WritesTo;
    assert p in s.files ==> KnownContent(s.files[p], s.next);
    assert !a.AddMedia? && !a.QueueConversion? && a.x in s.execs ==> KnownPhase(s.execs[a.x].phase, s.next);
  }

  lemma StepKeepsPhase(s: State, a: Action, x: nat)
    requires Numbered(s) && Enabled(s, a) && x in Apply(s, a).execs
    ensures KnownPhase(Apply(s, a).execs[x].phase, Apply(s, a).next)
  {
    hide Companions, WritesTo;
    assert x in s.execs ==> KnownPhase(s.execs[x].phase, s.next);
    if a.Look? {
      assert s.execs[a.x].hand.media in s.files ==> KnownContent(s.files[s.execs[a.x].hand.media], s.next);
    }
  }

  lemma StepKeepsClean(s: State, a: Action)
    requires Numbered(s) && Enabled(s, a)
    ensures (forall v | v in Apply(s, a).clean :: v < Apply(s, a).next) && s.next <= Apply(s, a).next
  {
    hide Companions, WritesTo;
    if a.Screen? {
      var sub := Subtitle(s.execs[a.x].hand.media);
      assert sub in s.files ==> KnownContent(s.files[sub], s.next);
    }
  }

  lemma {:induction false} RunKeepsNumbered(s: State, actions: seq<Action>)
    requires Numbered(s) && Runs(s, actions)
    ensures Numbered(After(s, actions))
    decreases |actions|
  {
    if actions != [] {
      StepKeepsNumbered(s, actions[0]);
      RunKeepsNumbered(Apply(s, actions[0]), actions[1..]);
    }
  }

  // ---------------------------------------------------------------------------
  // Never DOWNLOADED before a clean screening, if every screening reads the whole transcript of the file it is for.

  predicate FoundClean(s: State, of: Option<nat>) { of.Some? && of.value in s.clean }

  // The transcript about to be read is there, whole, and made from the file that is there.
  predicate ReadsOwn(s: State, x: nat)
    requires x in s.execs
  {
    var media := s.execs[x].hand.media;
    && VersionAt(s.files, media).Some?
    && Subtitle(media) in s.files && s.files[Subtitle(media)] == Whole(VersionAt(s.files, media))
  }

  predicate ActsAs(a: Action, x: nat) { !a.AddMedia? && !a.QueueConversion? && a.x == x }

  // The path where the step writes a media file.
  function WrittenPath(s: State, a: Action): Option<Path>
    requires Enabled(s, a)
  {
    match a
    case AddMedia(path) => Some(path)
    case Convert(x, ok) => if ok then Some(s.execs[x].hand.media) else None
    case _ => None
  }

  // Nobody touches the file of an execution between its verdict and its row, or writes over the row's file.
  ghost predicate Steady(s: State, a: Action)
    requires Enabled(s, a)
  {
    && (forall y | y in s.execs && s.execs[y].phase.Inserting? && !ActsAs(a, y) ::
          var media := s.execs[y].hand.media;
          VersionAt(Apply(s, a).files, media) == VersionAt(s.files, media))
    && (s.row.Downloaded? ==> WrittenPath(s, a) != Some(s.row.path))
  }

  ghost predicate ScreensOwnFiles(s: State, actions: seq<Action>)
    requires Runs(s, actions)
    decreases |actions|
  {
    actions != [] ==>
      var a := actions[0];
      (a.Screen? ==> ReadsOwn(s, a.x)) && Steady(s, a) && ScreensOwnFiles(Apply(s, a), actions[1..])
  }

  // A file that nobody has found clean is in the library.
  predicate Exposed(s: State) {
    s.row.Downloaded? && VersionAt(s.files, s.row.path).Some? && !FoundClean(s, VersionAt(s.files, s.row.path))
  }

  ghost predicate ScreenedExec(s: State, e: Exec) {
    && (e.phase.Inserting? ==> FoundClean(s, VersionAt(s.files, e.hand.media)))
    && ((e.phase.Dropping? && e.phase.matched) || e.phase.Recording? ==> s.matched)
  }

  ghost predicate ScreenedFirst(s: State) {
    && (forall x | x in s.execs :: ScreenedExec(s, s.execs[x]))
    && (s.row.Downloaded? ==> FoundClean(s, s.row.of))
    && !Exposed(s)
    && (s.row.Filtered? ==> s.matched)
  }

  lemma OthersKeepScreened(s: State, a: Action, x: nat)
    requires Enabled(s, a) && Steady(s, a) && x in s.execs && ScreenedExec(s, s.execs[x]) && !ActsAs(a, x)
    ensures x in Apply(s, a).execs && ScreenedExec(Apply(s, a), Apply(s, a).execs[x])
  {
    OthersStay(s, a, x);
    VerdictsStay(s, a);
    hide Apply, Enabled, VersionAt;
  }

  lemma VerdictsStay(s: State, a: Action)
    requires Enabled(s, a)
    ensures s.clean <= Apply(s, a).clean && (s.matched ==> Apply(s, a).matched)
  {
    hide Companions, WritesTo, Subtitle, VersionAt;
  }

  lemma OwnStepKeepsScreened(s: State, a: Action)
    requires Enabled(s, a) && (a.Screen? ==> ReadsOwn(s, a.x)) && !a.AddMedia? && !a.QueueConversion?
    requires a.x in Apply(s, a).execs && (a.x in s.execs ==> ScreenedExec(s, s.execs[a.x]))
    ensures ScreenedExec(Apply(s, a), Apply(s, a).execs[a.x])
  {
    hide Companions, WritesTo;
  }

  lemma StepKeepsScreenedExec(s: State, a: Action, x: nat)
    requires Enabled(s, a) && (a.Screen? ==> ReadsOwn(s, a.x)) && Steady(s, a) && x in Apply(s, a).execs
    requires x in s.execs ==> ScreenedExec(s, s.execs[x])
    ensures ScreenedExec(Apply(s, a), Apply(s, a).execs[x])
  {
    if ActsAs(a, x) {
      OwnStepKeepsScreened(s, a);
    } else {
      NewIsActor(s, a, x);
      OthersKeepScreened(s, a, x);
    }
  }

  // A step that does not write there leaves the file at a path, or takes it.
  lemma FileStaysOrGoes(s: State, a: Action, p: Path)
    requires Enabled(s, a) && WrittenPath(s, a) != Some(p)
    ensures
      var before, after := VersionAt(s.files, p), VersionAt(Apply(s, a).files, p);
      after == before || after == None
  {
    hide Companion;
  }

  lemma StepKeepsScreenedFirst(s: State, a: Action)
    requires ScreenedFirst(s) && Enabled(s, a) && (a.Screen? ==> ReadsOwn(s, a.x)) && Steady(s, a)
    ensures ScreenedFirst(Apply(s, a))
  {
    forall x | x in Apply(s, a).execs ensures ScreenedExec(Apply(s, a), Apply(s, a).execs[x]) {
      StepKeepsScreenedExec(s, a, x);
    }
    assert !a.AddMedia? && !a.QueueConversion? && a.x in s.execs ==> ScreenedExec(s, s.execs[a.x]);
    if s.row.Downloaded? { FileStaysOrGoes(s, a, s.row.path); }
    hide Companion, ScreenedExec;
  }

  lemma {:induction false} RunScreensFirst(s: State, actions: seq<Action>)
    requires ScreenedFirst(s) && Runs(s, actions) && ScreensOwnFiles(s, actions)
    ensures ScreenedFirst(After(s, actions))
    decreases |actions|
  {
    if actions != [] {
      StepKeepsScreenedFirst(s, actions[0]);
      RunScreensFirst(Apply(s, actions[0]), actions[1..]);
    }
  }

  // The condition is exact: an execution about to screen can write a row for a file that nobody has found clean with
  // its next two steps if and only if the transcript it is about to read is missing, not whole, or not of that file.
  lemma UnscreenedRowIff(s: State, x: nat)
    requires x in s.execs && s.execs[x].phase.Screening? && !FoundClean(s, VersionAt(s.files, s.execs[x].hand.media))
    ensures (exists v: Verdict :: InsertsUnscreened(s, x, v)) <==> !ReadsOwn(s, x)
  {
    hide Companion;
    var of := VersionAt(s.files, s.execs[x].hand.media);
    forall v: Verdict
      ensures InsertsUnscreened(s, x, v) <==>
              Apply(s, Screen(x, v)).execs[x].phase.Inserting? && !FoundClean(Apply(s, Screen(x, v)), of)
    {
      TwoSteps(s, Screen(x, v), Insert(x));
    }
    assert !ReadsOwn(s, x) ==> InsertsUnscreened(s, x, Clean);
  }

  ghost predicate InsertsUnscreened(s: State, x: nat, v: Verdict)
    requires x in s.execs
  {
    && Runs(s, [Screen(x, v), Insert(x)])
    && var end, media := After(s, [Screen(x, v), Insert(x)]), s.execs[x].hand.media;
       end.row == Downloaded(media, VersionAt(s.files, media)) && !FoundClean(end, end.row.of)
  }

  // So is the other one: writing a media file exposes it unscreened if and only if a row names its path.
  lemma OverwritingExposesIff(s: State, a: Action)
    requires Numbered(s) && !Exposed(s) && Enabled(s, a) && WrittenPath(s, a).Some?
    ensures Exposed(Apply(s, a)) <==> s.row.Downloaded? && s.row.path == WrittenPath(s, a).value
  {
    hide Companion;
  }

  lemma TwoSteps(s: State, a: Action, b: Action)
    requires Enabled(s, a)
    ensures Runs(s, [a, b]) <==> Enabled(Apply(s, a), b)
    ensures Runs(s, [a, b]) ==> After(s, [a, b]) == Apply(Apply(s, a), b)
  {
    assert [a, b][1..] == [b] && [b][1..] == [];
    assert Runs(Apply(s, a), [b]) <==> Enabled(Apply(s, a), b);
    if Enabled(Apply(s, a), b) {
      assert Runs(Apply(Apply(s, a), b), []);
      assert After(Apply(s, a), [b]) == Apply(Apply(s, a), b);
    }
  }

  // ---------------------------------------------------------------------------
  // Every screening reads the transcript of its own file when screenings of the item take turns, leave each other's
  // files alone, and find no subtitle but that of the file they are for.

  predicate Busy(e: Exec) { !e.phase.Converting? && !e.phase.Cleaning? }

  ghost predicate InTurn(s: State, a: Action)
    requires Enabled(s, a)
  {
    && (a.BeginDirect? || a.BeginTranscript? ==> forall y | y in s.execs :: !Busy(s.execs[y]))
    && (a.Look? ==>
          var media := s.execs[a.x].hand.media;
          media in s.files && Subtitle(media) in s.files ==> ReadsOwn(s, a.x))
    && (forall y | y in s.execs && Busy(s.execs[y]) && !ActsAs(a, y) ::
          var media := s.execs[y].hand.media;
          VersionAt(Apply(s, a).files, media) == VersionAt(s.files, media))
    && (s.row.Downloaded? ==> WrittenPath(s, a) != Some(s.row.path))
  }

  ghost predicate TakesTurns(s: State, actions: seq<Action>)
    requires Runs(s, actions)
    decreases |actions|
  {
    actions != [] ==> InTurn(s, actions[0]) && TakesTurns(Apply(s, actions[0]), actions[1..])
  }

  ghost predicate TurnExec(s: State, x: nat)
    requires x in s.execs
  {
    var e := s.execs[x];
    var sub, here := Subtitle(e.hand.media), VersionAt(s.files, e.hand.media);
    && MediaOnly(e.hand)
    && (e.phase.Transcribing? ==> here.Some? && e.phase.seen == here)
    && (e.phase.Writing? ==>
          here.Some? && e.phase.alone && e.phase.of == here && sub in s.files && s.files[sub] == Torn)
    && (e.phase.Screening? ==> ReadsOwn(s, x))
  }

  // Media files are where media files belong.
  ghost predicate Sorted(s: State) { forall p | p in s.files && IsMedia(p) :: s.files[p].Media? }

  ghost predicate OneAtWork(s: State, x: nat, y: nat)
    requires x in s.execs && y in s.execs
  {
    Busy(s.execs[x]) && Busy(s.execs[y]) ==> x == y
  }

  ghost predicate Turns(s: State) {
    && (forall h | h in s.toConvert + s.toScreen :: MediaOnly(h))
    && (forall x | x in s.execs :: TurnExec(s, x))
    && Sorted(s)
    && (forall x, y | x in s.execs && y in s.execs :: OneAtWork(s, x, y))
  }

  // Work begins only with a Begin step.
  lemma BusyBefore(s: State, a: Action, x: nat)
    requires Enabled(s, a) && x in Apply(s, a).execs && Busy(Apply(s, a).execs[x])
    ensures (x in s.execs && Busy(s.execs[x])) || ((a.BeginDirect? || a.BeginTranscript?) && a.x == x)
  {
    hide Companions, WritesTo, Subtitle, VersionAt;
  }

  lemma StepKeepsOneAtWork(s: State, a: Action, x: nat, y: nat)
    requires Enabled(s, a) && InTurn(s, a)
    requires x in s.execs && y in s.execs ==> OneAtWork(s, x, y)
    requires x in Apply(s, a).execs && y in Apply(s, a).execs
    ensures OneAtWork(Apply(s, a), x, y)
  {
    hide Enabled, Apply, Busy;
    if Busy(Apply(s, a).execs[x]) && Busy(Apply(s, a).execs[y]) {
      BusyBefore(s, a, x);
      BusyBefore(s, a, y);
    }
  }

  // Subtitles change only at the hands of who is at work on them.
  lemma SubtitlesStay(s: State, a: Action, sub: Path)
    requires Enabled(s, a) && !IsMedia(sub)
    requires !a.AddMedia? && !a.QueueConversion? && a.x in s.execs ==>
               MediaOnly(s.execs[a.x].hand) && !Busy(s.execs[a.x])
    ensures sub in s.files <==> sub in Apply(s, a).files
    ensures sub in s.files ==> Apply(s, a).files[sub] == s.files[sub]
  {
    hide Companion;
    assert a.CleanUp? ==> s.execs[a.x].hand.sources[s.execs[a.x].phase.next] in s.execs[a.x].hand.sources;
  }

  // Steps of another execution, or of the surroundings.
  lemma OthersKeepTurnExec(s: State, a: Action, x: nat)
    requires Enabled(s, a) && InTurn(s, a) && x in s.execs && TurnExec(s, x) && !ActsAs(a, x)
    requires !a.AddMedia? && !a.QueueConversion? && a.x in s.execs ==> TurnExec(s, a.x) && OneAtWork(s, x, a.x)
    ensures x in Apply(s, a).execs && TurnExec(Apply(s, a), x)
  {
    assert Apply(s, a).execs[x] == s.execs[x] by { OthersStay(s, a, x); }
    if Busy(s.execs[x]) { SubtitlesStay(s, a, Subtitle(s.execs[x].hand.media)); }
    hide Apply, Enabled;
  }

  lemma OthersStay(s: State, a: Action, x: nat)
    requires Enabled(s, a) && x in s.execs && !ActsAs(a, x)
    ensures x in Apply(s, a).execs && Apply(s, a).execs[x] == s.execs[x]
  {
    hide Companions, WritesTo, Subtitle, VersionAt;
  }

  lemma OwnStepKeepsTurnExec(s: State, a: Action)
    requires Enabled(s, a) && InTurn(s, a) && Sorted(s) && !a.AddMedia? && !a.QueueConversion?
    requires if a.x in s.execs then TurnExec(s, a.x) else forall h | h in s.toConvert + s.toScreen :: MediaOnly(h)
    requires a.Open? ==> forall y | y in s.execs :: !WritesTo(s.execs[y], Subtitle(s.execs[a.x].hand.media))
    ensures a.x in Apply(s, a).execs ==> TurnExec(Apply(s, a), a.x)
  {
    hide Companion;
  }

  lemma StepKeepsTurnExec(s: State, a: Action, x: nat)
    requires Turns(s) && Enabled(s, a) && InTurn(s, a) && x in Apply(s, a).execs
    ensures TurnExec(Apply(s, a), x)
  {
    if !ActsAs(a, x) {
      assert x in s.execs && TurnExec(s, x) by { NewIsActor(s, a, x); }
      assert !a.AddMedia? && !a.QueueConversion? && a.x in s.execs ==> TurnExec(s, a.x) && OneAtWork(s, x, a.x);
      OthersKeepTurnExec(s, a, x);
    } else {
      assert x in s.execs ==> TurnExec(s, x);
      assert forall y | y in s.execs && y != x :: x in s.execs ==> OneAtWork(s, x, y);
      OwnStepKeepsTurnExec(s, a);
    }
  }

  lemma NewIsActor(s: State, a: Action, x: nat)
    requires Enabled(s, a) && x in Apply(s, a).execs && !ActsAs(a, x)
    ensures x in s.execs
  {
    hide Companions, WritesTo, Subtitle, VersionAt;
  }

  lemma StepKeepsSorted(s: State, a: Action)
    requires Sorted(s) && Enabled(s, a)
    ensures Sorted(Apply(s, a))
  {
    hide Companion;
  }

  lemma StepKeepsTurns(s: State, a: Action)
    requires Turns(s) && Enabled(s, a) && InTurn(s, a)
    ensures Turns(Apply(s, a))
  {
    StepKeepsHands(s, a);
    StepKeepsSorted(s, a);
    assert forall x, y | x in s.execs && y in s.execs :: OneAtWork(s, x, y);
    var s' := Apply(s, a);
    forall x | x in s'.execs ensures TurnExec(s', x) { StepKeepsTurnExec(s, a, x); }
    hide OneAtWork, TurnExec, Apply, Enabled, InTurn, MediaOnly, Sorted;
    forall x, y | x in s'.execs && y in s'.execs ensures OneAtWork(s', x, y) { StepKeepsOneAtWork(s, a, x, y); }
  }

  lemma StepKeepsHands(s: State, a: Action)
    requires Turns(s) && Enabled(s, a)
    ensures forall h | h in Apply(s, a).toConvert + Apply(s, a).toScreen :: MediaOnly(h)
  {
    assert a.Convert? ==> TurnExec(s, a.x);
    hide Companions, WritesTo, Subtitle, MediaOnly, OneAtWork, Sorted, VersionAt;
  }

  lemma TurnsAreSteady(s: State, a: Action)
    requires Turns(s) && Enabled(s, a) && InTurn(s, a)
    ensures (a.Screen? ==> ReadsOwn(s, a.x)) && Steady(s, a)
  {
    assert a.Screen? ==> TurnExec(s, a.x);
    hide Apply, Enabled;
  }

  lemma {:induction false} TurnsScreenOwnFiles(s: State, actions: seq<Action>)
    requires Turns(s) && Runs(s, actions) && TakesTurns(s, actions)
    ensures ScreensOwnFiles(s, actions) && Turns(After(s, actions))
    decreases |actions|
  {
    if actions != [] {
      TurnsAreSteady(s, actions[0]);
      StepKeepsTurns(s, actions[0]);
      TurnsScreenOwnFiles(Apply(s, actions[0]), actions[1..]);
    }
  }

  // Main result, for both routes, crashes and duplicates: under these conditions the item is DOWNLOADED only with a
  // file that was there and whose own transcript was found clean, no other file ever comes to be in the library,
  // and it is FILTERED only after a match.
  lemma NothingIsExposedUnscreened(start: State, actions: seq<Action>)
    requires Fresh(start) && Sorted(start) && Runs(start, actions) && TakesTurns(start, actions)
    ensures After(start, actions).row.Downloaded? ==> FoundClean(After(start, actions), After(start, actions).row.of)
    ensures !Exposed(After(start, actions))
    ensures After(start, actions).row.Filtered? ==> After(start, actions).matched
  {
    TurnsScreenOwnFiles(start, actions);
    RunScreensFirst(start, actions);
  }

  // ---------------------------------------------------------------------------
  // What goes wrong otherwise.

  lemma Prepend(s: State, a: Action, rest: seq<Action>, end: State) returns (actions: seq<Action>)
    requires Enabled(s, a) && Runs(Apply(s, a), rest) && After(Apply(s, a), rest) == end
    ensures Runs(s, actions) && After(s, actions) == end && actions == [a] + rest
  {
    actions := [a] + rest;
    assert actions[1..] == rest;
  }

  // The state once every file set out for deletion was tried; `stubborn` files cannot be deleted.
  function AllDropped(s: State, x: nat, stubborn: set<Path>): State
    requires x in s.execs && s.execs[x].phase.Dropping?
  {
    var phase := s.execs[x].phase;
    Moved(s.(files := s.files - (phase.left - stubborn)), x, phase.(left := {}))
  }

  lemma {:induction false} DropAll(s: State, x: nat, stubborn: set<Path>, rest: seq<Action>, end: State)
    returns (actions: seq<Action>)
    requires x in s.execs && s.execs[x].phase.Dropping?
    requires Runs(AllDropped(s, x, stubborn), rest) && After(AllDropped(s, x, stubborn), rest) == end
    ensures Runs(s, actions) && After(s, actions) == end
    decreases s.execs[x].phase.left
  {
    hide Runs, After;
    var left := s.execs[x].phase.left;
    if left == {} {
      assert AllDropped(s, x, stubborn).files == s.files && AllDropped(s, x, stubborn).execs == s.execs;
      actions := rest;
    } else {
      var p :| p in left;
      var a := Drop(x, p, p !in stubborn);
      var s1 := Apply(s, a);
      assert AllDropped(s1, x, stubborn).files == AllDropped(s, x, stubborn).files;
      assert AllDropped(s1, x, stubborn).execs == AllDropped(s, x, stubborn).execs;
      actions := DropAll(s1, x, stubborn, rest, end);
      actions := Prepend(s, a, actions, end);
    }
  }

  const Nothing := State(NoRow, map[], {}, {}, map[], {}, false, 0)

  const Video := Files.Path("d", "v", "mp4")

  function Working(row: Row, files: map<Path, Content>, execs: map<nat, Exec>, matched: bool): State {
    State(row, files, {}, {}, execs, {}, matched, 1)
  }

  function On(phase: Phase): Exec { Exec(Hand([], Video), phase) }

  // A new video, written down as far as the open, still unfinished transcript.
  lemma ReachWriting(rest: seq<Action>, end: State) returns (actions: seq<Action>)
    requires
      var s := Working(
        NoRow, map[Video := Media(0), Subtitle(Video) := Torn], map[0 := On(Writing(true, Some(0)))], false);
      Runs(s, rest) && After(s, rest) == end
    ensures Runs(Nothing, actions) && After(Nothing, actions) == end
  {
    var s1 := Working(NoRow, map[Video := Media(0)], map[], false);
    var s2 := Working(NoRow, map[Video := Media(0)], map[0 := On(Looking)], false);
    var s3 := Working(NoRow, map[Video := Media(0)], map[0 := On(Transcribing(Some(0)))], false);
    var torn := map[Video := Media(0), Subtitle(Video) := Torn];
    var s4 := Working(NoRow, torn, map[0 := On(Writing(true, Some(0)))], false);
    assert Apply(Nothing, AddMedia(Video)) == s1;
    assert Apply(s1, BeginDirect(0, Video)) == s2;
    assert Apply(s2, Look(0)) == s3;
    assert Apply(s3, Open(0)) == s4;
    hide Runs, After;
    actions := Prepend(s3, Open(0), rest, end);
    actions := Prepend(s2, Look(0), actions, end);
    actions := Prepend(s1, BeginDirect(0, Video), actions, end);
    actions := Prepend(Nothing, AddMedia(Video), actions, end);
  }

  // A worker that dies while writing leaves the beginning of a transcript; the next one takes it for the
  // transcript, and an execution on its own exposes a video of which nobody has read the rest.
  lemma TornTranscriptExposesVideo() returns (actions: seq<Action>)
    ensures Runs(Nothing, actions)
    ensures Exposed(After(Nothing, actions)) && After(Nothing, actions).clean == {}
  {
    hide Runs, After, Apply;
    var files := map[Video := Media(0), Subtitle(Video) := Torn];
    var end := Working(Downloaded(Video, Some(0)), files, map[1 := On(Cleaning(0))], false);
    actions := ScreenAndInsert(files, end);
    actions := CrashAndRetry(files, actions, end);
    actions := ReachWriting(actions, end);
  }

  lemma CrashAndRetry(files: map<Path, Content>, rest: seq<Action>, end: State) returns (actions: seq<Action>)
    requires files == map[Video := Media(0), Subtitle(Video) := Torn]
    requires var s := Working(NoRow, files, map[1 := On(Screening)], false); Runs(s, rest) && After(s, rest) == end
    ensures var s := Working(NoRow, files, map[0 := On(Writing(true, Some(0)))], false);
            Runs(s, actions) && After(s, actions) == end
  {
    hide Runs, After;
    var s1 := Working(NoRow, files, map[0 := On(Writing(true, Some(0)))], false);
    var s2 := Working(NoRow, files, map[], false);
    var s3 := Working(NoRow, files, map[1 := On(Looking)], false);
    assert Apply(s1, Crash(0)).execs == s2.execs;
    assert Apply(s2, BeginDirect(1, Video)).execs == s3.execs;
    assert Apply(s3, Look(1)).execs == map[1 := On(Screening)];
    actions := Prepend(s3, Look(1), rest, end);
    actions := Prepend(s2, BeginDirect(1, Video), actions, end);
    actions := Prepend(s1, Crash(0), actions, end);
  }

  lemma ScreenAndInsert(files: map<Path, Content>, end: State) returns (actions: seq<Action>)
    requires files == map[Video := Media(0), Subtitle(Video) := Torn]
    requires end == Working(Downloaded(Video, Some(0)), files, map[1 := On(Cleaning(0))], false)
    ensures var s := Working(NoRow, files, map[1 := On(Screening)], false);
            Runs(s, actions) && After(s, actions) == end
  {
    var s1 := Working(NoRow, files, map[1 := On(Screening)], false);
    var s2 := Working(NoRow, files, map[1 := On(Inserting)], false);
    assert Apply(s1, Screen(1, Clean)).execs == s2.execs;
    assert Apply(s2, Insert(1)).execs == end.execs;
    TwoSteps(s1, Screen(1, Clean), Insert(1));
    actions := [Screen(1, Clean), Insert(1)];
  }

  // Another video left its file and transcript under the name the new one gets. The download replaces the file; one
  // execution, alone and undisturbed, takes the transcript that is there, and the new video is in the library
  // although nobody has transcribed it.
  const LeftOver := State(
    NoRow, map[Video := Media(0), Subtitle(Video) := Whole(Some(0))], {}, {}, map[], {}, false, 1)

  lemma StaleTranscriptExposesVideo() returns (actions: seq<Action>)
    ensures Fresh(LeftOver) && actions == [AddMedia(Video), BeginDirect(0, Video), Look(0), Screen(0, Clean), Insert(0)]
    ensures Runs(LeftOver, actions)
    ensures After(LeftOver, actions).row == Downloaded(Video, Some(1)) && Exposed(After(LeftOver, actions))
  {
    hide Runs, After, Companion;
    var files := map[Video := Media(1), Subtitle(Video) := Whole(Some(0))];
    var s1 := State(NoRow, files, {}, {}, map[], {}, false, 2);
    var s2 := s1.(execs := map[0 := On(Looking)]);
    var s3 := s1.(execs := map[0 := On(Screening)]);
    var end: State;
    actions, end := StaleVerdict(s3);
    assert Apply(LeftOver, AddMedia(Video)).files == s1.files;
    assert Apply(s1, BeginDirect(0, Video)).execs == s2.execs;
    assert Apply(s2, Look(0)).execs == s3.execs;
    actions := Prepend(s2, Look(0), actions, end);
    actions := Prepend(s1, BeginDirect(0, Video), actions, end);
    actions := Prepend(LeftOver, AddMedia(Video), actions, end);
  }

  lemma StaleVerdict(s: State) returns (actions: seq<Action>, end: State)
    requires s == State(NoRow, map[Video := Media(1), Subtitle(Video) := Whole(Some(0))], {}, {},
                        map[0 := On(Screening)], {}, false, 2)
    ensures actions == [Screen(0, Clean), Insert(0)] && Runs(s, actions) && After(s, actions) == end
    ensures end.row == Downloaded(Video, Some(1)) && Exposed(end)
  {
    actions := [Screen(0, Clean), Insert(0)];
    var s1 := s.(clean := {0}, execs := map[0 := On(Inserting)]);
    assert Apply(s, Screen(0, Clean)).execs == s1.execs && Apply(s, Screen(0, Clean)).clean == s1.clean;
    end := Apply(s1, Insert(0));
    TwoSteps(s, Screen(0, Clean), Insert(0));
  }

  // Two executions at once: the first finds a match and deletes the transcript before the second reads it. The
  // second takes the missing transcript for a clean one and exposes the video that was just filtered.
  lemma MissingTranscriptExposesVideo() returns (actions: seq<Action>)
    ensures Runs(Nothing, actions)
    ensures
      var s := After(Nothing, actions);
      s.row == Downloaded(Video, None) && s.matched && s.clean == {} && Video !in s.files
  {
    hide Runs, After, Apply;
    var end := Working(Downloaded(Video, None), map[], map[0 := On(Cleaning(0)), 1 := On(Cleaning(0))], true);
    actions := RecordAndInsert(end);
    actions := DropBoth(actions, end);
    actions := FindMatch(actions, end);
    actions := SecondArrives(actions, end);
    actions := ReachWriting(actions, end);
  }

  lemma SecondArrives(rest: seq<Action>, end: State) returns (actions: seq<Action>)
    requires
      var s := Working(NoRow, map[Video := Media(0), Subtitle(Video) := Whole(Some(0))],
                       map[0 := On(Screening), 1 := On(Screening)], false);
      Runs(s, rest) && After(s, rest) == end
    ensures
      var s := Working(
        NoRow, map[Video := Media(0), Subtitle(Video) := Torn], map[0 := On(Writing(true, Some(0)))], false);
      Runs(s, actions) && After(s, actions) == end
  {
    hide Runs, After;
    var files := map[Video := Media(0), Subtitle(Video) := Whole(Some(0))];
    var torn := map[Video := Media(0), Subtitle(Video) := Torn];
    var s0 := Working(NoRow, torn, map[0 := On(Writing(true, Some(0)))], false);
    var s1 := Working(NoRow, files, map[0 := On(Screening)], false);
    var s2 := Working(NoRow, files, map[0 := On(Screening), 1 := On(Looking)], false);
    assert Apply(s0, Close(0)).files == files && Apply(s0, Close(0)).execs == s1.execs;
    assert Apply(s1, BeginDirect(1, Video)).execs == s2.execs;
    assert Apply(s2, Look(1)).execs == map[0 := On(Screening), 1 := On(Screening)];
    actions := Prepend(s2, Look(1), rest, end);
    actions := Prepend(s1, BeginDirect(1, Video), actions, end);
    actions := Prepend(s0, Close(0), actions, end);
  }

  lemma DropBoth(rest: seq<Action>, end: State) returns (actions: seq<Action>)
    requires
      var s := Working(NoRow, map[], map[0 := On(Recording), 1 := On(Screening)], true);
      Runs(s, rest) && After(s, rest) == end
    ensures
      var s := Working(NoRow, map[Video := Media(0), Subtitle(Video) := Whole(Some(0))],
                       map[0 := On(Dropping({Video, Subtitle(Video)}, true)), 1 := On(Screening)], true);
      Runs(s, actions) && After(s, actions) == end
  {
    hide Runs, After;
    var s2 := Working(NoRow, map[Video := Media(0), Subtitle(Video) := Whole(Some(0))],
                      map[0 := On(Dropping({Video, Subtitle(Video)}, true)), 1 := On(Screening)], true);
    var s4 := Working(NoRow, map[], map[0 := On(Dropping({}, true)), 1 := On(Screening)], true);
    assert Apply(s4, Dropped(0)).execs == map[0 := On(Recording), 1 := On(Screening)];
    actions := Prepend(s4, Dropped(0), rest, end);
    assert AllDropped(s2, 0, {}).files == s4.files && AllDropped(s2, 0, {}).execs == s4.execs;
    actions := DropAll(s2, 0, {}, actions, end);
  }

  lemma FindMatch(rest: seq<Action>, end: State) returns (actions: seq<Action>)
    requires
      var s := Working(NoRow, map[Video := Media(0), Subtitle(Video) := Whole(Some(0))],
                       map[0 := On(Dropping({Video, Subtitle(Video)}, true)), 1 := On(Screening)], true);
      Runs(s, rest) && After(s, rest) == end
    ensures
      var s := Working(NoRow, map[Video := Media(0), Subtitle(Video) := Whole(Some(0))],
                       map[0 := On(Screening), 1 := On(Screening)], false);
      Runs(s, actions) && After(s, actions) == end
  {
    hide Runs, After;
    var files := map[Video := Media(0), Subtitle(Video) := Whole(Some(0))];
    var s := Working(NoRow, files, map[0 := On(Screening), 1 := On(Screening)], false);
    SubtitleIsCompanion(Video);
    assert Companions(Video, files) == {Video, Subtitle(Video)};
    hide Companion;
    assert Apply(s, Screen(0, Match)).execs ==
      map[0 := On(Dropping({Video, Subtitle(Video)}, true)), 1 := On(Screening)];
    actions := Prepend(s, Screen(0, Match), rest, end);
  }

  lemma RecordAndInsert(end: State) returns (actions: seq<Action>)
    requires end == Working(Downloaded(Video, None), map[], map[0 := On(Cleaning(0)), 1 := On(Cleaning(0))], true)
    ensures
      var s := Working(NoRow, map[], map[0 := On(Recording), 1 := On(Screening)], true);
      Runs(s, actions) && After(s, actions) == end
  {
    var s := Working(NoRow, map[], map[0 := On(Recording), 1 := On(Screening)], true);
    var s1 := Working(Filtered, map[], map[0 := On(Cleaning(0)), 1 := On(Screening)], true);
    var s2 := Working(Filtered, map[], map[0 := On(Cleaning(0)), 1 := On(Inserting)], true);
    assert Apply(s, Record(0)).execs == s1.execs;
    assert Apply(s1, Screen(1, Clean)).execs == s2.execs;
    assert Apply(s2, Insert(1)).execs == end.execs;
    TwoSteps(s1, Screen(1, Clean), Insert(1));
    hide Runs, After;
    actions := Prepend(s, Record(0), [Screen(1, Clean), Insert(1)], end);
  }

  // A second conversion of the same input writes over the file between its verdict and its row.
  const Conversion := Hand([Files.Path("d", "v", "webm")], Video)

  function Queued(
    toScreen: set<Hand>, files: map<Path, Content>, execs: map<nat, Exec>, clean: set<nat>, next: nat): State
  {
    State(NoRow, files + map[Conversion.sources[0] := Media(0)], {Conversion}, toScreen, execs, clean, false, next)
  }

  lemma DuplicateConversionExposesVideo() returns (actions: seq<Action>)
    ensures Runs(Nothing, actions)
    ensures After(Nothing, actions).row == Downloaded(Video, Some(2)) && Exposed(After(Nothing, actions))
  {
    var sub := Subtitle(Video);
    var s := Queued({Conversion}, map[Video := Media(1), sub := Whole(Some(1))],
                    map[1 := Exec(Conversion, Converting), 2 := Exec(Conversion, Inserting)], {1}, 2);
    var s1 := Apply(s, Convert(1, true));
    var end := Apply(s1, Insert(2));
    assert end.row == Downloaded(Video, Some(2)) && Exposed(end);
    TwoSteps(s, Convert(1, true), Insert(2));
    hide Runs, After, Apply;
    actions := ScreensFirst([Convert(1, true), Insert(2)], end);
    actions := ConvertsFirst(actions, end);
  }

  lemma ScreensFirst(rest: seq<Action>, end: State) returns (actions: seq<Action>)
    requires
      var s := Queued({Conversion}, map[Video := Media(1), Subtitle(Video) := Whole(Some(1))],
                      map[1 := Exec(Conversion, Converting), 2 := Exec(Conversion, Inserting)], {1}, 2);
      Runs(s, rest) && After(s, rest) == end
    ensures
      var s := Queued({Conversion}, map[Video := Media(1)], map[1 := Exec(Conversion, Converting)], {}, 2);
      Runs(s, actions) && After(s, actions) == end
  {
    hide Runs, After;
    var c := Exec(Conversion, Converting);
    var files := map[Video := Media(1)];
    var s0 := Queued({Conversion}, files, map[1 := c], {}, 2);
    var s1 := Queued({Conversion}, files, map[1 := c, 2 := Exec(Conversion, Looking)], {}, 2);
    var s2 := Queued({Conversion}, files, map[1 := c, 2 := Exec(Conversion, Transcribing(Some(1)))], {}, 2);
    assert Apply(s0, BeginTranscript(2, Conversion)).execs == s1.execs;
    assert Apply(s1, Look(2)).execs == s2.execs;
    actions := TranscribesAndScreens(rest, end);
    actions := Prepend(s1, Look(2), actions, end);
    actions := Prepend(s0, BeginTranscript(2, Conversion), actions, end);
  }

  lemma TranscribesAndScreens(rest: seq<Action>, end: State) returns (actions: seq<Action>)
    requires
      var s := Queued({Conversion}, map[Video := Media(1), Subtitle(Video) := Whole(Some(1))],
                      map[1 := Exec(Conversion, Converting), 2 := Exec(Conversion, Inserting)], {1}, 2);
      Runs(s, rest) && After(s, rest) == end
    ensures
      var s := Queued({Conversion}, map[Video := Media(1)],
                      map[1 := Exec(Conversion, Converting), 2 := Exec(Conversion, Transcribing(Some(1)))], {}, 2);
      Runs(s, actions) && After(s, actions) == end
  {
    hide Runs, After;
    hide Companion;
    var c := Exec(Conversion, Converting);
    var whole := map[Video := Media(1), Subtitle(Video) := Whole(Some(1))];
    var s4 := Queued({Conversion}, whole, map[1 := c, 2 := Exec(Conversion, Screening)], {}, 2);
    assert Apply(s4, Screen(2, Clean)).execs == map[1 := c, 2 := Exec(Conversion, Inserting)];
    assert Apply(s4, Screen(2, Clean)).clean == {1};
    actions := Prepend(s4, Screen(2, Clean), rest, end);
    actions := Transcribes(actions, end);
  }

  lemma Transcribes(rest: seq<Action>, end: State) returns (actions: seq<Action>)
    requires
      var s := Queued({Conversion}, map[Video := Media(1), Subtitle(Video) := Whole(Some(1))],
                      map[1 := Exec(Conversion, Converting), 2 := Exec(Conversion, Screening)], {}, 2);
      Runs(s, rest) && After(s, rest) == end
    ensures
      var s := Queued({Conversion}, map[Video := Media(1)],
                      map[1 := Exec(Conversion, Converting), 2 := Exec(Conversion, Transcribing(Some(1)))], {}, 2);
      Runs(s, actions) && After(s, actions) == end
  {
    hide Runs, After, Companion;
    var c := Exec(Conversion, Converting);
    var s2 := Queued({Conversion}, map[Video := Media(1)],
                     map[1 := c, 2 := Exec(Conversion, Transcribing(Some(1)))], {}, 2);
    var s4 := Queued({Conversion}, map[Video := Media(1), Subtitle(Video) := Whole(Some(1))],
                     map[1 := c, 2 := Exec(Conversion, Screening)], {}, 2);
    assert s4.files == s2.files[Subtitle(Video) := Whole(Some(1))];
    assert s4.execs == s2.execs[2 := Exec(Conversion, Screening)];
    actions := WritingRun(s2, 2, s4, rest, end);
  }

  lemma ConvertsFirst(rest: seq<Action>, end: State) returns (actions: seq<Action>)
    requires
      var s := Queued({Conversion}, map[Video := Media(1)], map[1 := Exec(Conversion, Converting)], {}, 2);
      Runs(s, rest) && After(s, rest) == end
    ensures Runs(Nothing, actions) && After(Nothing, actions) == end
  {
    hide Runs, After;
    var c, S := Exec(Conversion, Converting), Conversion.sources[0];
    var s1 := State(NoRow, map[S := Media(0)], {}, {}, map[], {}, false, 1);
    var s2 := Queued({}, map[], map[], {}, 1);
    var s3 := Queued({}, map[], map[0 := c], {}, 1);
    var s4 := Queued({}, map[], map[0 := c, 1 := c], {}, 1);
    var s5 := Queued({Conversion}, map[Video := Media(1)], map[1 := c], {}, 2);
    assert Apply(Nothing, AddMedia(S)).files == s1.files;
    assert s2.files == s1.files && Apply(s1, QueueConversion(Conversion)).toConvert == s2.toConvert;
    assert Apply(s2, BeginConversion(0, Conversion)).execs == s3.execs;
    assert Apply(s3, BeginConversion(1, Conversion)).execs == s4.execs;
    assert Apply(s4, Convert(0, true)).execs == s5.execs && Apply(s4, Convert(0, true)).files == s5.files;
    assert Apply(s4, Convert(0, true)).toScreen == s5.toScreen;
    actions := Prepend(s4, Convert(0, true), rest, end);
    actions := Prepend(s3, BeginConversion(1, Conversion), actions, end);
    actions := Prepend(s2, BeginConversion(0, Conversion), actions, end);
    actions := Prepend(s1, QueueConversion(Conversion), actions, end);
    actions := Prepend(Nothing, AddMedia(S), actions, end);
  }

  // ---------------------------------------------------------------------------
  // When a row keeps its video.

  // A failing execution deletes the row's file, with the media and its companions or with the conversion's inputs.
  predicate Endangers(row: Row, hand: Hand) {
    row.Downloaded? && (Companion(hand.media, row.path) || row.path in hand.sources)
  }

  // The step turns the execution to deleting without a match.
  predicate Fails(s: State, a: Action)
    requires Enabled(s, a)
  {
    match a
    case Look(x) => s.execs[x].hand.media !in s.files
    case GiveUp(x) => true
    case Close(x) => Subtitle(s.execs[x].hand.media) !in s.files
    case Screen(x, verdict) => verdict.Failure? && Subtitle(s.execs[x].hand.media) in s.files
    case _ => false
  }

  // Files are being deleted for a match that the row does not show yet.
  predicate ActsOnMatch(e: Exec) { (e.phase.Dropping? && e.phase.matched) || e.phase.Recording? }

  // Work on the item goes one by one; no execution that endangers the row fails, or dies acting on a match.
  ghost predicate Careful(s: State, a: Action)
    requires Enabled(s, a)
  {
    && (a.BeginDirect? || a.BeginTranscript? ==> forall y | y in s.execs :: s.execs[y].phase.Converting?)
    && (Fails(s, a) ==> !Endangers(s.row, s.execs[a.x].hand))
    && (a.Crash? && ActsOnMatch(s.execs[a.x]) ==> !Endangers(s.row, s.execs[a.x].hand))
  }

  ghost predicate CarefulRun(s: State, actions: seq<Action>)
    requires Runs(s, actions)
    decreases |actions|
  {
    actions != [] ==> Careful(s, actions[0]) && CarefulRun(Apply(s, actions[0]), actions[1..])
  }

  ghost predicate AloneAtWork(s: State, x: nat)
    requires x in s.execs
  {
    forall y | y in s.execs :: s.execs[x].phase.Converting? || s.execs[y].phase.Converting? || x == y
  }

  ghost predicate KeepsMedia(s: State, x: nat)
    requires x in s.execs
  {
    var e := s.execs[x];
    && (e.phase.Transcribing? || e.phase.Writing? || e.phase.Screening? || e.phase.Inserting? ==>
        e.hand.media in s.files)
    && (e.phase.Dropping? ==> forall p | p in e.phase.left :: Companion(e.hand.media, p))
    && (e.phase.Dropping? && !e.phase.matched ==> !Endangers(s.row, e.hand))
    && (e.phase.Cleaning? && s.row.Downloaded? && s.row.path in e.hand.sources ==> s.row.path == e.hand.media)
  }

  // The row's file is there, unless somebody is about to say that the item is filtered.
  ghost predicate RowKept(s: State) {
    s.row.Downloaded? ==>
      s.row.path in s.files || exists x :: x in s.execs && ActsOnMatch(s.execs[x]) && Endangers(s.row, s.execs[x].hand)
  }

  ghost predicate Kept(s: State) {
    && (forall x | x in s.execs :: KeepsMedia(s, x) && AloneAtWork(s, x))
    && RowKept(s)
  }

  lemma StepKeepsAlone(s: State, a: Action, x: nat)
    requires Enabled(s, a) && Careful(s, a) && x in Apply(s, a).execs
    requires forall y | y in s.execs :: AloneAtWork(s, y)
    ensures AloneAtWork(Apply(s, a), x)
  {
    hide Companions, IsMedia, MediaOnly, WritesTo, Subtitle, Endangers, ActsOnMatch, Fails;
  }

  // A neighbour at work leaves only conversions beside it.
  lemma OthersKeepMedia(s: State, a: Action, x: nat)
    requires Enabled(s, a) && Careful(s, a) && x in s.execs && KeepsMedia(s, x) && AloneAtWork(s, x)
    requires a.AddMedia? || a.QueueConversion? || a.x != x
    ensures x in Apply(s, a).execs && KeepsMedia(Apply(s, a), x)
  {
    hide Companion, Companions, IsMedia, MediaOnly, WritesTo, Subtitle, Endangers, ActsOnMatch, Fails;
    assert !a.AddMedia? && !a.QueueConversion? && a.x in s.execs && !s.execs[x].phase.Converting? ==>
        s.execs[a.x].phase.Converting?;
  }

  lemma OwnStepKeepsMedia(s: State, a: Action)
    requires Enabled(s, a) && Careful(s, a) && !a.AddMedia? && !a.QueueConversion?
    requires (a.x in s.execs ==> KeepsMedia(s, a.x)) && a.x in Apply(s, a).execs
    ensures KeepsMedia(Apply(s, a), a.x)
  {
    if a.x in s.execs { CompanionsAre(s.execs[a.x].hand.media, s.files); }
    hide Companion, Companions, IsMedia, MediaOnly, WritesTo, ActsOnMatch, VersionAt, Vouched;
  }

  lemma CompanionsAre(media: Path, files: map<Path, Content>)
    ensures forall p | p in Companions(media, files) :: Companion(media, p)
  {}

  lemma StepKeepsMedia(s: State, a: Action, x: nat)
    requires Kept(s) && Enabled(s, a) && Careful(s, a) && x in Apply(s, a).execs
    ensures KeepsMedia(Apply(s, a), x)
  {
    if a.AddMedia? || a.QueueConversion? || a.x != x {
      assert x in s.execs && KeepsMedia(s, x) && AloneAtWork(s, x);
      OthersKeepMedia(s, a, x);
    } else {
      assert x in s.execs ==> KeepsMedia(s, x);
      OwnStepKeepsMedia(s, a);
    }
  }

  // What the actor does to the row's file.
  lemma StepKeepsRowFile(s: State, a: Action)
    requires Enabled(s, a) && Careful(s, a) && s.row.Downloaded? && s.row.path in s.files
    requires !a.AddMedia? && !a.QueueConversion? && a.x in s.execs ==> KeepsMedia(s, a.x)
    ensures RowKept(Apply(s, a))
  {
    hide Companions, IsMedia, MediaOnly, WritesTo, Subtitle, Fails;
    var s' := Apply(s, a);
    if a.Drop? && a.path == s.row.path {
      assert Companion(s.execs[a.x].hand.media, a.path);
      assert a.x in s'.execs && Endangers(s'.row, s'.execs[a.x].hand) && ActsOnMatch(s'.execs[a.x]);
    }
  }

  // Who acts on a match goes on until the row says so.
  lemma StepKeepsMatch(s: State, a: Action, x: nat)
    requires Enabled(s, a) && Careful(s, a) && x in s.execs && AloneAtWork(s, x)
    requires ActsOnMatch(s.execs[x]) && Endangers(s.row, s.execs[x].hand)
    ensures RowKept(Apply(s, a))
  {
    hide Companions, IsMedia, MediaOnly, WritesTo, Subtitle, Fails, Companion;
    var s' := Apply(s, a);
    if !a.AddMedia? && !a.QueueConversion? && a.x in s.execs && a.x != x { assert s.execs[a.x].phase.Converting?; }
    if s'.row == s.row {
      assert x in s'.execs && ActsOnMatch(s'.execs[x]) && s'.execs[x].hand == s.execs[x].hand;
    }
  }

  // A row appears with its file, from an execution that has its media.
  lemma StepInsertsWithFile(s: State, a: Action)
    requires Enabled(s, a) && !s.row.Downloaded?
    requires !a.AddMedia? && !a.QueueConversion? && a.x in s.execs ==> KeepsMedia(s, a.x)
    ensures RowKept(Apply(s, a))
  {
    hide Companions, IsMedia, MediaOnly, WritesTo, Subtitle, Companion;
  }

  lemma StepKeepsKept(s: State, a: Action)
    requires Kept(s) && Enabled(s, a) && Careful(s, a)
    ensures Kept(Apply(s, a))
  {
    var s' := Apply(s, a);
    forall x | x in s'.execs ensures KeepsMedia(s', x) && AloneAtWork(s', x) {
      StepKeepsMedia(s, a, x);
      StepKeepsAlone(s, a, x);
    }
    assert !a.AddMedia? && !a.QueueConversion? && a.x in s.execs ==> KeepsMedia(s, a.x);
    if !s.row.Downloaded? {
      StepInsertsWithFile(s, a);
    } else if s.row.path in s.files {
      StepKeepsRowFile(s, a);
    } else {
      var x :| x in s.execs && ActsOnMatch(s.execs[x]) && Endangers(s.row, s.execs[x].hand);
      StepKeepsMatch(s, a, x);
    }
    hide KeepsMedia, AloneAtWork, RowKept, Apply, Enabled, Careful;
  }

  lemma {:induction false} RunKeepsKept(s: State, actions: seq<Action>)
    requires Kept(s) && Runs(s, actions) && CarefulRun(s, actions)
    ensures Kept(After(s, actions))
    decreases |actions|
  {
    if actions != [] {
      StepKeepsKept(s, actions[0]);
      RunKeepsKept(Apply(s, actions[0]), actions[1..]);
    }
  }

  // Whatever is screened again and with whatever verdict, under this care a DOWNLOADED row names an existing file
  // whenever nobody is acting on a match.
  lemma ItemsKeepTheirMedia(start: State, actions: seq<Action>)
    requires Fresh(start) && Runs(start, actions) && CarefulRun(start, actions)
    requires forall x | x in After(start, actions).execs :: !ActsOnMatch(After(start, actions).execs[x])
    ensures After(start, actions).row.Downloaded? ==> After(start, actions).row.path in After(start, actions).files
  {
    RunKeepsKept(start, actions);
  }

  // ---------------------------------------------------------------------------
  // Files of other videos stay.

  // By name, the file is neither the media nor named after it with a dot, nor an input.
  predicate Spares(hand: Hand, p: Path) {
    && p != hand.media && p !in hand.sources
    && (p.dir == hand.media.dir ==> !(hand.media.stem + "." <= p.stem + "." + p.ext))
  }

  // Where no stem has a dot: it has another directory or another stem.
  lemma SparesOtherStems(hand: Hand, p: Path)
    requires '.' !in hand.media.stem && '.' !in p.stem
    ensures Spares(hand, p) <==> (p.dir != hand.media.dir || p.stem != hand.media.stem) && p !in hand.sources
  {
    var stem, name := hand.media.stem, p.stem + "." + p.ext;
    assert forall i | 0 <= i < |p.stem| :: name[i] == p.stem[i] && p.stem[i] in p.stem;
    assert name[|p.stem|] == '.' && name[..|p.stem| + 1] == p.stem + ".";
    if stem + "." <= name {
      assert name[|stem|] == '.' && stem == name[..|stem|];
      assert forall i | 0 <= i < |stem| :: name[i] == stem[i] && stem[i] in stem;
      assert |stem| == |p.stem| && stem == p.stem;
    }
  }

  predicate SparingExec(e: Exec, p: Path) {
    Spares(e.hand, p) && (e.phase.Dropping? ==> p !in e.phase.left)
  }

  ghost predicate AllSpare(s: State, p: Path) {
    && (forall h | h in s.toConvert + s.toScreen :: Spares(h, p))
    && (forall x | x in s.execs :: SparingExec(s.execs[x], p))
  }

  predicate BeginsSparing(a: Action, p: Path) {
    && (a.BeginDirect? ==> Spares(Hand([], a.media), p))
    && (a.QueueConversion? ==> Spares(a.hand, p))
  }

  lemma SparedStays(s: State, a: Action, p: Path)
    requires AllSpare(s, p) && p in s.files && Enabled(s, a) && BeginsSparing(a, p)
    ensures AllSpare(Apply(s, a), p) && p in Apply(s, a).files
  {
    var s' := Apply(s, a);
    SparedFileStays(s, a, p);
    SparedQueues(s, a, p);
    forall x | x in s'.execs ensures SparingExec(s'.execs[x], p) { SparingExecStays(s, a, p, x); }
    hide Apply, Enabled, SparingExec, Spares;
  }

  lemma SparedFileStays(s: State, a: Action, p: Path)
    requires AllSpare(s, p) && p in s.files && Enabled(s, a)
    ensures p in Apply(s, a).files
  {
    assert !a.AddMedia? && !a.QueueConversion? && a.x in s.execs ==> SparingExec(s.execs[a.x], p);
    hide WritesTo, VersionAt, Companions, Subtitle, AllSpare, IsMedia, MediaOnly;
    if a.CleanUp? {
      var e := s.execs[a.x];
      assert e.hand.sources[e.phase.next] in e.hand.sources;
    }
  }

  lemma SparedQueues(s: State, a: Action, p: Path)
    requires AllSpare(s, p) && Enabled(s, a) && BeginsSparing(a, p)
    ensures forall h | h in Apply(s, a).toConvert + Apply(s, a).toScreen :: Spares(h, p)
  {
    assert a.Convert? ==> SparingExec(s.execs[a.x], p);
    hide WritesTo, VersionAt, Companions, Subtitle, Spares, IsMedia, MediaOnly;
  }

  lemma SparingExecStays(s: State, a: Action, p: Path, x: nat)
    requires AllSpare(s, p) && Enabled(s, a) && BeginsSparing(a, p) && x in Apply(s, a).execs
    ensures SparingExec(Apply(s, a).execs[x], p)
  {
    if x in s.execs {
      assert SparingExec(s.execs[x], p);
      NoCompanion(s.execs[x].hand, s.files, p);
    }
    assert (a.BeginConversion? && a.x == x) || (a.BeginTranscript? && a.x == x) ==> Spares(a.hand, p);
    hide AllSpare, WritesTo, VersionAt, Companions, Subtitle, Spares, IsMedia, MediaOnly, Vouched;
  }

  lemma NoCompanion(hand: Hand, files: map<Path, Content>, p: Path)
    requires Spares(hand, p)
    ensures p !in Companions(hand.media, files) && p != hand.media && p !in hand.sources
  {}

  // Whatever is screened, converted and cleaned up, with whatever verdicts, failures and crashes, a file that none of
  // the items under way has as its media, as an input, or named after its media, is still there.
  lemma {:induction false} NeighboursStay(s: State, actions: seq<Action>, p: Path)
    requires AllSpare(s, p) && p in s.files && Runs(s, actions)
    requires forall a | a in actions :: BeginsSparing(a, p)
    ensures p in After(s, actions).files && AllSpare(After(s, actions), p)
    decreases |actions|
  {
    if actions != [] {
      assert actions[0] in actions;
      SparedStays(s, actions[0], p);
      hide Apply, Enabled, AllSpare, BeginsSparing;
      NeighboursStay(Apply(s, actions[0]), actions[1..], p);
    }
  }

  // ---------------------------------------------------------------------------
  // One execution on its own.

  datatype Store = Store(row: Row, files: map<Path, Content>)

  // Is there a transcript to read?
  predicate Heard(files: map<Path, Content>, media: Path, transcribes: bool) {
    media in files && (Subtitle(media) in files || transcribes)
  }

  function WithTranscript(files: map<Path, Content>, media: Path): map<Path, Content> {
    if Subtitle(media) in files then files else files[Subtitle(media) := Whole(VersionAt(files, media))]
  }

  // What one screening makes of row and files.
  function Screened(st: Store, media: Path, transcribes: bool, verdict: Verdict, stubborn: set<Path>): Store {
    if !Heard(st.files, media, transcribes) then
      st.(files := st.files - (Companions(media, st.files) - stubborn))
    else
      var files := WithTranscript(st.files, media);
      var rest := files - (Companions(media, files) - stubborn);
      match verdict
      case Clean => Store(Downloaded(media, VersionAt(files, media)), files)
      case Match => Store(Filtered, rest)
      case Failure => Store(st.row, rest)
  }

  // The conversion's inputs are deleted, but not the screened media.
  function CleanedUp(files: map<Path, Content>, hand: Hand, stubborn: set<Path>): map<Path, Content> {
    files - (set p | p in hand.sources && p != hand.media && p !in stubborn)
  }

  // A match leaves a filtered row and no media, a failure no media and the row as it was; a clean
  // transcript leaves row, media and transcript.
  lemma ScreeningOutcomes(st: Store, media: Path, transcribes: bool, verdict: Verdict)
    ensures
      var st' := Screened(st, media, transcribes, verdict, {});
      var heard := Heard(st.files, media, transcribes);
      && (heard && verdict == Clean <==> exists p :: p in st'.files && Companion(media, p))
      && (heard && verdict == Clean ==>
            && st'.row.Downloaded? && st'.row.path == media && media in st'.files
            && Files.Path(media.dir, media.stem, "srt") in st'.files)
      && (heard && verdict == Match ==> st'.row == Filtered)
      && (!heard || verdict == Failure ==> st'.row == st.row)
      && (forall p | p in st.files && !Companion(media, p) :: p in st'.files && st'.files[p] == st.files[p])
  {
    SubtitleIsCompanion(media);
  }

  // A screening takes the file of the row it finds if and only if it fails and endangers that row.
  lemma ScreeningKeepsFileIff(st: Store, hand: Hand, transcribes: bool, verdict: Verdict)
    requires st.row.Downloaded? ==> st.row.path in st.files
    ensures
      var st' := Screened(st, hand.media, transcribes, verdict, {});
      (st'.row.Downloaded? ==> st'.row.path in CleanedUp(st'.files, hand, {})) <==>
      !(Endangers(st.row, hand) && (!Heard(st.files, hand.media, transcribes) || verdict.Failure?))
  {
    SubtitleIsCompanion(hand.media);
  }

  class MediaLibrary {
    var row: Row
    var files: map<Path, Content>

    method DeleteMediaArtifacts(media: Path, stubborn: set<Path>) returns (deleted: set<Path>)
      modifies this
      ensures row == old(row) && deleted == Companions(media, old(files)) - stubborn
      ensures files == old(files) - deleted
      ensures forall p :: p in deleted <==>
          && p in old(files) && p !in stubborn
          && (p == media || (p.dir == media.dir && media.stem + "." <= p.stem + "." + p.ext))
    {
      assert forall p :: p in Companions(media, files) <==>
        p in files && (p == media || (p.dir == media.dir && media.stem + "." <= p.stem + "." + p.ext));
      hide Companion, Companions;
      var candidates := Companions(media, files);
      deleted := {};
      var left := candidates;
      while left != {}
        invariant left <= candidates && deleted == candidates - left - stubborn
        invariant row == old(row) && files == old(files) - deleted
        decreases left
      {
        var candidate :| candidate in left;
        if candidate !in stubborn {
          files := files - {candidate};
          deleted := deleted + {candidate};
        }
        left := left - {candidate};
      }
    }

    // `transcribes`: speech recognition succeeds if it is needed; `verdict`: what reading the transcript gives.
    method ScreenBeforeInsert(media: Path, transcribes: bool, verdict: Verdict, stubborn: set<Path>)
      returns (inserted: bool)
      modifies this
      ensures Store(row, files) == Screened(old(Store(row, files)), media, transcribes, verdict, stubborn)
      ensures inserted <==> Heard(old(files), media, transcribes) && verdict == Clean
    {
      hide Companions;
      inserted := false;
      if !Heard(files, media, transcribes) {
        var _ := DeleteMediaArtifacts(media, stubborn);
        return;
      }
      files := WithTranscript(files, media);
      if verdict.Failure? {
        var _ := DeleteMediaArtifacts(media, stubborn);
        return;
      }
      if verdict.Match? {
        var _ := DeleteMediaArtifacts(media, stubborn);
        row := Filtered;
        return;
      }
      row := Downloaded(media, VersionAt(files, media));
      inserted := true;
    }

    // The deferred transcript job: whatever the screening does, the conversion's inputs go afterwards.
    method GenerateDeferredScreening(hand: Hand, transcribes: bool, verdict: Verdict, stubborn: set<Path>)
      modifies this
      ensures
        var st := Screened(old(Store(row, files)), hand.media, transcribes, verdict, stubborn);
        && row == st.row
        && files == CleanedUp(st.files, hand, stubborn)
      ensures forall p | p in hand.sources && p != hand.media && p !in stubborn :: p !in files
    {
      var _ := ScreenBeforeInsert(hand.media, transcribes, verdict, stubborn);
      ghost var screened := files;
      for n := 0 to |hand.sources|
        invariant row == Screened(old(Store(row, files)), hand.media, transcribes, verdict, stubborn).row
        invariant files == screened - (set p | p in hand.sources[..n] && p != hand.media && p !in stubborn)
      {
        assert hand.sources[..n + 1] == hand.sources[..n] + [hand.sources[n]];
        if hand.sources[n] != hand.media && hand.sources[n] in files && hand.sources[n] !in stubborn {
          files := files - {hand.sources[n]};
        }
      }
      assert hand.sources[..|hand.sources|] == hand.sources;
    }
  }

  // The execution's effects are a run of the shared system, on either route.
  lemma ScreenedIsARun(s: State, hand: Hand, transcribes: bool, verdict: Verdict, stubborn: set<Path>)
    returns (actions: seq<Action>)
    requires s.execs == map[] && (hand in s.toScreen || (hand.sources == [] && IsMedia(hand.media)))
    ensures Runs(s, actions)
    ensures
      var s', st' := After(s, actions), Screened(Store(s.row, s.files), hand.media, transcribes, verdict, stubborn);
      s'.row == st'.row && s'.files == CleanedUp(st'.files, hand, stubborn) && s'.execs == map[]
  {
    hide Companion, CleanedUp;
    var e := Exec(hand, Looking);
    var s1 := s.(execs := map[0 := e]);
    var first := if hand in s.toScreen then BeginTranscript(0, hand) else BeginDirect(0, hand.media);
    assert Apply(s, first).execs == s1.execs;
    var end;
    if !Heard(s.files, hand.media, transcribes) {
      actions, end := SilentRun(s1, transcribes, stubborn);
    } else {
      var s2 := s1.(files := WithTranscript(s.files, hand.media), execs := map[0 := e.(phase := Screening)]);
      actions, end := VerdictRun(s2, verdict, stubborn);
      actions := HearingRun(s1, s2, actions, end);
    }
    hide Runs, After;
    actions := Prepend(s, first, actions, end);
  }

  function From(hand: Hand, n: nat): Hand
    requires n <= |hand.sources|
  {
    hand.(sources := hand.sources[n..])
  }

  lemma CleanNext(files: map<Path, Content>, hand: Hand, n: nat, stubborn: set<Path>)
    requires n <= |hand.sources|
    ensures n == |hand.sources| ==> CleanedUp(files, From(hand, n), stubborn) == files
    ensures n < |hand.sources| ==>
      var p := hand.sources[n];
      CleanedUp(files, From(hand, n), stubborn) ==
        CleanedUp(if p != hand.media && p !in stubborn then files - {p} else files, From(hand, n + 1), stubborn)
  {
    if n < |hand.sources| { assert hand.sources[n..] == [hand.sources[n]] + hand.sources[n + 1..]; }
  }

  // Deletes the remaining inputs, then leaves.
  lemma {:induction false} CleaningRun(s: State, stubborn: set<Path>) returns (actions: seq<Action>, end: State)
    requires s.execs.Keys == {0} && s.execs[0].phase.Cleaning? && s.execs[0].phase.next <= |s.execs[0].hand.sources|
    ensures Runs(s, actions) && After(s, actions) == end && end.execs == map[] && end.row == s.row
    ensures end.files == CleanedUp(s.files, From(s.execs[0].hand, s.execs[0].phase.next), stubborn)
    decreases |s.execs[0].hand.sources| - s.execs[0].phase.next
  {
    var e := s.execs[0];
    CleanNext(s.files, e.hand, e.phase.next, stubborn);
    if e.phase.next == |e.hand.sources| {
      end := Apply(s, Finish(0));
      actions := [];
      assert Runs(end, actions) && After(end, actions) == end;
      hide Runs, After;
      actions := Prepend(s, Finish(0), actions, end);
    } else {
      hide Runs, After, CleanedUp, From;
      var a := CleanUp(0, e.hand.sources[e.phase.next] !in stubborn);
      actions, end := CleaningRun(Apply(s, a), stubborn);
      actions := Prepend(s, a, actions, end);
    }
  }

  // Deletes what was set out for deletion, records the row if need be, and cleans up.
  lemma DroppingRun(s: State, stubborn: set<Path>) returns (actions: seq<Action>, end: State)
    requires s.execs.Keys == {0} && s.execs[0].phase.Dropping?
    ensures Runs(s, actions) && After(s, actions) == end && end.execs == map[]
    ensures end.files == CleanedUp(s.files - (s.execs[0].phase.left - stubborn), s.execs[0].hand, stubborn)
    ensures end.row == if s.execs[0].phase.matched then Filtered else s.row
  {
    hide Runs, After, CleanedUp;
    var e := s.execs[0];
    var s1 := AllDropped(s, 0, stubborn);
    var s2 := Apply(s1, Dropped(0));
    var s3 := if e.phase.matched then Apply(s2, Record(0)) else s2;
    assert From(e.hand, 0) == e.hand;
    actions, end := CleaningRun(s3, stubborn);
    if e.phase.matched { actions := Prepend(s2, Record(0), actions, end); }
    actions := Prepend(s1, Dropped(0), actions, end);
    actions := DropAll(s, 0, stubborn, actions, end);
  }

  lemma SilentRun(s: State, transcribes: bool, stubborn: set<Path>) returns (actions: seq<Action>, end: State)
    requires s.execs.Keys == {0} && s.execs[0].phase.Looking?
    requires !Heard(s.files, s.execs[0].hand.media, transcribes)
    ensures Runs(s, actions) && After(s, actions) == end && end.execs == map[] && end.row == s.row
    ensures
      var hand := s.execs[0].hand;
      end.files == CleanedUp(s.files - (Companions(hand.media, s.files) - stubborn), hand, stubborn)
  {
    hide Runs, After, Companions, CleanedUp;
    var s1 := Apply(s, Look(0));
    if s.execs[0].hand.media !in s.files {
      actions, end := DroppingRun(s1, stubborn);
    } else {
      var s2 := Apply(s1, GiveUp(0));
      actions, end := DroppingRun(s2, stubborn);
      actions := Prepend(s1, GiveUp(0), actions, end);
    }
    actions := Prepend(s, Look(0), actions, end);
  }

  lemma VerdictRun(s: State, verdict: Verdict, stubborn: set<Path>) returns (actions: seq<Action>, end: State)
    requires s.execs.Keys == {0} && s.execs[0].phase.Screening?
    requires Subtitle(s.execs[0].hand.media) in s.files
    ensures Runs(s, actions) && After(s, actions) == end && end.execs == map[]
    ensures
      var hand := s.execs[0].hand;
      var rest := s.files - (Companions(hand.media, s.files) - stubborn);
      && end.row == (match verdict
            case Clean => Downloaded(hand.media, VersionAt(s.files, hand.media))
            case Match => Filtered
            case Failure => s.row)
      && end.files == CleanedUp(if verdict.Clean? then s.files else rest, hand, stubborn)
  {
    hide Runs, After, Companions, CleanedUp;
    var s1 := Apply(s, Screen(0, verdict));
    if verdict.Clean? {
      var s2, hand := Apply(s1, Insert(0)), s.execs[0].hand;
      assert From(hand, 0) == hand;
      actions, end := CleaningRun(s2, stubborn);
      actions := Prepend(s1, Insert(0), actions, end);
    } else {
      actions, end := DroppingRun(s1, stubborn);
    }
    actions := Prepend(s, Screen(0, verdict), actions, end);
  }

  lemma HearingRun(s: State, s': State, rest: seq<Action>, end: State) returns (actions: seq<Action>)
    requires s.execs.Keys == {0} && s.execs[0].phase.Looking? && s.execs[0].hand.media in s.files
    requires s' == s.(files := WithTranscript(s.files, s.execs[0].hand.media),
                      execs := map[0 := s.execs[0].(phase := Screening)])
    requires Runs(s', rest) && After(s', rest) == end
    ensures Runs(s, actions) && After(s, actions) == end
  {
    hide Runs, After, Companions;
    var e := s.execs[0];
    if Subtitle(e.hand.media) in s.files {
      assert Apply(s, Look(0)).execs == s'.execs;
      actions := Prepend(s, Look(0), rest, end);
    } else {
      var s1 := s.(execs := map[0 := e.(phase := Transcribing(VersionAt(s.files, e.hand.media)))]);
      assert Apply(s, Look(0)).execs == s1.execs;
      assert s'.execs == s1.execs[0 := e.(phase := Screening)];
      actions := WritingRun(s1, 0, s', rest, end);
      actions := Prepend(s, Look(0), actions, end);
    }
  }

  // Nobody else writing there, an execution makes the transcript of the file it found.
  lemma WritingRun(s: State, x: nat, s': State, rest: seq<Action>, end: State) returns (actions: seq<Action>)
    requires x in s.execs && s.execs[x].phase == Transcribing(VersionAt(s.files, s.execs[x].hand.media))
    requires forall y | y in s.execs :: !WritesTo(s.execs[y], Subtitle(s.execs[x].hand.media))
    requires
      var e := s.execs[x];
      s' == s.(files := s.files[Subtitle(e.hand.media) := Whole(VersionAt(s.files, e.hand.media))],
               execs := s.execs[x := e.(phase := Screening)])
    requires Runs(s', rest) && After(s', rest) == end
    ensures Runs(s, actions) && After(s, actions) == end
  {
    hide Runs, After;
    var e := s.execs[x];
    var of := VersionAt(s.files, e.hand.media);
    var s1 := s.(files := s.files[Subtitle(e.hand.media) := Torn],
                 execs := s.execs[x := e.(phase := Writing(true, of))]);
    OpensAlone(s, x, s1);
    ClosesWhole(s1, x, s');
    hide Apply, Enabled, VersionAt, WritesTo, Subtitle;
    actions := Prepend(s1, Close(x), rest, end);
    actions := Prepend(s, Open(x), actions, end);
  }

  lemma OpensAlone(s: State, x: nat, s1: State)
    requires x in s.execs && s.execs[x].phase == Transcribing(VersionAt(s.files, s.execs[x].hand.media))
    requires forall y | y in s.execs :: !WritesTo(s.execs[y], Subtitle(s.execs[x].hand.media))
    requires
      var e := s.execs[x];
      s1 == s.(files := s.files[Subtitle(e.hand.media) := Torn],
               execs := s.execs[x := e.(phase := Writing(true, VersionAt(s.files, e.hand.media)))])
    ensures Enabled(s, Open(x)) && Apply(s, Open(x)) == s1
  {
    hide VersionAt;
  }

  lemma ClosesWhole(s1: State, x: nat, s': State)
    requires x in s1.execs && s1.execs[x].phase.Writing? && s1.execs[x].phase.alone
    requires
      var e, sub := s1.execs[x], Subtitle(s1.execs[x].hand.media);
      && sub in s1.files && s1.files[sub] == Torn
      && s'.files == s1.files[sub := Whole(e.phase.of)] && s'.execs == s1.execs[x := e.(phase := Screening)]
      && s' == s1.(files := s'.files, execs := s'.execs)
    ensures Enabled(s1, Close(x)) && Apply(s1, Close(x)) == s'
  {
    hide VersionAt, WritesTo;
  }

  lemma {:induction false} Concat(s: State, first: seq<Action>, second: seq<Action>)
    requires Runs(s, first) && Runs(After(s, first), second)
    ensures Runs(s, first + second) && After(s, first + second) == After(After(s, first), second)
    decreases |first|
  {
    if first == [] {
      assert first + second == second;
    } else {
      Concat(Apply(s, first[0]), first[1..], second);
      assert (first + second)[1..] == first[1..] + second;
    }
  }

  // A later screening of an item already in the library that fails deletes the video but not the row.
  lemma FailedRescreeningLosesMedia() returns (actions: seq<Action>)
    ensures Runs(Nothing, actions)
    ensures After(Nothing, actions).row == Downloaded(Video, Some(0)) && Video !in After(Nothing, actions).files
  {
    var fetched := Apply(Nothing, AddMedia(Video));
    var first := ScreenedIsARun(fetched, Hand([], Video), true, Clean, {});
    var second := ScreenedIsARun(After(fetched, first), Hand([], Video), true, Failure, {});
    Concat(fetched, first, second);
    hide Runs, After;
    var end := After(fetched, first + second);
    actions := Prepend(Nothing, AddMedia(Video), first + second, end);
  }

  // So does a worker that dies between deleting the files for a match and recording it.
  lemma DyingOnMatchLosesMedia() returns (actions: seq<Action>)
    ensures Runs(Nothing, actions)
    ensures After(Nothing, actions).row == Downloaded(Video, Some(0)) && Video !in After(Nothing, actions).files
  {
    var fetched := Apply(Nothing, AddMedia(Video));
    var first := ScreenedIsARun(fetched, Hand([], Video), true, Clean, {});
    var second := DiesOnMatch(After(fetched, first));
    Concat(fetched, first, second);
    hide Runs, After;
    actions := Prepend(Nothing, AddMedia(Video), first + second, After(fetched, first + second));
  }

  lemma DiesOnMatch(s: State) returns (actions: seq<Action>)
    requires s.execs == map[] && Video in s.files && Subtitle(Video) in s.files
    ensures Runs(s, actions) && After(s, actions).row == s.row && Video !in After(s, actions).files
  {
    hide Companion, Companions;
    var s1 := Apply(s, BeginDirect(0, Video));
    var s2 := Apply(s1, Look(0));
    var s3 := Apply(s2, Screen(0, Match));
    var s4 := AllDropped(s3, 0, {});
    var end := Apply(s4, Crash(0));
    MediaGoes(s.files);
    assert Runs(end, []) && After(end, []) == end;
    hide Runs, After;
    actions := Prepend(s4, Crash(0), [], end);
    actions := DropAll(s3, 0, {}, actions, end);
    actions := Prepend(s2, Screen(0, Match), actions, end);
    actions := Prepend(s1, Look(0), actions, end);
    actions := Prepend(s, BeginDirect(0, Video), actions, end);
  }

  lemma MediaGoes(files: map<Path, Content>)
    ensures Video in files ==> Video in Companions(Video, files)
  {}
  // A repeated download of an item in the library puts its new file there before anybody has screened it.
  lemma RepeatedDownloadExposesVideo() returns (actions: seq<Action>)
    ensures Runs(Nothing, actions) && Exposed(After(Nothing, actions))
  {
    var fetched := Apply(Nothing, AddMedia(Video));
    var first := ScreenedIsARun(fetched, Hand([], Video), true, Clean, {});
    var s := After(fetched, first);
    assert Numbered(fetched);
    RunKeepsNumbered(fetched, first);
    assert s.row == Downloaded(Video, Some(0));
    var end := Apply(s, AddMedia(Video));
    assert Runs(s, [AddMedia(Video)]) && After(s, [AddMedia(Video)]) == end by {
      assert Runs(end, []) && After(end, []) == end;
      assert [AddMedia(Video)][1..] == [];
    }
    Concat(fetched, first, [AddMedia(Video)]);
    hide Runs, After;
    actions := Prepend(Nothing, AddMedia(Video), first + [AddMedia(Video)], end);
  }
}

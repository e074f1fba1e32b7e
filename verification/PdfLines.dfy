/** Searchable records from extracted PDF text: lines are gathered into groups of bounded length, and each
    group is cut where a new sentence seems to start. Lines arrive stripped and non-empty. */
module PdfLines {
  import opened Text

  const MAX_SENTENCE_CHARS: nat := 800

  // ---------------------------------------------------------------------------
  // What the two patterns look at.

  predicate IsUpper(c: char) { 'A' <= c <= 'Z' }

  predicate IsBullet(c: char) {
    c in {'-', '*', '\U{2022}', '\U{25AA}', '\U{25E6}', '\U{2023}'}
  }

  // Index of the first character at or after `i` that is outside `among`.
  function SkipAll(s: string, i: nat, among: set<char>): (r: nat)
    requires i <= |s|
    ensures i <= r <= |s|
    ensures forall k | i <= k < r :: s[k] in among
    ensures r < |s| ==> s[r] !in among
    decreases |s| - i
  {
    if i < |s| && s[i] in among then SkipAll(s, i + 1, among) else i
  }

  const DIGITS := {'0', '1', '2', '3', '4', '5', '6', '7', '8', '9'}
  const SPACES := {' ', '\t', '\n', '\r', '\U{0B}', '\U{0C}'}
  const CLOSERS := {'"', '\'', '\U{201D}', '\U{2019}', '\U{BB}', ')'}
  const OPENERS := {'"', '\'', '\U{201C}', '\U{2018}', '\U{AB}', '(', '['}

  // A bullet, a number with "." or ")", or a capital with "." or ")", followed by white space.
  predicate StartsHard(line: string) {
    line != "" &&
    var marker :=
      if IsBullet(line[0]) then 1
      else if IsUpper(line[0]) then (if |line| > 1 && line[1] in {'.', ')'} then 2 else 0)
      else
        var digits := SkipAll(line, 0, DIGITS);
        if 0 < digits < |line| && line[digits] in {'.', ')'} then digits + 1 else 0;
    0 < marker < |line| && line[marker] in SPACES
  }

  lemma {:induction false} SkipAllStops(s: string, i: nat, among: set<char>, j: nat)
    requires i <= j <= |s| && (forall k | i <= k < j :: s[k] in among) && (j == |s| || s[j] !in among)
    ensures SkipAll(s, i, among) == j
    decreases j - i
  {
    if i < j { SkipAllStops(s, i + 1, among, j); }
  }

  // A line starts hard exactly when a bullet, a number and a point or bracket, or a capital and a point or bracket,
  // stands before white space.
  lemma StartsHardIff(line: string)
    ensures StartsHard(line) <==> LooksHard(line)
  {
    if StartsHard(line) {
      var digits := SkipAll(line, 0, DIGITS);
      assert forall i | 0 <= i < digits :: line[i] in DIGITS;
      assert HardMarker(line, 1) || HardMarker(line, 2) || HardMarker(line, digits + 1);
    }
    if k: nat :| HardMarker(line, k) {
      if k >= 2 && !IsUpper(line[0]) { SkipAllStops(line, 0, DIGITS, k - 1); }
    }
  }

  ghost predicate LooksHard(line: string) { exists k: nat :: HardMarker(line, k) }

  predicate HardMarker(line: string, k: nat) {
    && 0 < k < |line| && line[k] in {' ', '\t', '\n', '\r', '\U{0B}', '\U{0C}'}
    && (|| (k == 1 && line[0] in {'-', '*', '\U{2022}', '\U{25AA}', '\U{25E6}', '\U{2023}'})
        || (k == 2 && 'A' <= line[0] <= 'Z' && line[1] in {'.', ')'})
        || (k >= 2 && (forall i | 0 <= i < k - 1 :: '0' <= line[i] <= '9') && line[k - 1] in {'.', ')'}))
  }

  predicate EndsSentence(line: string) {
    line != "" && line[|line| - 1] in {'.', '!', '?'}
  }

  // ---------------------------------------------------------------------------
  // Groups of lines.

  // " ".join(lines)
  function Join(lines: seq<string>): string {
    if lines == [] then ""
    else if |lines| == 1 then lines[0]
    else Join(lines[..|lines| - 1]) + " " + lines[|lines| - 1]
  }

  function Flatten(groups: seq<seq<string>>): seq<string> {
    if groups == [] then [] else Flatten(groups[..|groups| - 1]) + groups[|groups| - 1]
  }

  function JoinEach(groups: seq<seq<string>>): (r: seq<string>)
    ensures |r| == |groups| && forall i | 0 <= i < |r| :: r[i] == Join(groups[i])
  {
    seq(|groups|, i requires 0 <= i < |groups| => Join(groups[i]))
  }

  ghost predicate NonEmptyLines(lines: seq<string>) { forall i | 0 <= i < |lines| :: lines[i] != "" }

  // A legal group: only its first line may start hard, only its last may end a sentence, and
  // two or more lines fit the limit.
  ghost predicate WellGrouped(group: seq<string>) {
    && group != []
    && (forall i | 0 < i < |group| :: !StartsHard(group[i]))
    && (forall i | 0 <= i < |group| - 1 :: !EndsSentence(group[i]))
    && (|group| >= 2 ==> |Join(group)| <= MAX_SENTENCE_CHARS)
  }

  // Reasons for closing a group before `line`.
  ghost predicate MustPart(group: seq<string>, line: string) {
    && group != []
    && (|| StartsHard(line)
        || EndsSentence(group[|group| - 1])
        || |Join(group + [line])| > MAX_SENTENCE_CHARS)
  }

  ghost predicate PartsFrom(groups: seq<seq<string>>, line: string) {
    groups != [] ==> MustPart(groups[|groups| - 1], line)
  }

  ghost predicate PartedAt(groups: seq<seq<string>>, g: nat)
    requires g < |groups|
  {
    groups[g] != [] && PartsFrom(groups[..g], groups[g][0])
  }

  // Every group is legal and none could have taken the next group's first line.
  ghost predicate Grouping(groups: seq<seq<string>>) {
    forall g | 0 <= g < |groups| :: WellGrouped(groups[g]) && PartedAt(groups, g)
  }

  // State of the pass between two lines: closed groups, and a group that is still open.
  ghost predicate Open(groups: seq<seq<string>>, current: seq<string>) {
    && Grouping(groups)
    && (current == [] && groups != [] ==>
          groups[|groups| - 1] != [] && EndsSentence(groups[|groups| - 1][|groups[|groups| - 1]| - 1]))
    && (current != [] ==>
          WellGrouped(current) && !EndsSentence(current[|current| - 1]) && PartsFrom(groups, current[0]))
  }

  lemma JoinGrows(group: seq<string>, line: string)
    requires group != []
    ensures Join(group + [line]) == Join(group) + " " + line
    ensures |Join(group + [line])| == |Join(group)| + |line| + 1
  {
    assert (group + [line])[..|group|] == group;
  }

  lemma CloseGroup(groups: seq<seq<string>>, group: seq<string>)
    requires Grouping(groups) && WellGrouped(group) && PartsFrom(groups, group[0])
    ensures Grouping(groups + [group])
    ensures JoinEach(groups + [group]) == JoinEach(groups) + [Join(group)]
    ensures Flatten(groups + [group]) == Flatten(groups) + group
  {
    var all := groups + [group];
    assert all[..|groups|] == groups;
    assert group != [];
    hide WellGrouped, PartsFrom;
    forall g | 0 <= g < |all| ensures WellGrouped(all[g]) && PartedAt(all, g) {
      assert g < |groups| ==> all[..g] == groups[..g] && WellGrouped(groups[g]) && PartedAt(groups, g);
      assert g == |groups| ==> all[..g] == groups;
    }
  }

  lemma ExtendGroup(groups: seq<seq<string>>, current: seq<string>, line: string)
    requires current == [] ==> PartsFrom(groups, line)
    requires current != [] ==>
        Open(groups, current) && !StartsHard(line) && |Join(current)| + |line| + 1 <= MAX_SENTENCE_CHARS
    ensures WellGrouped(current + [line]) && PartsFrom(groups, (current + [line])[0])
    ensures |Join(current + [line])| == |Join(current)| + |line| + (if current == [] then 0 else 1)
    ensures Grouping(groups) && !EndsSentence(line) ==> Open(groups, current + [line])
  {
    hide StartsHard, EndsSentence, Grouping, PartedAt;
    if current != [] { JoinGrows(current, line); }
  }

  // A group closed by its last line parts from whatever comes next.
  lemma ClosedParts(groups: seq<seq<string>>, line: string)
    requires Open(groups, [])
    ensures PartsFrom(groups, line)
  {}

  lemma CloseEnded(groups: seq<seq<string>>, group: seq<string>)
    requires Grouping(groups) && WellGrouped(group) && PartsFrom(groups, group[0]) && EndsSentence(group[|group| - 1])
    ensures Open(groups + [group], [])
    ensures JoinEach(groups + [group]) == JoinEach(groups) + [Join(group)]
    ensures Flatten(groups + [group]) == Flatten(groups) + group
  {
    CloseGroup(groups, group);
    hide EndsSentence, WellGrouped, Join, Flatten;
  }

  lemma OpenHasGroups(groups: seq<seq<string>>, current: seq<string>)
    requires Open(groups, current)
    ensures Grouping(groups)
    ensures current != [] ==> WellGrouped(current) && PartsFrom(groups, current[0])
  {}

  lemma PartBefore(groups: seq<seq<string>>, current: seq<string>, line: string)
    requires Open(groups, current) && current != []
    requires StartsHard(line) || |Join(current)| + |line| + 1 > MAX_SENTENCE_CHARS
    ensures Grouping(groups + [current]) && PartsFrom(groups + [current], line)
    ensures JoinEach(groups + [current]) == JoinEach(groups) + [Join(current)]
    ensures Flatten(groups + [current]) == Flatten(groups) + current
  {
    JoinGrows(current, line);
    CloseGroup(groups, current);
    assert (groups + [current])[|groups|] == current;
    assert MustPart(current, line);
  }

  // `lineGroups` are the joined groups of a grouping of exactly the given lines.
  ghost predicate GroupedAs(lineGroups: seq<string>, lines: seq<string>, groups: seq<seq<string>>) {
    lineGroups == JoinEach(groups) && Flatten(groups) == lines && Grouping(groups)
  }

  // Between two lines: what was read so far, the closed groups and the open one.
  ghost predicate Between(
    read: seq<string>, groups: seq<seq<string>>, joined: seq<string>, current: seq<string>, length: nat) {
    && length == |Join(current)| && (current != [] <==> length > 0)
    && Flatten(groups) + current == read
    && Open(groups, current) && joined == JoinEach(groups)
  }

  // With the decision about the open group made: `line` may join it.
  ghost predicate Decided(
    read: seq<string>, groups: seq<seq<string>>, joined: seq<string>, current: seq<string>, length: nat, line: string) {
    && length == |Join(current)| && (current != [] <==> length > 0)
    && Flatten(groups) + current == read
    && Grouping(groups) && joined == JoinEach(groups)
    && (current == [] ==> PartsFrom(groups, line))
    && (current != [] ==> Open(groups, current) && !StartsHard(line) && length + |line| + 1 <= MAX_SENTENCE_CHARS)
  }

  lemma Decide(
    read: seq<string>, groups: seq<seq<string>>, joined: seq<string>, current: seq<string>, length: nat, line: string)
    requires Between(read, groups, joined, current, length)
    ensures
      if current != [] && (StartsHard(line) || length + |line| + 1 > MAX_SENTENCE_CHARS) then
        Decided(read, groups + [current], joined + [Join(current)], [], 0, line)
      else
        Decided(read, groups, joined, current, length, line)
  {
    OpenHasGroups(groups, current);
    assert Join([]) == "";
    if current == [] {
      ClosedParts(groups, line);
    } else if StartsHard(line) || length + |line| + 1 > MAX_SENTENCE_CHARS {
      PartBefore(groups, current, line);
      assert read + [] == read;
    }
    hide StartsHard, Grouping, PartsFrom, Open;
  }

  lemma TakeLine(
    read: seq<string>, groups: seq<seq<string>>, joined: seq<string>, current: seq<string>, length: nat, line: string)
    requires Decided(read, groups, joined, current, length, line) && line != ""
    ensures
      var current' := current + [line];
      if EndsSentence(line) then
        Between(read + [line], groups + [current'], joined + [Join(current')], [], 0)
      else
        Between(read + [line], groups, joined, current', length + |line| + if length > 0 then 1 else 0)
  {
    var current' := current + [line];
    ExtendGroup(groups, current, line);
    assert (Flatten(groups) + current) + [line] == Flatten(groups) + current';
    assert Join([]) == "";
    if EndsSentence(line) {
      CloseEnded(groups, current');
      assert (read + [line]) + [] == read + [line];
    }
    hide EndsSentence, StartsHard, Grouping, PartsFrom, Open;
  }

  lemma LastGroup(read: seq<string>, groups: seq<seq<string>>, joined: seq<string>, current: seq<string>, length: nat)
    requires Between(read, groups, joined, current, length)
    ensures if current == [] then GroupedAs(joined, read, groups)
            else GroupedAs(joined + [Join(current)], read, groups + [current])
  {
    OpenHasGroups(groups, current);
    if current == [] {
      assert Flatten(groups) + [] == Flatten(groups);
    } else {
      CloseGroup(groups, current);
    }
  }

  lemma NothingReadYet()
    ensures Between([], [], [], [], 0)
  {
    var none: seq<seq<string>> := [];
    assert Flatten(none) + [] == [] && JoinEach(none) == [];
  }

  lemma LineIsNotEmpty(lines: seq<string>, i: nat)
    requires NonEmptyLines(lines) && i < |lines|
    ensures lines[i] != ""
  {}

  // One pass with a running length.
  method GroupLines(lines: seq<string>) returns (lineGroups: seq<string>)
    requires NonEmptyLines(lines)
    ensures exists groups :: GroupedAs(lineGroups, lines, groups)
  {
    hide *;
    ghost var groups: seq<seq<string>> := [];
    lineGroups := [];
    NothingReadYet();
    var currentLines: seq<string>, currentLength := [], 0;
    for i := 0 to |lines|
      invariant currentLength >= 0 && Between(lines[..i], groups, lineGroups, currentLines, currentLength)
    {
      var line := lines[i];
      LineIsNotEmpty(lines, i);
      assert lines[..i + 1] == lines[..i] + [line];
      var startsHardBoundary := StartsHard(line);
      var wouldExceedLimit := currentLines != [] && currentLength + |line| + 1 > MAX_SENTENCE_CHARS;
      Decide(lines[..i], groups, lineGroups, currentLines, currentLength, line);
      if currentLines != [] && (startsHardBoundary || wouldExceedLimit) {
        lineGroups := lineGroups + [Join(currentLines)];
        groups := groups + [currentLines];
        currentLines, currentLength := [], 0;
      }
      TakeLine(lines[..i], groups, lineGroups, currentLines, currentLength, line);
      currentLines := currentLines + [line];
      currentLength := currentLength + |line| + (if currentLength > 0 then 1 else 0);
      if EndsSentence(line) {
        lineGroups := lineGroups + [Join(currentLines)];
        groups := groups + [currentLines];
        currentLines, currentLength := [], 0;
      }
    }
    assert lines[..|lines|] == lines;
    LastGroup(lines, groups, lineGroups, currentLines, currentLength);
    if currentLines != [] {
      lineGroups := lineGroups + [Join(currentLines)];
    }
  }

  // ---------------------------------------------------------------------------
  // The grouping rules leave no choice, so they say which groups the pass finds.

  lemma FlattenFront(groups: seq<seq<string>>)
    requires groups != []
    ensures Flatten(groups) == groups[0] + Flatten(groups[1..])
  {
    var last := |groups| - 1;
    if last > 0 {
      FlattenFront(groups[..last]);
      assert groups[1..][..last - 1] == groups[..last][1..];
    }
  }

  lemma JoinOfPrefix(group: seq<string>, k: nat)
    requires k <= |group|
    ensures |Join(group[..k])| <= |Join(group)|
    decreases |group| - k
  {
    if k < |group| {
      assert group[..k + 1][..k] == group[..k];
      JoinOfPrefix(group, k + 1);
    } else {
      assert group[..k] == group;
    }
  }

  lemma NoInnerPart(group: seq<string>, k: nat)
    requires WellGrouped(group) && 0 < k < |group|
    ensures !MustPart(group[..k], group[k])
  {
    hide StartsHard, EndsSentence;
    assert group[..k] + [group[k]] == group[..k + 1];
    JoinOfPrefix(group, k + 1);
    assert !EndsSentence(group[k - 1]);
  }

  lemma TailIsGrouping(groups: seq<seq<string>>)
    requires Grouping(groups) && groups != []
    ensures Grouping(groups[1..])
  {
    hide WellGrouped, MustPart;
    var tail := groups[1..];
    forall g | 0 <= g < |tail| ensures WellGrouped(tail[g]) && PartedAt(tail, g) {
      assert WellGrouped(groups[g + 1]) && PartedAt(groups, g + 1);
      assert g > 0 ==> tail[..g][g - 1] == groups[..g + 1][g];
    }
  }

  lemma SecondGroupParts(groups: seq<seq<string>>)
    requires Grouping(groups) && |groups| > 1
    ensures groups[1] != [] && MustPart(groups[0], groups[1][0])
  {
    hide WellGrouped, MustPart;
    assert PartedAt(groups, 1) && groups[..1][0] == groups[0];
  }

  lemma FirstGroupIsNotShorter(a: seq<seq<string>>, b: seq<seq<string>>)
    requires Grouping(a) && Grouping(b) && Flatten(a) == Flatten(b) && a != [] && b != []
    ensures |a[0]| >= |b[0]|
  {
    assert WellGrouped(b[0]) && WellGrouped(a[0]);
    if |a[0]| < |b[0]| {
      FlattenFront(a);
      FlattenFront(b);
      assert a[1..] != [];
      SecondGroupParts(a);
      FlattenFront(a[1..]);
      assert |a[0]| > 0;
      hide WellGrouped, MustPart, Grouping, Flatten;
      SamePrefix(a[0], a[1], Flatten(a[1..][1..]), b[0], Flatten(b[1..]));
      NoInnerPart(b[0], |a[0]|);
      assert false;
    }
  }

  lemma SamePrefix(a: seq<string>, next: seq<string>, rest: seq<string>, b: seq<string>, other: seq<string>)
    requires a + (next + rest) == b + other && |a| < |b| && next != []
    ensures a == b[..|a|] && next[0] == b[|a|]
  {
    assert (a + (next + rest))[..|a|] == (b + other)[..|a|];
    assert (a + (next + rest))[|a|] == (b + other)[|a|];
  }

  lemma {:induction false} GroupingIsUnique(a: seq<seq<string>>, b: seq<seq<string>>)
    requires Grouping(a) && Grouping(b) && Flatten(a) == Flatten(b)
    ensures a == b
  {
    assert forall g | 0 <= g < |a| :: PartedAt(a, g);
    assert forall g | 0 <= g < |b| :: PartedAt(b, g);
    hide WellGrouped;
    if a != [] { FlattenFront(a); }
    if b != [] { FlattenFront(b); }
    if a != [] && b != [] {
      FirstGroupIsNotShorter(a, b);
      FirstGroupIsNotShorter(b, a);
      assert a[0] == Flatten(a)[..|a[0]|] == b[0];
      assert Flatten(a[1..]) == Flatten(a)[|a[0]|..] == Flatten(b[1..]);
      TailIsGrouping(a);
      TailIsGrouping(b);
      GroupingIsUnique(a[1..], b[1..]);
      assert a == [a[0]] + a[1..] && b == [b[0]] + b[1..];
    }
  }

  // What a grouping is, in plain words: no group is empty; inside a group no line but the first starts hard, none but
  // the last ends a sentence, and two lines or more fit 800 characters; and between two groups one of these would fail.
  ghost predicate PlainlyGrouped(groups: seq<seq<string>>, g: nat)
    requires g < |groups|
  {
    var group := groups[g];
    && group != []
    && (forall i | 0 < i < |group| :: !LooksHard(group[i]))
    && (forall i | 0 <= i < |group| - 1 :: group[i] == "" || group[i][|group[i]| - 1] !in {'.', '!', '?'})
    && (|group| >= 2 ==> |Join(group)| <= 800)
    && (g + 1 < |groups| && groups[g + 1] != [] ==>
          var last, next := group[|group| - 1], groups[g + 1][0];
          || LooksHard(next)
          || (last != "" && last[|last| - 1] in {'.', '!', '?'})
          || |Join(group)| + 1 + |next| > 800)
  }

  lemma GroupingIff(groups: seq<seq<string>>)
    ensures Grouping(groups) <==> forall g | 0 <= g < |groups| :: PlainlyGrouped(groups, g)
  {
    hide StartsHard;
    if Grouping(groups) {
      forall g | 0 <= g < |groups| ensures PlainlyGrouped(groups, g) { GroupedPlainly(groups, g); }
    }
    if forall g | 0 <= g < |groups| :: PlainlyGrouped(groups, g) {
      forall g | 0 <= g < |groups| ensures WellGrouped(groups[g]) && PartedAt(groups, g) { PlainGroups(groups, g); }
    }
  }

  lemma GroupedPlainly(groups: seq<seq<string>>, g: nat)
    requires Grouping(groups) && g < |groups|
    ensures PlainlyGrouped(groups, g)
  {
    hide StartsHard, LooksHard, Join;
    var group := groups[g];
    assert WellGrouped(group);
    forall i | 0 <= i < |group| ensures StartsHard(group[i]) <==> LooksHard(group[i]) { StartsHardIff(group[i]); }
    if g + 1 < |groups| {
      assert PartedAt(groups, g + 1) && groups[..g + 1][g] == group;
      hide Grouping;
      StartsHardIff(groups[g + 1][0]);
      JoinGrows(group, groups[g + 1][0]);
    }
  }

  lemma PlainGroups(groups: seq<seq<string>>, g: nat)
    requires g < |groups| && forall h | 0 <= h < |groups| :: PlainlyGrouped(groups, h)
    ensures WellGrouped(groups[g]) && PartedAt(groups, g)
  {
    hide StartsHard, LooksHard, Join;
    var group := groups[g];
    assert PlainlyGrouped(groups, g);
    forall i | 0 <= i < |group| ensures StartsHard(group[i]) <==> LooksHard(group[i]) { StartsHardIff(group[i]); }
    if g > 0 {
      assert PlainlyGrouped(groups, g - 1) && groups[..g][g - 1] == groups[g - 1];
      JoinGrows(groups[g - 1], group[0]);
    }
  }

  // So the lines determine the result.
  lemma GroupsAreDetermined(lines: seq<string>, a: seq<string>, b: seq<string>)
    requires exists groups :: GroupedAs(a, lines, groups)
    requires exists groups :: GroupedAs(b, lines, groups)
    ensures a == b
  {
    var groupsOfA :| GroupedAs(a, lines, groupsOfA);
    var groupsOfB :| GroupedAs(b, lines, groupsOfB);
    GroupingIsUnique(groupsOfA, groupsOfB);
  }

  // ---------------------------------------------------------------------------
  // Cutting a group into sentences.

  // A sentence may end before `i`: "." , "!" or "?" lies to the left; to the right closing quotes,
  // white space, opening quotes, then a capital or a digit.
  predicate BreakAt(s: string, i: nat)
    requires 0 < i <= |s|
  {
    && s[i - 1] in {'.', '!', '?'}
    && var gap := SkipAll(s, i, CLOSERS);
       var next := SkipAll(s, gap, SPACES);
       var first := SkipAll(s, next, OPENERS);
       gap < next && first < |s| && (IsUpper(s[first]) || s[first] in DIGITS)
  }

  // The places the pattern asks for: closing quotes up to `gap`, white space up to `next`, opening quotes up to
  // `first`, and there a capital or a digit.
  ghost predicate LooksAhead(s: string, i: nat, gap: nat, next: nat, first: nat) {
    && i <= gap < next <= first < |s|
    && (forall k | i <= k < gap :: s[k] in {'"', '\'', '\U{201D}', '\U{2019}', '\U{BB}', ')'})
    && (forall k | gap <= k < next :: s[k] in {' ', '\t', '\n', '\r', '\U{0B}', '\U{0C}'})
    && (forall k | next <= k < first :: s[k] in {'"', '\'', '\U{201C}', '\U{2018}', '\U{AB}', '(', '['})
    && ('A' <= s[first] <= 'Z' || '0' <= s[first] <= '9')
  }

  // Reading ahead greedily finds a break exactly when there is any way to read it.
  lemma BreakAtIff(s: string, i: nat)
    requires 0 < i <= |s|
    ensures BreakAt(s, i) <==>
      s[i - 1] in {'.', '!', '?'} && exists gap: nat, next: nat, first: nat :: LooksAhead(s, i, gap, next, first)
  {
    if BreakAt(s, i) { BreakLooksAhead(s, i); }
    if gap: nat, next: nat, first: nat :| LooksAhead(s, i, gap, next, first) {
      LookingAheadBreaks(s, i, gap, next, first);
    }
  }

  lemma BreakLooksAhead(s: string, i: nat)
    requires 0 < i <= |s| && BreakAt(s, i)
    ensures exists gap: nat, next: nat, first: nat :: LooksAhead(s, i, gap, next, first)
  {
    var gap := SkipAll(s, i, CLOSERS);
    var next := SkipAll(s, gap, SPACES);
    var first := SkipAll(s, next, OPENERS);
    hide SkipAll;
    assert LooksAhead(s, i, gap, next, first);
  }

  lemma LookingAheadBreaks(s: string, i: nat, gap: nat, next: nat, first: nat)
    requires 0 < i <= |s| && LooksAhead(s, i, gap, next, first)
    ensures BreakAt(s, i) <==> s[i - 1] in {'.', '!', '?'}
  {
    assert s[gap] !in CLOSERS && s[next] !in SPACES && s[first] !in OPENERS;
    hide SkipAll;
    SkipAllStops(s, i, CLOSERS, gap);
    SkipAllStops(s, gap, SPACES, next);
    SkipAllStops(s, next, OPENERS, first);
  }

  function NextBreak(s: string, i: nat): (r: nat)
    requires 0 < i <= |s|
    ensures i <= r <= |s|
    ensures r < |s| ==> BreakAt(s, r)
    ensures forall k | i <= k < r :: !BreakAt(s, k)
    decreases |s| - i
  {
    if i == |s| || BreakAt(s, i) then i else NextBreak(s, i + 1)
  }

  // Splitting at every break: the break has no width, so nothing is consumed.
  function Pieces(s: string): (r: seq<string>) {
    if s == "" then [""]
    else
      var cut := NextBreak(s, 1);
      if cut == |s| then [s] else [s[..cut]] + Pieces(s[cut..])
  }

  // The characters that are not white space.
  function Ink(s: string): string {
    if s == "" then "" else Ink(s[..|s| - 1]) + (if IsSpace(s[|s| - 1]) then "" else [s[|s| - 1]])
  }

  function InkOf(parts: seq<string>): string {
    if parts == [] then "" else InkOf(parts[..|parts| - 1]) + Ink(parts[|parts| - 1])
  }

  // No place inside `s` where the pattern would still cut.
  ghost predicate OneSentence(s: string) { forall i | 0 < i < |s| :: !BreakAt(s, i) }

  ghost predicate CleanSentence(s: string) { s != "" && Trimmed(s) && OneSentence(s) }

  lemma {:induction false} InkAppend(a: string, b: string)
    ensures Ink(a + b) == Ink(a) + Ink(b)
  {
    if b == "" {
      assert a + b == a;
    } else {
      InkAppend(a, b[..|b| - 1]);
      assert (a + b)[..|a + b| - 1] == a + b[..|b| - 1];
    }
  }

  // Text without white space is all visible.
  lemma {:induction false} InkOfVisible(s: string)
    requires forall i | 0 <= i < |s| :: !IsSpace(s[i])
    ensures Ink(s) == s
  {
    if s != "" { InkOfVisible(s[..|s| - 1]); }
  }

  lemma {:induction false} InkOfSpace(s: string)
    requires AllSpace(s)
    ensures Ink(s) == ""
  {
    if s != "" { InkOfSpace(s[..|s| - 1]); }
  }

  lemma {:induction false} InkOfAppend(a: seq<string>, b: seq<string>)
    ensures InkOf(a + b) == InkOf(a) + InkOf(b)
  {
    hide Ink;
    if b == [] {
      assert a + b == a;
    } else {
      InkOfAppend(a, b[..|b| - 1]);
      assert (a + b)[..|a + b| - 1] == a + b[..|b| - 1];
    }
  }

  lemma InkOfOne(s: string)
    ensures InkOf([s]) == Ink(s)
  {
    assert InkOf([s]) == InkOf([]) + Ink(s);
  }

  lemma InkOfGrows(parts: seq<string>, s: string)
    ensures InkOf(parts + [s]) == InkOf(parts) + Ink(s)
  {
    InkOfAppend(parts, [s]);
    InkOfOne(s);
  }

  lemma InkOfStrip(s: string)
    ensures Ink(Strip(s)) == Ink(s)
  {
    var left, right := StripSplits(s);
    InkAppend(left + Strip(s), right);
    InkAppend(left, Strip(s));
    InkOfSpace(left);
    InkOfSpace(right);
  }

  // Looking ahead from inside a piece sees the same as looking ahead from inside the whole.
  lemma {:induction false} SkipInContext(a: string, s: string, b: string, i: nat, among: set<char>)
    requires i <= |s| && SkipAll(s, i, among) < |s|
    ensures SkipAll(a + s + b, |a| + i, among) == |a| + SkipAll(s, i, among)
    decreases |s| - i
  {
    assert (a + s + b)[|a| + i] == s[i];
    if s[i] in among { SkipInContext(a, s, b, i + 1, among); }
  }

  lemma BreakInContext(a: string, s: string, b: string, i: nat)
    requires 0 < i <= |s| && BreakAt(s, i)
    ensures BreakAt(a + s + b, |a| + i)
  {
    var gap := SkipAll(s, i, CLOSERS);
    var next := SkipAll(s, gap, SPACES);
    var first := SkipAll(s, next, OPENERS);
    SkipInContext(a, s, b, i, CLOSERS);
    SkipInContext(a, s, b, gap, SPACES);
    SkipInContext(a, s, b, next, OPENERS);
    hide SkipAll;
    assert (a + s + b)[|a| + first] == s[first];
    assert (a + s + b)[|a| + i - 1] == s[i - 1];
  }

  lemma OneSentenceWithin(a: string, s: string, b: string, upTo: nat)
    requires |a| + |s| <= upTo <= |a + s + b|
    requires forall k | 0 < k < upTo :: !BreakAt(a + s + b, k)
    ensures OneSentence(s)
  {
    forall i | 0 < i < |s| ensures !BreakAt(s, i) {
      if BreakAt(s, i) { BreakInContext(a, s, b, i); }
    }
  }

  lemma NothingToBreak(s: string)
    requires s == ""
    ensures OneSentence(s)
  {}

  lemma {:induction false} PiecesAreSentences(s: string)
    ensures InkOf(Pieces(s)) == Ink(s)
    ensures forall p | p in Pieces(s) :: OneSentence(p)
    decreases |s|
  {
    hide Ink, InkOf, BreakAt, OneSentence;
    if s == "" {
      InkOfOne("");
      NothingToBreak(s);
    } else {
      var cut := NextBreak(s, 1);
      if cut == |s| {
        InkOfOne(s);
        assert s == "" + s + "";
        OneSentenceWithin("", s, "", cut);
      } else {
        var head, rest := s[..cut], s[cut..];
        assert s == head + rest && s == "" + head + rest;
        PiecesAreSentences(rest);
        InkAppend(head, rest);
        InkOfAppend([head], Pieces(rest));
        InkOfOne(head);
        OneSentenceWithin("", head, rest, cut);
      }
    }
  }

  // Where the first k pieces end.
  function Cut(pieces: seq<string>, k: nat): nat
    requires k <= |pieces|
  {
    if k == 0 then 0 else |pieces[0]| + Cut(pieces[1..], k - 1)
  }

  function Rejoined(pieces: seq<string>): string {
    if pieces == [] then "" else pieces[0] + Rejoined(pieces[1..])
  }

  // The pieces together are the text, none but that of an empty text is empty, and wherever one ends before the end
  // of the text there is a break.
  lemma {:induction false} PiecesAreCuts(s: string)
    ensures Rejoined(Pieces(s)) == s && Cut(Pieces(s), |Pieces(s)|) == |s|
    ensures s != "" ==> forall p | p in Pieces(s) :: p != ""
    ensures forall k | 0 < k < |Pieces(s)| :: 0 < Cut(Pieces(s), k) < |s| && BreakAt(s, Cut(Pieces(s), k))
    decreases |s|
  {
    hide BreakAt;
    if s != "" && NextBreak(s, 1) < |s| {
      var cut := NextBreak(s, 1);
      var head, rest := s[..cut], s[cut..];
      PiecesAreCuts(rest);
      assert Pieces(s) == [head] + Pieces(rest) && Pieces(s)[1..] == Pieces(rest);
      assert s == head + rest && s == head + rest + "";
      forall k | 0 < k < |Pieces(s)|
        ensures 0 < Cut(Pieces(s), k) < |s| && BreakAt(s, Cut(Pieces(s), k))
      {
        assert Cut(Pieces(s), k) == cut + Cut(Pieces(rest), k - 1);
        if k > 1 { BreakInContext(head, rest, "", Cut(Pieces(rest), k - 1)); }
      }
    } else {
      OnePiece(s);
      assert Pieces(s) == [s];
    }
  }

  lemma OnePiece(s: string)
    ensures Rejoined([s]) == s && Cut([s], 1) == |s|
  {
    var none := [s][1..];
    assert none == [] && Rejoined(none) == "" && Cut(none, 0) == 0;
    assert Cut([s], 1) == |s| + Cut(none, 0);
  }

  lemma StripKeepsOneSentence(s: string)
    requires OneSentence(s)
    ensures OneSentence(Strip(s))
  {
    var left, right := StripSplits(s);
    OneSentenceWithin(left, Strip(s), right, |s|);
  }

  // Stripped pieces, without the empty ones.
  method StripPieces(pieces: seq<string>) returns (kept: seq<string>)
    requires forall p | p in pieces :: OneSentence(p)
    ensures forall t | t in kept :: CleanSentence(t)
    ensures InkOf(kept) == InkOf(pieces)
  {
    hide Strip, OneSentence, Ink;
    kept := [];
    for j := 0 to |pieces|
      invariant forall t | t in kept :: CleanSentence(t)
      invariant InkOf(kept) == InkOf(pieces[..j])
    {
      var sentence := Strip(pieces[j]);
      InkOfStrip(pieces[j]);
      StripKeepsOneSentence(pieces[j]);
      assert pieces[..j + 1] == pieces[..j] + [pieces[j]];
      InkOfGrows(pieces[..j], pieces[j]);
      InkOfGrows(kept, sentence);
      if sentence != "" {
        kept := kept + [sentence];
      } else {
        InkOfSpace(sentence);
      }
    }
    assert pieces[..|pieces|] == pieces;
  }

  // Every sentence is trimmed, non-empty and has no break left inside, and together they carry exactly the
  // visible characters of the groups, in order.
  method SplitGroups(lineGroups: seq<string>) returns (sentences: seq<string>)
    ensures forall t | t in sentences :: CleanSentence(t)
    ensures InkOf(sentences) == InkOf(lineGroups)
  {
    hide Pieces, CleanSentence, Ink;
    sentences := [];
    for i := 0 to |lineGroups|
      invariant forall t | t in sentences :: CleanSentence(t)
      invariant InkOf(sentences) == InkOf(lineGroups[..i])
    {
      PiecesAreSentences(lineGroups[i]);
      var kept := StripPieces(Pieces(lineGroups[i]));
      assert lineGroups[..i + 1] == lineGroups[..i] + [lineGroups[i]];
      InkOfGrows(lineGroups[..i], lineGroups[i]);
      InkOfAppend(sentences, kept);
      sentences := sentences + kept;
    }
    assert lineGroups[..|lineGroups|] == lineGroups;
  }

  lemma {:induction false} InkOfJoin(group: seq<string>)
    ensures Ink(Join(group)) == InkOf(group)
  {
    if group == [] {
    } else if |group| == 1 {
      assert InkOf(group) == InkOf([]) + Ink(group[0]);
    } else {
      var front, last := group[..|group| - 1], group[|group| - 1];
      InkOfJoin(front);
      InkAppend(Join(front) + " ", last);
      InkAppend(Join(front), " ");
      InkOfSpace(" ");
    }
  }

  lemma {:induction false} InkOfGroups(groups: seq<seq<string>>)
    ensures InkOf(JoinEach(groups)) == InkOf(Flatten(groups))
  {
    if groups != [] {
      var front, last := groups[..|groups| - 1], groups[|groups| - 1];
      InkOfGroups(front);
      InkOfJoin(last);
      InkOfAppend(Flatten(front), last);
      assert JoinEach(groups)[..|groups| - 1] == JoinEach(front);
    }
  }

  // From lines to sentences: no visible character is lost, added or moved.
  method SplitSentences(lines: seq<string>) returns (sentences: seq<string>)
    requires NonEmptyLines(lines)
    ensures forall t | t in sentences :: CleanSentence(t)
    ensures InkOf(sentences) == InkOf(lines)
  {
    var lineGroups := GroupLines(lines);
    ghost var groups :| GroupedAs(lineGroups, lines, groups);
    InkOfGroups(groups);
    sentences := SplitGroups(lineGroups);
  }
}

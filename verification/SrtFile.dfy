/** Subtitle files: writing segments, shifting every cue, and loading the texts back.
    `\n` is the only line break of the model. */
module SrtFile {
  import opened Text
  import opened SrtTime

  // ---------------------------------------------------------------------------
  // Lines.

  // str.splitlines()
  function Lines(s: string): seq<string> {
    if s == "" then []
    else if s[0] == '\n' then [""] + Lines(s[1..])
    else
      var rest := Lines(s[1..]);
      if rest == [] then [[s[0]]] else [[s[0]] + rest[0]] + rest[1..]
  }

  // Every line followed by a line break.
  function Unlines(lines: seq<string>): string {
    if lines == [] then "" else lines[0] + "\n" + Unlines(lines[1..])
  }

  // "\n".join(lines)
  function JoinLines(lines: seq<string>): string {
    if lines == [] then "" else if |lines| == 1 then lines[0] else lines[0] + "\n" + JoinLines(lines[1..])
  }

  predicate OneLine(s: string) { '\n' !in s }

  predicate AllOneLine(lines: seq<string>) { forall i | 0 <= i < |lines| :: OneLine(lines[i]) }

  lemma {:induction false} LinesOfLine(line: string, rest: string)
    requires OneLine(line)
    ensures Lines(line + "\n" + rest) == [line] + Lines(rest)
  {
    var s := line + "\n" + rest;
    if line == "" {
      assert s[1..] == rest;
    } else {
      LinesOfLine(line[1..], rest);
      assert s[1..] == line[1..] + "\n" + rest;
      assert [line[0]] + line[1..] == line;
    }
  }

  lemma {:induction false} LastLine(line: string)
    requires OneLine(line) && line != ""
    ensures Lines(line) == [line]
  {
    if |line| > 1 {
      LastLine(line[1..]);
      assert [line[0]] + line[1..] == line;
    } else {
      assert Lines(line[1..]) == [];
      assert line == [line[0]];
    }
  }

  lemma {:induction false} LinesOfUnlines(lines: seq<string>)
    requires AllOneLine(lines)
    ensures Lines(Unlines(lines)) == lines
  {
    if lines != [] {
      LinesOfLine(lines[0], Unlines(lines[1..]));
      LinesOfUnlines(lines[1..]);
    }
  }

  lemma {:induction false} JoinIsUnlines(lines: seq<string>)
    requires lines != []
    ensures JoinLines(lines) + "\n" == Unlines(lines)
  {
    if |lines| > 1 {
      JoinIsUnlines(lines[1..]);
      assert JoinLines(lines) + "\n" == lines[0] + "\n" + (JoinLines(lines[1..]) + "\n");
    } else {
      assert Unlines(lines[1..]) == "";
    }
  }

  lemma {:induction false} UnlinesAppend(a: seq<string>, b: seq<string>)
    ensures Unlines(a + b) == Unlines(a) + Unlines(b)
  {
    if a == [] {
      assert a + b == b;
    } else {
      UnlinesAppend(a[1..], b);
      assert (a + b)[1..] == a[1..] + b;
    }
  }

  lemma {:induction false} LinesAreOneLine(s: string)
    ensures AllOneLine(Lines(s))
  {
    if s != "" { LinesAreOneLine(s[1..]); }
  }

  // ---------------------------------------------------------------------------
  // Timing lines: two stamps, separated by white space and an arrow, then any tail.

  datatype Cue = Cue(start: string, end: string, tail: string)

  predicate IsStamp12(s: string) {
    && |s| == 12
    && AllDigits(s[0..2]) && s[2] == ':' && AllDigits(s[3..5]) && s[5] == ':'
    && AllDigits(s[6..8]) && s[8] == ',' && AllDigits(s[9..12])
  }

  function SkipSpaces(s: string, i: nat): (j: nat)
    requires i <= |s|
    ensures i <= j <= |s|
    decreases |s| - i
  {
    if i == |s| || !IsSpace(s[i]) then i else SkipSpaces(s, i + 1)
  }

  lemma {:induction false} SkipSpacesStops(s: string, i: nat, j: nat)
    requires i <= j <= |s| && AllSpace(s[i..j]) && (j == |s| || !IsSpace(s[j]))
    ensures SkipSpaces(s, i) == j
    decreases j - i
  {
    if i < j {
      assert s[i] == s[i..j][0] && s[i + 1..j] == s[i..j][1..];
      SkipSpacesStops(s, i + 1, j);
    }
  }

  lemma {:induction false} SkippedAreSpaces(s: string, i: nat)
    requires i <= |s|
    ensures AllSpace(s[i..SkipSpaces(s, i)])
    decreases |s| - i
  {
    if i < |s| && IsSpace(s[i]) {
      SkippedAreSpaces(s, i + 1);
      assert s[i..SkipSpaces(s, i)] == [s[i]] + s[i + 1..SkipSpaces(s, i)];
    }
  }

  function MatchTiming(line: string): Option<Cue> {
    if |line| < 12 || !IsStamp12(line[..12]) then None
    else
      var j := SkipSpaces(line, 12);
      if j == 12 || j + 3 > |line| || line[j..j + 3] != "-->" then None
      else
        var k := SkipSpaces(line, j + 3);
        if k == j + 3 || k + 12 > |line| || !IsStamp12(line[k..k + 12]) then None
        else Some(Cue(line[..12], line[k..k + 12], line[k + 12..]))
  }

  ghost predicate IsTiming(line: string, c: Cue, left: string, right: string) {
    && IsStamp12(c.start) && IsStamp12(c.end) && left != "" && AllSpace(left) && right != "" && AllSpace(right)
    && line == c.start + left + "-->" + right + c.end + c.tail
  }

  // A line is taken for a timing line exactly when it is one: two stamps, white space on either side of an arrow, and
  // any tail. There is only one way to read it.
  lemma {:induction false} MatchTimingIff(line: string, c: Cue)
    ensures MatchTiming(line) == Some(c) <==> exists left, right :: IsTiming(line, c, left, right)
  {
    hide IsStamp12, SkipSpaces;
    if MatchTiming(line) == Some(c) {
      var j := SkipSpaces(line, 12);
      var k := SkipSpaces(line, j + 3);
      SkippedAreSpaces(line, 12);
      SkippedAreSpaces(line, j + 3);
      hide AllSpace, MatchTiming;
      assert line == line[..12] + line[12..j] + line[j..j + 3] + line[j + 3..k] + line[k..k + 12] + line[k + 12..];
      assert IsTiming(line, c, line[12..j], line[j + 3..k]);
    }
    if left, right :| IsTiming(line, c, left, right) { TimingMatches(line, c, left, right); }
  }

  lemma {:induction false} TimingMatches(line: string, c: Cue, left: string, right: string)
    requires IsTiming(line, c, left, right)
    ensures MatchTiming(line) == Some(c)
  {
    var j := 12 + |left|;
    var k := j + 3 + |right|;
    assert c.end[0] == c.end[0..2][0];
    assert line[..12] == c.start && line[12..j] == left && line[j..j + 3] == "-->" && line[j + 3..k] == right;
    assert line[k..k + 12] == c.end && line[k + 12..] == c.tail && line[j] == line[j..j + 3][0] && line[k] == c.end[0];
    SkipSpacesStops(line, 12, j);
    SkipSpacesStops(line, j + 3, k);
    hide IsStamp12, SkipSpaces, AllSpace;
  }

  lemma StampParses(s: string)
    requires IsStamp12(s)
    ensures ParseSrtTimestamp(s).Some? && ParseSrtTimestamp(s).value >= 0.0
  {
    hide Split;
    var h, m, sec, ms := s[0..2], s[3..5], s[6..8], s[9..12];
    NoSeparator(h);
    NoSeparator(m);
    NoSeparator(sec);
    NoSeparator(ms);
    var tail := sec + [','] + ms;
    assert s == h + [':'] + (m + [':'] + tail);
    SplitAt(h, ':', m + [':'] + tail);
    SplitAt(m, ':', tail);
    SplitNone(tail, ':');
    SplitAt(sec, ',', ms);
    SplitNone(ms, ',');
  }

  function StampValue(s: string): (v: real)
    requires IsStamp12(s)
    ensures v >= 0.0
  {
    StampParses(s);
    ParseSrtTimestamp(s).value
  }

  function CueLine(start: nat, end: nat): string { Stamp(start) + " --> " + Stamp(end) }

  lemma MatchedStamps(line: string)
    ensures MatchTiming(line).Some? ==>
      var c := MatchTiming(line).value;
      IsStamp12(c.start) && IsStamp12(c.end) && |c.tail| <= |line| && c.tail == line[|line| - |c.tail|..]
  {
    hide IsStamp12;
  }

  function ShiftedStartMillis(c: Cue, offset: real): nat
    requires IsStamp12(c.start)
  {
    Millis(ShiftedStart(StampValue(c.start), offset))
  }

  function ShiftedEndMillis(c: Cue, offset: real): nat
    requires IsStamp12(c.start) && IsStamp12(c.end)
  {
    Millis(ShiftedEnd(StampValue(c.start), StampValue(c.end), offset))
  }

  function ShiftLine(line: string, offset: real): string {
    match MatchTiming(line)
    case None => line
    case Some(c) =>
      MatchedStamps(line);
      CueLine(ShiftedStartMillis(c, offset), ShiftedEndMillis(c, offset)) + c.tail
  }

  function ShiftAll(lines: seq<string>, offset: real): (r: seq<string>)
    ensures |r| == |lines| && forall i | 0 <= i < |lines| :: r[i] == ShiftLine(lines[i], offset)
  {
    seq(|lines|, i requires 0 <= i < |lines| => ShiftLine(lines[i], offset))
  }

  predicate Negligible(offset: real) { -0.000001 < offset < 0.000001 }

  function Shifted(text: string, offset: real): string {
    if Negligible(offset) then text else JoinLines(ShiftAll(Lines(text), offset)) + "\n"
  }

  lemma ShiftedByLines(text: string, offset: real)
    ensures Shifted(text, offset) ==
        if Negligible(offset) then text else JoinLines(ShiftAll(Lines(text), offset)) + "\n"
  {}

  method ShiftSrtTimestamps(text: string, offset: real) returns (text': string)
    ensures text' == Shifted(text, offset)
  {
    hide *;
    ShiftedByLines(text, offset);
    if Negligible(offset) {
      return text;
    }
    var lines := Lines(text);
    var shifted := [];
    for i := 0 to |lines|
      invariant |shifted| == i
      invariant forall j | 0 <= j < i :: shifted[j] == ShiftLine(lines[j], offset)
    {
      var line := ShiftOneLine(lines[i], offset);
      shifted := shifted + [line];
    }
    assert shifted == ShiftAll(lines, offset);
    text' := JoinLines(shifted) + "\n";
  }

  method ShiftOneLine(line: string, offset: real) returns (line': string)
    ensures line' == ShiftLine(line, offset)
  {
    hide MatchTiming, IsStamp12, Stamp, Millis, StampValue;
    var found := MatchTiming(line);
    if found.None? {
      return line;
    }
    MatchedStamps(line);
    var start := StampValue(found.value.start) + offset;
    var end := StampValue(found.value.end) + offset;
    start := if start < 0.0 then 0.0 else start;
    end := if end < start + 0.01 then start + 0.01 else end;
    var from := FormatSrtTimestamp(start);
    var to := FormatSrtTimestamp(end);
    line' := from + " --> " + to + found.value.tail;
  }

  // ---------------------------------------------------------------------------
  // Shifting keeps the lines of the file: a timing line becomes a cue that starts at or after zero and
  // lasts at least ten milliseconds after rounding, in the same order; any other line stays as it is.

  lemma ShiftRewritesOnlyCues(line: string, line': string, offset: real)
    ensures MatchTiming(line).None? ==> ShiftLine(line, offset) == line
    ensures MatchTiming(line).Some? ==>
      var c := MatchTiming(line).value;
      && IsStamp12(c.start) && IsStamp12(c.end)
      && ShiftLine(line, offset) == CueLine(ShiftedStartMillis(c, offset), ShiftedEndMillis(c, offset)) + c.tail
      && ShiftedStartMillis(c, offset) + 10 <= ShiftedEndMillis(c, offset)
    ensures MatchTiming(line).Some? && MatchTiming(line').Some? ==>
      var c, d := MatchTiming(line).value, MatchTiming(line').value;
      && IsStamp12(c.start) && IsStamp12(d.start)
      && (StampValue(c.start) <= StampValue(d.start) ==> ShiftedStartMillis(c, offset) <= ShiftedStartMillis(d, offset))
  {
    hide MatchTiming, CueLine, StampValue, Millis, IsStamp12;
    MatchedStamps(line);
    MatchedStamps(line');
    if MatchTiming(line).Some? {
      var c := MatchTiming(line).value;
      ShiftKeepsCueOrder(StampValue(c.start), StampValue(c.end),
        if MatchTiming(line').Some? then StampValue(MatchTiming(line').value.start) else 0.0, offset);
    }
  }

  // The shifted file has exactly the shifted lines, unless the file has no line at all: an effective
  // shift then writes one empty line.
  lemma ShiftKeepsLines(text: string, offset: real)
    ensures
      Lines(Shifted(text, offset)) ==
        if Negligible(offset) then Lines(text)
        else if text == "" then [""] else ShiftAll(Lines(text), offset)
    ensures |Lines(Shifted(text, offset))| == |Lines(text)| <==> Negligible(offset) || text != ""
  {
    hide ShiftLine;
    if !Negligible(offset) {
      var lines := ShiftAll(Lines(text), offset);
      if text == "" {
        assert Shifted(text, offset) == "\n";
        assert Lines("\n") == [""] + Lines("");
      } else {
        JoinIsUnlines(lines);
        LinesAreOneLine(text);
        forall i | 0 <= i < |lines| ensures OneLine(lines[i]) { ShiftedIsOneLine(Lines(text)[i], offset); }
        LinesOfUnlines(lines);
      }
    }
  }

  lemma StampIsOneLine(n: nat)
    ensures var s := Stamp(n); OneLine(s) && s != "" && IsDigit(s[0]) && IsDigit(s[|s| - 1])
  {
    var h, m, s, ms := n / 3_600_000, n / 60_000 % 60, n / 1000 % 60, n % 1000;
    hide Pad2, Pad3;
    NoSeparator(Pad2(h));
    NoSeparator(Pad2(m));
    NoSeparator(Pad2(s));
    NoSeparator(Pad3(ms));
  }

  lemma ShiftedIsOneLine(line: string, offset: real)
    requires OneLine(line)
    ensures OneLine(ShiftLine(line, offset))
  {
    hide MatchTiming, Stamp, ShiftedStartMillis, ShiftedEndMillis, IsStamp12;
    if MatchTiming(line).Some? {
      var c := MatchTiming(line).value;
      MatchedStamps(line);
      StampIsOneLine(ShiftedStartMillis(c, offset));
      StampIsOneLine(ShiftedEndMillis(c, offset));
    }
  }

  // ---------------------------------------------------------------------------
  // Two shifts of one canonical cue; offsets in milliseconds.

  lemma StampIsStamp12(n: nat)
    requires n < 360_000_000
    ensures IsStamp12(Stamp(n)) && StampValue(Stamp(n)) == n as real / 1000.0
  {
    var h, m, s, ms := n / 3_600_000, n / 60_000 % 60, n / 1000 % 60, n % 1000;
    hide Pad2, Pad3;
    var x := Stamp(n);
    assert x[0..2] == Pad2(h) && x[3..5] == Pad2(m) && x[6..8] == Pad2(s) && x[9..12] == Pad3(ms);
    ParseOfStamp(n);
  }

  lemma MatchesParts(a: string, b: string)
    requires IsStamp12(a) && IsStamp12(b)
    ensures MatchTiming(a + " --> " + b) == Some(Cue(a, b, ""))
  {
    var line := a + " --> " + b;
    assert |line| == 29 && line[12..17] == " --> ";
    assert line[12] == line[12..17][0] && line[13] == line[12..17][1] && line[16] == line[12..17][4];
    assert line[17] == b[0] && b[0] == b[0..2][0];
    assert SkipSpaces(line, 13) == 13 && SkipSpaces(line, 17) == 17;
    assert line[..12] == a && line[13..16] == "-->" && line[17..29] == b && line[29..] == "";
  }

  lemma CueLineMatches(x: nat, y: nat)
    requires x < 360_000_000 && y < 360_000_000
    ensures MatchTiming(CueLine(x, y)) == Some(Cue(Stamp(x), Stamp(y), ""))
  {
    hide MatchTiming, Stamp, IsStamp12;
    StampIsStamp12(x);
    StampIsStamp12(y);
    MatchesParts(Stamp(x), Stamp(y));
  }

  // Neither the start nor the end of the cue is clamped by the shift, and it stays below 100 hours.
  predicate Unclamped(x: nat, y: nat, a: real) {
    x as real + a >= 0.0 && y as real + a >= x as real + a + 10.0 && RoundHalfEven(y as real + a) < 360_000_000
  }

  lemma MillisOfShifted(x: nat, y: nat, a: real)
    requires Unclamped(x, y, a)
    ensures Millis(ShiftedStart(x as real / 1000.0, a / 1000.0)) == RoundHalfEven(x as real + a)
    ensures Millis(ShiftedEnd(x as real / 1000.0, y as real / 1000.0, a / 1000.0)) == RoundHalfEven(y as real + a)
  {
    assert ShiftedStart(x as real / 1000.0, a / 1000.0) * 1000.0 == x as real + a;
    assert ShiftedEnd(x as real / 1000.0, y as real / 1000.0, a / 1000.0) * 1000.0 == y as real + a;
    hide RoundHalfEven;
  }

  // The shift of a line that matches with an empty tail.
  lemma ShiftOfMatched(line: string, c: Cue, offset: real, p: nat, q: nat)
    requires MatchTiming(line) == Some(c) && IsStamp12(c.start) && IsStamp12(c.end) && c.tail == ""
    requires ShiftedStartMillis(c, offset) == p && ShiftedEndMillis(c, offset) == q
    ensures ShiftLine(line, offset) == CueLine(p, q)
  {
    hide MatchTiming, IsStamp12, CueLine, ShiftedStartMillis, ShiftedEndMillis;
    assert CueLine(p, q) + "" == CueLine(p, q);
  }

  lemma ShiftOfCue(x: nat, y: nat, a: real)
    requires x < 360_000_000 && y < 360_000_000 && Unclamped(x, y, a)
    ensures 0 <= RoundHalfEven(x as real + a) <= RoundHalfEven(y as real + a)
    ensures ShiftLine(CueLine(x, y), a / 1000.0) == CueLine(RoundHalfEven(x as real + a), RoundHalfEven(y as real + a))
  {
    hide MatchTiming, IsStamp12, Stamp, CueLine, StampValue, ShiftLine;
    MillisOfShifted(x, y, a);
    RoundIsMonotone(x as real + a, y as real + a);
    hide RoundHalfEven, Millis, ShiftedStart, ShiftedEnd, Unclamped;
    CueLineMatches(x, y);
    StampIsStamp12(x);
    StampIsStamp12(y);
    ShiftOfMatched(CueLine(x, y), Cue(Stamp(x), Stamp(y), ""), a / 1000.0,
                   RoundHalfEven(x as real + a), RoundHalfEven(y as real + a));
  }

  // A cue below 100 hours that neither shift, nor their sum, clamps or takes beyond 100 hours.
  predicate Free(x: nat, y: nat, a: real, b: real) {
    && x < 360_000_000 && y < 360_000_000 && Unclamped(x, y, a) && Unclamped(x, y, a + b)
    && var x', y' := RoundHalfEven(x as real + a), RoundHalfEven(y as real + a);
       x' >= 0 && y' >= 0 && Unclamped(x', y', b)
  }

  function ShiftedTwice(x: nat, y: nat, a: real, b: real): string {
    ShiftLine(ShiftLine(CueLine(x, y), a / 1000.0), b / 1000.0)
  }

  // For a free cue the shifts are those of its stamps, which agree where the stamps' shifts do.
  lemma ShiftsOfFreeCue(x: nat, y: nat, a: real, b: real) returns (p: nat, q: nat, p': nat, q': nat)
    requires Free(x, y, a, b)
    ensures ShiftedTwice(x, y, a, b) == CueLine(p, q)
    ensures ShiftLine(CueLine(x, y), (a + b) / 1000.0) == CueLine(p', q')
    ensures (p == p' <==> ComposesAt(x, a, b)) && (q == q' <==> ComposesAt(y, a, b))
    ensures p < 360_000_000 && p' < 360_000_000
  {
    hide ShiftLine, CueLine;
    assert x as real + a + b == x as real + (a + b) && y as real + a + b == y as real + (a + b);
    ShiftOfCue(x, y, a);
    ShiftOfCue(RoundHalfEven(x as real + a), RoundHalfEven(y as real + a), b);
    ShiftOfCue(x, y, a + b);
    StartsBelow100Hours(x, y, a, b);
    hide RoundHalfEven;
    p := RoundHalfEven(RoundHalfEven(x as real + a) as real + b);
    q := RoundHalfEven(RoundHalfEven(y as real + a) as real + b);
    p', q' := RoundHalfEven(x as real + a + b), RoundHalfEven(y as real + a + b);
  }

  lemma StampsTellCuesApart(x: nat, y: nat, x': nat, y': nat)
    requires x != x' && x < 360_000_000 && x' < 360_000_000
    ensures CueLine(x, y) != CueLine(x', y')
  {
    hide *;
    CueStartsWithStamp(x, y);
    CueStartsWithStamp(x', y');
    ParseOfStamp(x);
    ParseOfStamp(x');
    assert x as real / 1000.0 != x' as real / 1000.0;
  }

  lemma CueStartsWithStamp(x: nat, y: nat)
    requires x < 360_000_000
    ensures |CueLine(x, y)| >= 12 && CueLine(x, y)[..12] == Stamp(x)
  {
    StampIsStamp12(x);
    hide Stamp, StampValue;
  }

  // A free cue whose start tells two shifts from their sum is shifted differently.
  lemma ShiftsOfCueDiffer(x: nat, y: nat, a: real, b: real)
    requires Free(x, y, a, b) && !ComposesAt(x, a, b)
    ensures ShiftedTwice(x, y, a, b) != ShiftLine(CueLine(x, y), (a + b) / 1000.0)
  {
    var p, q, p', q' := ShiftsOfFreeCue(x, y, a, b);
    hide ShiftLine, CueLine, ShiftedTwice, ComposesAt, Free;
    StampsTellCuesApart(p, q, p', q');
  }

  lemma StartsBelow100Hours(x: nat, y: nat, a: real, b: real)
    requires Free(x, y, a, b)
    ensures RoundHalfEven(RoundHalfEven(x as real + a) as real + b) < 360_000_000
    ensures RoundHalfEven(x as real + a + b) < 360_000_000
  {
    var x', y' := RoundHalfEven(x as real + a), RoundHalfEven(y as real + a);
    assert x' as real + b <= y' as real + b && x as real + a + b <= y as real + (a + b);
    assert RoundHalfEven(y' as real + b) < 360_000_000 && RoundHalfEven(y as real + (a + b)) < 360_000_000;
    hide RoundHalfEven;
    RoundIsMonotone(x' as real + b, y' as real + b);
    RoundIsMonotone(x as real + a + b, y as real + (a + b));
  }

  // There is room for free cues of either parity around 50 hours when the offsets stay within a day.
  lemma RoomForCues(x: nat, a: real, b: real)
    requires -86_400_000.0 <= a <= 86_400_000.0 && -86_400_000.0 <= b <= 86_400_000.0
    requires 180_000_000 <= x <= 180_000_001
    ensures Free(x, x + 100, a, b)
  {
    var y := x + 100;
    var x', y' := RoundHalfEven(x as real + a), RoundHalfEven(y as real + a);
    assert x' as real - 0.5 <= x as real + a <= x' as real + 0.5;
    assert y' as real - 0.5 <= y as real + a <= y' as real + 0.5;
    hide RoundHalfEven;
  }

  // Main result: two shifts by at most a day agree with the shift by their sum on all free cues if and only if
  // the rounding of the first one is invisible (see `ShiftsComposeIff`).
  lemma ShiftsOfCuesComposeIff(a: real, b: real)
    requires -86_400_000.0 <= a <= 86_400_000.0 && -86_400_000.0 <= b <= 86_400_000.0
    ensures (forall x: nat, y: nat | Free(x, y, a, b) ::
        ShiftedTwice(x, y, a, b) == ShiftLine(CueLine(x, y), (a + b) / 1000.0))
            <==> RoundingIsInvisible(a, b)
  {
    hide ShiftLine, CueLine, ShiftedTwice, Free, ComposesAt, RoundingIsInvisible;
    if RoundingIsInvisible(a, b) {
      forall x: nat, y: nat | Free(x, y, a, b)
        ensures ShiftedTwice(x, y, a, b) == ShiftLine(CueLine(x, y), (a + b) / 1000.0)
      {
        ShiftsOfCueCompose(x, y, a, b);
      }
    } else {
      OneOfTwoTells(180_000_000, a, b);
      var x: nat := if ComposesAt(180_000_000, a, b) then 180_000_001 else 180_000_000;
      RoomForCues(x, a, b);
      ShiftsOfCueDiffer(x, x + 100, a, b);
    }
  }

  // In one direction the offsets may be any.
  lemma ShiftsOfCueCompose(x: nat, y: nat, a: real, b: real)
    requires Free(x, y, a, b) && RoundingIsInvisible(a, b)
    ensures ShiftedTwice(x, y, a, b) == ShiftLine(CueLine(x, y), (a + b) / 1000.0)
  {
    var p, q, p', q' := ShiftsOfFreeCue(x, y, a, b);
    hide ShiftLine, CueLine, ShiftedTwice, Free;
    ShiftsComposeIff(a, b);
    assert ComposesAt(x, a, b) && ComposesAt(y, a, b);
  }

  // Twice 0.4 ms leaves a cue where it is, 0.8 ms moves it.
  lemma TwoSmallShiftsDiffer()
    ensures ShiftedTwice(1000, 2000, 0.4, 0.4) != ShiftLine(CueLine(1000, 2000), 0.8 / 1000.0)
  {
    assert Free(1000, 2000, 0.4, 0.4);
    assert !ComposesAt(1000, 0.4, 0.4);
    ShiftsOfCueDiffer(1000, 2000, 0.4, 0.4);
  }

  // ---------------------------------------------------------------------------
  // Writing.

  datatype Segment = Segment(start: Option<real>, end: Option<real>, text: string)

  // One written cue: its number, its timing line and its text.
  datatype Block = Block(index: string, cue: string, text: string)

  function BlockLines(b: Block): seq<string> { [b.index, b.cue, b.text, ""] }

  function FileLines(blocks: seq<Block>): seq<string> {
    if blocks == [] then [] else BlockLines(blocks[0]) + FileLines(blocks[1..])
  }

  function StartOf(s: Segment): real { match s.start case Some(v) => v case None => 0.0 }

  function EndOf(s: Segment): real {
    var end := match s.end case Some(v) => v case None => StartOf(s) + 0.01;
    if end <= StartOf(s) then StartOf(s) + 0.01 else end
  }

  function BlockOf(s: Segment, index: nat): Block {
    Block(Dec(index), CueLine(Millis(StartOf(s)), Millis(EndOf(s))), Strip(s.text))
  }

  // Numbered by position among all segments; those without text are skipped.
  function BlocksOf(segments: seq<Segment>, index: nat): seq<Block> {
    if segments == [] then []
    else
      (if Strip(segments[0].text) == "" then [] else [BlockOf(segments[0], index)])
      + BlocksOf(segments[1..], index + 1)
  }

  function TextsOf(segments: seq<Segment>): seq<string> {
    if segments == [] then []
    else (if Strip(segments[0].text) == "" then [] else [Strip(segments[0].text)]) + TextsOf(segments[1..])
  }

  lemma NextBlock(segments: seq<Segment>, i: nat)
    requires i < |segments|
    ensures BlocksOf(segments[i..], i + 1) ==
      (if Strip(segments[i].text) == "" then [] else [BlockOf(segments[i], i + 1)]) + BlocksOf(segments[i + 1..], i + 2)
  {
    hide Strip, BlockOf;
    assert segments[i..][1..] == segments[i + 1..];
  }

  lemma OneMoreBlock(done: seq<Block>, b: Block)
    ensures Unlines(FileLines(done + [b])) == Unlines(FileLines(done)) + Unlines(BlockLines(b))
  {
    hide BlockLines;
    FileLinesAppend(done, b);
    UnlinesAppend(FileLines(done), BlockLines(b));
  }

  // The blocks written so far, and those of the segments to come.
  ghost predicate Written(segments: seq<Segment>, i: nat, done: seq<Block>, content: string)
    requires i <= |segments|
  {
    done + BlocksOf(segments[i..], i + 1) == BlocksOf(segments, 1) && content == Unlines(FileLines(done))
  }

  lemma WriteNext(segments: seq<Segment>, i: nat, done: seq<Block>, content: string)
    requires i < |segments| && Written(segments, i, done, content)
    ensures
      if Strip(segments[i].text) == "" then Written(segments, i + 1, done, content)
      else
        var b := BlockOf(segments[i], i + 1);
        Written(segments, i + 1, done + [b], content + Unlines(BlockLines(b)))
  {
    hide Strip, BlockOf, BlockLines;
    NextBlock(segments, i);
    var b := BlockOf(segments[i], i + 1);
    OneMoreBlock(done, b);
    var rest := BlocksOf(segments[i + 1..], i + 2);
    assert done + ([b] + rest) == (done + [b]) + rest;
    assert [] + rest == rest;
  }

  method WriteSegments(segments: seq<Segment>) returns (content: string)
    ensures content == Unlines(FileLines(BlocksOf(segments, 1)))
  {
    hide Strip, BlockOf, BlockLines;
    content := "";
    ghost var done: seq<Block> := [];
    assert Written(segments, 0, done, content) by { assert segments[0..] == segments; }
    for i := 0 to |segments|
      invariant Written(segments, i, done, content)
    {
      WriteNext(segments, i, done, content);
      hide Written;
      if Strip(segments[i].text) != "" {
        var text := RenderBlock(segments[i], i + 1);
        content := content + text;
        done := done + [BlockOf(segments[i], i + 1)];
      }
    }
    assert done + BlocksOf(segments[|segments|..], |segments| + 1) == done;
  }

  // The three writes for one segment with text.
  method RenderBlock(segment: Segment, index: nat) returns (text: string)
    requires Strip(segment.text) != ""
    ensures text == Unlines(BlockLines(BlockOf(segment, index)))
    ensures
      var start := match segment.start case Some(v) => v case None => 0.0;
      var end := match segment.end case Some(v) => if v > start then v else start + 0.01 case None => start + 0.01;
      text == Dec(index) + "\n" + Stamp(Millis(start)) + " --> " + Stamp(Millis(end)) + "\n"
              + Strip(segment.text) + "\n\n"
  {
    hide Strip, Stamp, Millis;
    var start := StartOf(segment);
    var end := match segment.end case Some(v) => v case None => start + 0.01;
    if end <= start {
      end := start + 0.01;
    }
    var from := FormatSrtTimestamp(start);
    var to := FormatSrtTimestamp(end);
    BlockText(BlockOf(segment, index));
    text := (Dec(index) + "\n") + (from + " --> " + to + "\n") + (Strip(segment.text) + "\n\n");
  }

  lemma BlockText(b: Block)
    ensures Unlines(BlockLines(b)) == (b.index + "\n") + (b.cue + "\n") + (b.text + "\n\n")
  {
    var l := BlockLines(b);
    assert l[1..] == [b.cue, b.text, ""] && [b.cue, b.text, ""][1..] == [b.text, ""] && [b.text, ""][1..] == [""];
    assert [""][1..] == [];
    assert Unlines([""]) == "\n";
    assert Unlines([b.text, ""]) == b.text + "\n\n";
    assert Unlines([b.cue, b.text, ""]) == b.cue + "\n" + (b.text + "\n\n");
    assert Unlines(l) == b.index + "\n" + (b.cue + "\n" + (b.text + "\n\n"));
  }

  lemma {:induction false} FileLinesAppend(blocks: seq<Block>, b: Block)
    ensures FileLines(blocks + [b]) == FileLines(blocks) + BlockLines(b)
  {
    if blocks == [] {
      assert blocks + [b] == [b] && [b][1..] == [];
    } else {
      FileLinesAppend(blocks[1..], b);
      assert (blocks + [b])[1..] == blocks[1..] + [b];
    }
  }

  // ---------------------------------------------------------------------------
  // Loading.

  // What is left after the greedy `\s*\n` that follows a line break, if it matches.
  function AfterBlank(s: string): Option<string> {
    var run := SkipSpaces(s, 0);
    match LastBreak(s, run)
    case None => None
    case Some(i) => Some(s[i + 1..])
  }

  // The last line break before position `end`.
  function LastBreak(s: string, end: nat): (r: Option<nat>)
    requires end <= |s|
    ensures r.Some? ==> r.value < end && s[r.value] == '\n'
  {
    if end == 0 then None else if s[end - 1] == '\n' then Some(end - 1) else LastBreak(s, end - 1)
  }

  // re.split(r"\n\s*\n", s)
  function SplitBlocks(s: string): (parts: seq<string>)
    ensures parts != []
    decreases |s|
  {
    if s == "" then [""]
    else
      var blank := if s[0] == '\n' then AfterBlank(s[1..]) else None;
      if blank.Some? then [""] + SplitBlocks(blank.value)
      else
        var rest := SplitBlocks(s[1..]);
        [[s[0]] + rest[0]] + rest[1..]
  }

  predicate ArrowAt(line: string, i: nat) { i + 3 <= |line| && line[i..i + 3] == "-->" }

  predicate HasArrow(line: string) { exists i: nat | i < |line| :: ArrowAt(line, i) }

  function NonEmptyStripped(lines: seq<string>): seq<string> {
    if lines == [] then []
    else (if Strip(lines[0]) == "" then [] else [Strip(lines[0])]) + NonEmptyStripped(lines[1..])
  }

  function JoinSpaces(lines: seq<string>): string {
    if lines == [] then "" else if |lines| == 1 then lines[0] else lines[0] + " " + JoinSpaces(lines[1..])
  }

  // The text of one block, empty when the block has none.
  function BodyOf(block: string): string {
    var lines := NonEmptyStripped(Lines(block));
    if |lines| < 2 then ""
    else
      var ts := if HasArrow(lines[1]) then 1 else 0;
      if !HasArrow(lines[ts]) then "" else Strip(JoinSpaces(lines[ts + 1..]))
  }

  function Bodies(blocks: seq<string>): seq<string> {
    if blocks == [] then []
    else (if BodyOf(blocks[0]) == "" then [] else [BodyOf(blocks[0])]) + Bodies(blocks[1..])
  }

  function Loaded(text: string): seq<string> { Bodies(SplitBlocks(Strip(text))) }

  method LoadSegments(text: string) returns (segments: seq<string>)
    ensures segments == Loaded(text)
  {
    hide BodyOf, Strip, SplitBlocks;
    segments := [];
    var blocks := SplitBlocks(Strip(text));
    for i := 0 to |blocks|
      invariant segments + Bodies(blocks[i..]) == Bodies(blocks)
    {
      assert blocks[i..][1..] == blocks[i + 1..];
      var body := BodyText(blocks[i]);
      if body != "" {
        segments := segments + [body];
      }
    }
    assert blocks[|blocks|..] == [];
  }

  method BodyText(block: string) returns (body: string)
    ensures body == BodyOf(block)
  {
    hide Strip, HasArrow;
    var all := Lines(block);
    var lines := [];
    for i := 0 to |all|
      invariant lines + NonEmptyStripped(all[i..]) == NonEmptyStripped(all)
    {
      assert all[i..][1..] == all[i + 1..];
      if Strip(all[i]) != "" {
        lines := lines + [Strip(all[i])];
      }
    }
    assert all[|all|..] == [] && lines + [] == lines;
    if |lines| < 2 {
      return "";
    }
    var ts := if |lines| > 1 && HasArrow(lines[1]) then 1 else 0;
    if !HasArrow(lines[ts]) {
      return "";
    }
    body := Strip(JoinSpaces(lines[ts + 1..]));
  }

  // ---------------------------------------------------------------------------
  // The round trip.

  // A non-empty trimmed line.
  predicate Solid(line: string) { line != "" && Trimmed(line) && OneLine(line) }

  predicate GoodBlock(b: Block) { Solid(b.index) && Solid(b.cue) && HasArrow(b.cue) && Solid(b.text) }

  function BlockString(b: Block): string { b.index + "\n" + b.cue + "\n" + b.text }

  // Every line break is followed by a visible character.
  predicate Tight(s: string) {
    forall i | 0 <= i < |s| && s[i] == '\n' :: i + 1 < |s| && !IsSpace(s[i + 1])
  }

  lemma BlockStringIsTight(b: Block)
    requires GoodBlock(b)
    ensures Tight(BlockString(b)) && BlockString(b) != "" && Trimmed(BlockString(b))
  {
    var s := BlockString(b);
    var p, q := |b.index|, |b.index| + 1 + |b.cue|;
    assert forall i | 0 <= i < p :: s[i] == b.index[i];
    assert forall i | p < i < q :: s[i] == b.cue[i - p - 1];
    assert forall i | q < i < |s| :: s[i] == b.text[i - q - 1];
    assert s[p + 1] == b.cue[0] && s[q + 1] == b.text[0] && s[|s| - 1] == b.text[|b.text| - 1];
  }

  lemma NoBlankAhead(s: string)
    requires s == "" || !IsSpace(s[0])
    ensures AfterBlank(s) == None
  {}

  lemma {:induction false} SplitFirstBlock(b: string, rest: string)
    requires Tight(b) && rest != "" && !IsSpace(rest[0])
    ensures SplitBlocks(b + "\n\n" + rest) == [b] + SplitBlocks(rest)
    decreases |b|
  {
    var s := b + "\n\n" + rest;
    if b == "" {
      var t := s[1..];
      assert t == "\n" + rest;
      assert SkipSpaces(t, 1) == 1 && SkipSpaces(t, 0) == 1;
      assert LastBreak(t, 1) == Some(0);
      assert t[1..] == rest;
    } else {
      forall i | 0 <= i < |b[1..]| && b[1..][i] == '\n' ensures i + 1 < |b[1..]| && !IsSpace(b[1..][i + 1]) {
        assert b[i + 1] == '\n';
      }
      SplitFirstBlock(b[1..], rest);
      assert s[1..] == b[1..] + "\n\n" + rest;
      if b[0] == '\n' {
        assert s[1..][0] == b[1];
        NoBlankAhead(s[1..]);
      }
      assert [b[0]] + b[1..] == b;
    }
  }

  lemma {:induction false} SplitLastBlock(b: string)
    requires Tight(b)
    ensures SplitBlocks(b) == [b]
    decreases |b|
  {
    if b != "" {
      forall i | 0 <= i < |b[1..]| && b[1..][i] == '\n' ensures i + 1 < |b[1..]| && !IsSpace(b[1..][i + 1]) {
        assert b[i + 1] == '\n';
      }
      SplitLastBlock(b[1..]);
      if b[0] == '\n' { NoBlankAhead(b[1..]); }
      assert [b[0]] + b[1..] == b;
    }
  }

  lemma BodyOfGoodBlock(b: Block)
    requires GoodBlock(b)
    ensures BodyOf(BlockString(b)) == b.text
  {
    hide Strip, HasArrow;
    assert Strip(b.index) == b.index && Strip(b.cue) == b.cue && Strip(b.text) == b.text;
    assert BlockString(b) == b.index + "\n" + (b.cue + "\n" + b.text);
    LinesOfLine(b.index, b.cue + "\n" + b.text);
    LinesOfLine(b.cue, b.text);
    LastLine(b.text);
    var l := [b.index, b.cue, b.text];
    assert Lines(BlockString(b)) == l;
    assert l[1..] == [b.cue, b.text] && l[1..][1..] == [b.text] && [b.text][1..] == [];
    assert NonEmptyStripped([b.text]) == [b.text];
    assert NonEmptyStripped([b.cue, b.text]) == [b.cue, b.text];
    assert NonEmptyStripped(l) == l;
    assert l[2..] == [b.text];
  }

  // The file without its two trailing line breaks.
  function Inner(blocks: seq<Block>): string
    requires blocks != []
  {
    if |blocks| == 1 then BlockString(blocks[0]) else BlockString(blocks[0]) + "\n\n" + Inner(blocks[1..])
  }

  predicate AllGood(blocks: seq<Block>) { forall i | 0 <= i < |blocks| :: GoodBlock(blocks[i]) }

  function Texts(blocks: seq<Block>): (r: seq<string>)
    ensures |r| == |blocks|
  {
    seq(|blocks|, i requires 0 <= i < |blocks| => blocks[i].text)
  }

  lemma {:induction false} InnerIsTrimmed(blocks: seq<Block>)
    requires blocks != [] && AllGood(blocks)
    ensures Inner(blocks) != "" && Trimmed(Inner(blocks))
  {
    BlockStringIsTight(blocks[0]);
    hide BlockString;
    if |blocks| > 1 { InnerIsTrimmed(blocks[1..]); }
  }

  lemma {:induction false} FileIsInner(blocks: seq<Block>)
    requires blocks != []
    ensures Unlines(FileLines(blocks)) == Inner(blocks) + "\n\n"
  {
    var b := blocks[0];
    UnlinesAppend(BlockLines(b), FileLines(blocks[1..]));
    BlockText(b);
    assert Unlines(BlockLines(b)) == BlockString(b) + "\n\n";
    if |blocks| > 1 {
      FileIsInner(blocks[1..]);
      assert Unlines(FileLines(blocks)) == BlockString(b) + "\n\n" + (Inner(blocks[1..]) + "\n\n");
    } else {
      assert FileLines(blocks[1..]) == [];
    }
  }

  lemma {:induction false} BodiesOfInner(blocks: seq<Block>)
    requires blocks != [] && AllGood(blocks)
    ensures Bodies(SplitBlocks(Inner(blocks))) == Texts(blocks)
  {
    hide BlockString, BodyOf, Tight, SplitBlocks, Solid;
    var b := BlockString(blocks[0]);
    BlockStringIsTight(blocks[0]);
    BodyOfGoodBlock(blocks[0]);
    TextIsNotEmpty(blocks[0]);
    if |blocks| == 1 {
      SplitLastBlock(b);
      assert [b][1..] == [];
      assert Bodies([b]) == [blocks[0].text];
    } else {
      var rest := SplitBlocks(Inner(blocks[1..]));
      InnerIsTrimmed(blocks[1..]);
      SplitFirstBlock(b, Inner(blocks[1..]));
      BodiesOfInner(blocks[1..]);
      assert ([b] + rest)[1..] == rest;
      assert Bodies([b] + rest) == [blocks[0].text] + Bodies(rest);
      assert Texts(blocks) == [blocks[0].text] + Texts(blocks[1..]);
    }
  }

  lemma TextIsNotEmpty(b: Block)
    requires GoodBlock(b)
    ensures b.text != ""
  {}

  lemma {:induction false} StripTail(s: string, tail: string)
    requires s != "" && Trimmed(s) && AllSpace(tail)
    ensures Strip(s + tail) == s
  {
    assert StripLeft(s + tail) == s + tail;
    StripRightTail(s, tail);
  }

  lemma {:induction false} StripRightTail(s: string, tail: string)
    requires s != "" && !IsSpace(s[|s| - 1]) && AllSpace(tail)
    ensures StripRight(s + tail) == s
    decreases |tail|
  {
    var t := s + tail;
    if tail == "" {
      assert t == s;
    } else {
      assert t[..|t| - 1] == s + tail[..|tail| - 1];
      StripRightTail(s, tail[..|tail| - 1]);
    }
  }

  // Loading a file of well-formed blocks gives their texts.
  lemma LoadOfFile(blocks: seq<Block>)
    requires AllGood(blocks)
    ensures Loaded(Unlines(FileLines(blocks))) == Texts(blocks)
  {
    hide Strip, SplitBlocks, BodyOf, GoodBlock;
    if blocks == [] {
      EmptyFile("");
    } else {
      FileIsInner(blocks);
      InnerIsTrimmed(blocks);
      StripTail(Inner(blocks), "\n\n");
      BodiesOfInner(blocks);
    }
  }

  lemma EmptyFile(text: string)
    requires AllSpace(text)
    ensures Loaded(text) == []
  {
    assert Strip(text) == "";
    assert SplitBlocks("") == [""];
    assert Lines("") == [] && NonEmptyStripped([]) == [];
    assert BodyOf("") == "";
    assert [""][1..] == [];
    assert Bodies([""]) == [];
  }

  function ShiftBlock(b: Block, offset: real): Block { b.(cue := ShiftLine(b.cue, offset)) }

  function ShiftBlocks(blocks: seq<Block>, offset: real): (r: seq<Block>)
    ensures |r| == |blocks|
  {
    seq(|blocks|, i requires 0 <= i < |blocks| => ShiftBlock(blocks[i], offset))
  }

  predicate NotTiming(b: Block) { MatchTiming(b.index).None? && MatchTiming(b.text).None? }

  lemma ShiftedCueIsSolid(line: string, offset: real)
    requires Solid(line) && HasArrow(line)
    ensures Solid(ShiftLine(line, offset)) && HasArrow(ShiftLine(line, offset))
  {
    hide MatchTiming, Stamp, ShiftedStartMillis, ShiftedEndMillis, IsStamp12;
    if MatchTiming(line).Some? {
      ShiftedIsOneLine(line, offset);
      var c := MatchTiming(line).value;
      MatchedStamps(line);
      var from, to := Stamp(ShiftedStartMillis(c, offset)), Stamp(ShiftedEndMillis(c, offset));
      StampIsOneLine(ShiftedStartMillis(c, offset));
      StampIsOneLine(ShiftedEndMillis(c, offset));
      var line' := ShiftLine(line, offset);
      assert line' == from + " --> " + to + c.tail;
      assert ArrowAt(line', |from| + 1);
      if c.tail != "" { assert line'[|line'| - 1] == c.tail[|c.tail| - 1] == line[|line| - 1]; }
    }
  }

  lemma ShiftOfBlockLines(b: Block, offset: real)
    requires NotTiming(b)
    ensures ShiftAll(BlockLines(b), offset) == BlockLines(ShiftBlock(b, offset))
  {
    assert MatchTiming("") == None;
    hide MatchTiming;
    assert ShiftLine(b.index, offset) == b.index && ShiftLine(b.text, offset) == b.text && ShiftLine("", offset) == "";
    hide ShiftLine;
  }

  lemma ShiftAllAppend(a: seq<string>, b: seq<string>, offset: real)
    ensures ShiftAll(a + b, offset) == ShiftAll(a, offset) + ShiftAll(b, offset)
  {
    hide ShiftLine;
  }

  lemma {:induction false} ShiftOfFileLines(blocks: seq<Block>, offset: real)
    requires forall i | 0 <= i < |blocks| :: NotTiming(blocks[i])
    ensures ShiftAll(FileLines(blocks), offset) == FileLines(ShiftBlocks(blocks, offset))
  {
    hide ShiftLine, BlockLines, NotTiming;
    if blocks != [] {
      var b, rest := blocks[0], blocks[1..];
      ShiftOfFileLines(rest, offset);
      ShiftOfBlockLines(b, offset);
      ShiftAllAppend(BlockLines(b), FileLines(rest), offset);
      assert ShiftBlocks(blocks, offset)[1..] == ShiftBlocks(rest, offset);
    }
  }

  // An effective shift of a file of blocks is the file of the shifted blocks.
  lemma ShiftOfFile(blocks: seq<Block>, offset: real)
    requires blocks != [] && !Negligible(offset)
    requires AllGood(blocks) && forall i | 0 <= i < |blocks| :: NotTiming(blocks[i])
    ensures Shifted(Unlines(FileLines(blocks)), offset) == Unlines(FileLines(ShiftBlocks(blocks, offset)))
  {
    hide ShiftLine, NotTiming, GoodBlock;
    var shifted := ShiftBlocks(blocks, offset);
    FileLinesAreOneLine(blocks);
    LinesOfUnlines(FileLines(blocks));
    ShiftOfFileLines(blocks, offset);
    assert FileLines(shifted)[0] == shifted[0].index;
    JoinIsUnlines(FileLines(shifted));
  }

  lemma LoadOfShiftedEmptyFile(offset: real)
    ensures Loaded(Shifted("", offset)) == []
  {
    hide Loaded, ShiftLine;
    var none := ShiftAll(Lines(""), offset);
    assert |none| == 0;
    assert JoinLines(none) + "\n" == "\n";
    EmptyFile("");
    EmptyFile("\n");
  }

  // Loading after a shift gives the same texts as loading before it.
  lemma LoadOfShiftedFile(blocks: seq<Block>, offset: real)
    requires AllGood(blocks) && forall i | 0 <= i < |blocks| :: NotTiming(blocks[i])
    ensures Loaded(Shifted(Unlines(FileLines(blocks)), offset)) == Texts(blocks)
  {
    hide Loaded, ShiftLine, GoodBlock, NotTiming;
    LoadOfFile(blocks);
    if blocks == [] {
      LoadOfShiftedEmptyFile(offset);
    } else if !Negligible(offset) {
      var shifted := ShiftBlocks(blocks, offset);
      forall i | 0 <= i < |blocks| ensures GoodBlock(shifted[i]) { ShiftedBlockIsGood(blocks[i], offset); }
      ShiftOfFile(blocks, offset);
      LoadOfFile(shifted);
      assert Texts(shifted) == Texts(blocks);
    }
  }

  lemma ShiftedBlockIsGood(b: Block, offset: real)
    requires GoodBlock(b)
    ensures GoodBlock(ShiftBlock(b, offset))
  {
    ShiftedCueIsSolid(b.cue, offset);
  }

  lemma {:induction false} FileLinesAreOneLine(blocks: seq<Block>)
    requires AllGood(blocks)
    ensures AllOneLine(FileLines(blocks))
  {
    if blocks != [] {
      FileLinesAreOneLine(blocks[1..]);
      assert GoodBlock(blocks[0]);
    }
  }

  // A text the round trip covers: a single line that is not itself a timing line.
  predicate Plain(text: string) { OneLine(Strip(text)) && MatchTiming(Strip(text)).None? }

  lemma {:induction false} WrittenBlocksAreGood(segments: seq<Segment>, index: nat)
    requires forall i | 0 <= i < |segments| :: Plain(segments[i].text)
    ensures AllGood(BlocksOf(segments, index))
    ensures forall i | 0 <= i < |BlocksOf(segments, index)| :: NotTiming(BlocksOf(segments, index)[i])
    ensures Texts(BlocksOf(segments, index)) == TextsOf(segments)
  {
    hide Strip, GoodBlock, NotTiming, BlockOf;
    if segments != [] {
      var rest := BlocksOf(segments[1..], index + 1);
      WrittenBlocksAreGood(segments[1..], index + 1);
      if Strip(segments[0].text) != "" {
        WrittenBlockIsGood(segments[0], index);
        var b := BlockOf(segments[0], index);
        assert BlocksOf(segments, index) == [b] + rest;
        assert Texts([b] + rest) == [b.text] + Texts(rest);
      }
    }
  }

  lemma WrittenBlockIsGood(s: Segment, index: nat)
    requires Plain(s.text) && Strip(s.text) != ""
    ensures GoodBlock(BlockOf(s, index)) && NotTiming(BlockOf(s, index))
    ensures BlockOf(s, index).text == Strip(s.text)
  {
    hide Strip, Stamp, Millis, Dec;
    var from, to := Stamp(Millis(StartOf(s))), Stamp(Millis(EndOf(s)));
    StampIsOneLine(Millis(StartOf(s)));
    StampIsOneLine(Millis(EndOf(s)));
    var cue := CueLine(Millis(StartOf(s)), Millis(EndOf(s)));
    assert ArrowAt(cue, |from| + 1);
    NoSeparator(Dec(index));
    if |Dec(index)| >= 12 { assert Dec(index)[..12][2] == Dec(index)[2] && Dec(index)[2] in Dec(index); }
  }

  // Main result: writing segments, shifting by any offset and loading gives exactly the non-empty
  // trimmed texts, in order.
  lemma WriteShiftLoad(segments: seq<Segment>, offset: real)
    requires forall i | 0 <= i < |segments| :: Plain(segments[i].text)
    ensures Loaded(Shifted(Unlines(FileLines(BlocksOf(segments, 1))), offset)) == TextsOf(segments)
  {
    hide Loaded, Shifted, Plain;
    WrittenBlocksAreGood(segments, 1);
    LoadOfShiftedFile(BlocksOf(segments, 1), offset);
  }
}

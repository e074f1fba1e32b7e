/** What a written subtitle file says, line by line, told from the segments themselves: each segment with text has
    its number, its times and its text, before and after a shift. */
module WrittenCues {
  import opened Text
  import opened SrtTime
  import opened SrtFile

  function Max(a: real, b: real): real { if a < b then b else a }

  // How many of the first `i` segments have text.
  function Kept(segments: seq<Segment>, i: nat): (k: nat)
    requires i <= |segments|
    ensures k <= i
  {
    if i == 0 then 0
    else (if Strip(segments[0].text) == "" then 0 else 1) + Kept(segments[1..], i - 1)
  }

  // The line is a timing line without anything behind it, for these times within the tolerance.
  predicate Tells(line: string, start: real, end: real, tolerance: real) {
    MatchTiming(line).Some? &&
    var c := MatchTiming(line).value;
    && c.tail == "" && IsStamp12(c.start) && IsStamp12(c.end)
    && start - tolerance <= StampValue(c.start) <= start + tolerance
    && end - tolerance <= StampValue(c.end) <= end + tolerance
  }

  // The last instant that still rounds to a stamp of twelve characters, nearly 100 hours.
  const LastInstant := 359_999.999

  lemma MillisIsNear(v: real)
    ensures Max(v, 0.0) - 0.0005 <= Millis(v) as real / 1000.0 <= Max(v, 0.0) + 0.0005
    ensures v <= LastInstant ==> Millis(v) < 360_000_000
  {}

  lemma CueTells(x: nat, y: nat, start: real, end: real, tolerance: real)
    requires x < 360_000_000 && y < 360_000_000
    requires start - tolerance <= x as real / 1000.0 <= start + tolerance
    requires end - tolerance <= y as real / 1000.0 <= end + tolerance
    ensures Tells(CueLine(x, y), start, end, tolerance)
  {
    CueLineMatches(x, y);
    StampIsStamp12(x);
    StampIsStamp12(y);
    hide MatchTiming, CueLine, Stamp, IsStamp12, StampValue;
  }

  // ---------------------------------------------------------------------------
  // Where a segment's lines are.

  lemma {:induction false} BlockAt(segments: seq<Segment>, index: nat, i: nat)
    requires i < |segments| && Strip(segments[i].text) != ""
    ensures Kept(segments, i) < |BlocksOf(segments, index)|
    ensures BlocksOf(segments, index)[Kept(segments, i)] == BlockOf(segments[i], index + i)
  {
    hide Strip, BlockOf;
    if i > 0 {
      BlockAt(segments[1..], index + 1, i - 1);
    }
  }

  lemma {:induction false} BlocksAreCounted(segments: seq<Segment>, index: nat)
    ensures |BlocksOf(segments, index)| == Kept(segments, |segments|)
  {
    hide Strip, BlockOf;
    if segments != [] { BlocksAreCounted(segments[1..], index + 1); }
  }

  lemma {:induction false} FourLinesEach(blocks: seq<Block>, k: nat)
    ensures |FileLines(blocks)| == 4 * |blocks|
    ensures k < |blocks| ==> FileLines(blocks)[4 * k..4 * k + 4] == BlockLines(blocks[k])
  {
    if blocks != [] {
      var b, rest := BlockLines(blocks[0]), FileLines(blocks[1..]);
      FourLinesEach(blocks[1..], if k == 0 then 0 else k - 1);
      assert FileLines(blocks) == b + rest && |b| == 4;
      if 0 < k < |blocks| {
        assert (b + rest)[4 * k..4 * k + 4] == rest[4 * (k - 1)..4 * (k - 1) + 4];
      }
    }
  }

  // Number, timing line, text and an empty line, four lines for each earlier segment with text further down.
  predicate ReadsAt(lines: seq<string>, k: nat, b: Block) {
    && 4 * k + 3 < |lines|
    && lines[4 * k] == b.index && lines[4 * k + 1] == b.cue && lines[4 * k + 2] == b.text && lines[4 * k + 3] == ""
  }

  lemma {:induction false} LinesOfBlocks(blocks: seq<Block>, k: nat)
    requires k < |blocks| && AllOneLine(FileLines(blocks))
    ensures var lines := Lines(Unlines(FileLines(blocks))); |lines| == 4 * |blocks| && ReadsAt(lines, k, blocks[k])
  {
    LinesOfUnlines(FileLines(blocks));
    FourLinesEach(blocks, k);
    hide Lines, Unlines;
    var lines, b := FileLines(blocks), BlockLines(blocks[k]);
    assert lines[4 * k..4 * k + 4][0] == b[0] && lines[4 * k..4 * k + 4][1] == b[1];
    assert lines[4 * k..4 * k + 4][2] == b[2] && lines[4 * k..4 * k + 4][3] == b[3];
  }

  lemma {:induction false} BlocksAreOneLine(segments: seq<Segment>)
    requires forall i | 0 <= i < |segments| :: Plain(segments[i].text)
    ensures AllGood(BlocksOf(segments, 1)) && AllOneLine(FileLines(BlocksOf(segments, 1)))
    ensures forall i | 0 <= i < |BlocksOf(segments, 1)| :: NotTiming(BlocksOf(segments, 1)[i])
  {
    WrittenBlocksAreGood(segments, 1);
    FileLinesAreOneLine(BlocksOf(segments, 1));
  }

  lemma {:induction false} SegmentReadsAt(segments: seq<Segment>, i: nat)
    requires forall j | 0 <= j < |segments| :: Plain(segments[j].text)
    requires i < |segments| && Strip(segments[i].text) != ""
    ensures
      var lines := Lines(Unlines(FileLines(BlocksOf(segments, 1))));
      |lines| == 4 * Kept(segments, |segments|) && ReadsAt(lines, Kept(segments, i), BlockOf(segments[i], i + 1))
  {
    hide *;
    BlockAt(segments, 1, i);
    BlocksAreCounted(segments, 1);
    BlocksAreOneLine(segments);
    LinesOfBlocks(BlocksOf(segments, 1), Kept(segments, i));
  }

  lemma {:induction false} ShiftedSegmentReadsAt(segments: seq<Segment>, i: nat, offset: real)
    requires forall j | 0 <= j < |segments| :: Plain(segments[j].text)
    requires i < |segments| && Strip(segments[i].text) != "" && !(-0.000001 < offset < 0.000001)
    ensures
      var lines := Lines(Shifted(Unlines(FileLines(BlocksOf(segments, 1))), offset));
      var b := BlockOf(segments[i], i + 1);
      && |lines| == 4 * Kept(segments, |segments|)
      && ReadsAt(lines, Kept(segments, i), b.(cue := ShiftLine(b.cue, offset)))
  {
    hide *;
    BlockAt(segments, 1, i);
    BlocksAreCounted(segments, 1);
    BlocksAreOneLine(segments);
    LinesOfShiftedBlocks(BlocksOf(segments, 1), Kept(segments, i), offset);
  }

  lemma {:induction false} CueOfSegment(s: Segment, index: nat)
    requires s.start.Some? ==> s.start.value <= LastInstant - 0.01
    requires s.end.Some? ==> s.end.value <= LastInstant
    ensures
      var start := if s.start.Some? then s.start.value else 0.0;
      var end := if s.end.Some? && s.end.value > start then s.end.value else start + 0.01;
      && BlockOf(s, index).index == Dec(index) && BlockOf(s, index).text == Strip(s.text)
      && Tells(BlockOf(s, index).cue, Max(start, 0.0), Max(end, 0.0), 0.0005)
  {
    var start, end := StartOf(s), EndOf(s);
    MillisIsNear(start);
    MillisIsNear(end);
    hide Millis, Strip, Tells, CueLine, Dec;
    CueTells(Millis(start), Millis(end), Max(start, 0.0), Max(end, 0.0), 0.0005);
  }

  lemma {:induction false} ShiftedCueOfSegment(s: Segment, index: nat, offset: real)
    requires s.start.Some? ==> s.start.value <= LastInstant - 0.01
    requires s.end.Some? ==> s.end.value <= LastInstant
    ensures
      var start := if s.start.Some? then s.start.value else 0.0;
      var end := if s.end.Some? && s.end.value > start then s.end.value else start + 0.01;
      var from := Max(Max(start, 0.0) + offset, 0.0);
      Max(start, 0.0) + offset <= LastInstant - 0.02 && Max(end, 0.0) + offset <= LastInstant - 0.01 ==>
        Tells(ShiftLine(BlockOf(s, index).cue, offset), from, Max(Max(end, 0.0) + offset, from + 0.01), 0.001)
  {
    var start, end := StartOf(s), EndOf(s);
    MillisIsNear(start);
    MillisIsNear(end);
    hide Millis, Strip, Tells, CueLine, Dec, ShiftLine;
    if Max(start, 0.0) + offset <= LastInstant - 0.02 && Max(end, 0.0) + offset <= LastInstant - 0.01 {
      ShiftedCueTells(Millis(start), Millis(end), Max(start, 0.0), Max(end, 0.0), offset);
    }
  }

  // ---------------------------------------------------------------------------
  // Main results.

  // A segment with text is written as its number among all segments, its times to the nearest millisecond, and its
  // text. A missing start is zero, and an end that is missing or not after the start is ten milliseconds after it.
  lemma {:induction false} WrittenFileTells(segments: seq<Segment>, i: nat)
    requires forall j | 0 <= j < |segments| :: Plain(segments[j].text)
    requires i < |segments| && Strip(segments[i].text) != ""
    requires segments[i].start.Some? ==> segments[i].start.value <= LastInstant - 0.01
    requires segments[i].end.Some? ==> segments[i].end.value <= LastInstant
    ensures
      var lines := Lines(Unlines(FileLines(BlocksOf(segments, 1))));
      var k := 4 * Kept(segments, i);
      var start := if segments[i].start.Some? then segments[i].start.value else 0.0;
      var end := if segments[i].end.Some? && segments[i].end.value > start then segments[i].end.value else start + 0.01;
      && |lines| == 4 * Kept(segments, |segments|) && k + 3 < |lines|
      && lines[k] == Dec(i + 1)
      && Tells(lines[k + 1], Max(start, 0.0), Max(end, 0.0), 0.0005)
      && lines[k + 2] == Strip(segments[i].text)
      && lines[k + 3] == ""
  {
    hide *;
    SegmentReadsAt(segments, i);
    FourthLines(Lines(Unlines(FileLines(BlocksOf(segments, 1)))), Kept(segments, i), BlockOf(segments[i], i + 1));
    CueOfSegment(segments[i], i + 1);
  }

  // The shift of a timing line moves both times, to the millisecond: a start before zero becomes zero, and an end
  // less than ten milliseconds after the new start becomes ten milliseconds after it.
  lemma ShiftedCueTells(x: nat, y: nat, start: real, end: real, offset: real)
    requires x < 360_000_000 && y < 360_000_000
    requires start - 0.0005 <= x as real / 1000.0 <= start + 0.0005
    requires end - 0.0005 <= y as real / 1000.0 <= end + 0.0005
    requires start + offset <= LastInstant - 0.02 && end + offset <= LastInstant - 0.01
    ensures
      var from := Max(start + offset, 0.0);
      Tells(ShiftLine(CueLine(x, y), offset), from, Max(end + offset, from + 0.01), 0.001)
  {
    CueLineMatches(x, y);
    StampIsStamp12(x);
    StampIsStamp12(y);
    var c := Cue(Stamp(x), Stamp(y), "");
    var v, w := x as real / 1000.0, y as real / 1000.0;
    var p, q := ShiftedStartMillis(c, offset), ShiftedEndMillis(c, offset);
    ShiftOfMatched(CueLine(x, y), c, offset, p, q);
    MillisIsNear(ShiftedStart(v, offset));
    MillisIsNear(ShiftedEnd(v, w, offset));
    hide MatchTiming, CueLine, Stamp, IsStamp12, StampValue, ShiftLine, Tells, Millis;
    var from := Max(start + offset, 0.0);
    CueTells(p, q, from, Max(end + offset, from + 0.01), 0.001);
  }

  // So a shifted file says the same with all times moved. Offsets below a microsecond change nothing.
  lemma {:induction false} ShiftedFileTells(segments: seq<Segment>, i: nat, offset: real)
    requires forall j | 0 <= j < |segments| :: Plain(segments[j].text)
    requires i < |segments| && Strip(segments[i].text) != ""
    requires segments[i].start.Some? ==> segments[i].start.value <= LastInstant - 0.01
    requires segments[i].end.Some? ==> segments[i].end.value <= LastInstant
    ensures
      var content := Unlines(FileLines(BlocksOf(segments, 1)));
      var lines := Lines(Shifted(content, offset));
      var k := 4 * Kept(segments, i);
      var start := if segments[i].start.Some? then segments[i].start.value else 0.0;
      var end := if segments[i].end.Some? && segments[i].end.value > start then segments[i].end.value else start + 0.01;
      var from := Max(Max(start, 0.0) + offset, 0.0);
      && (-0.000001 < offset < 0.000001 ==> Shifted(content, offset) == content)
      && |lines| == 4 * Kept(segments, |segments|) && k + 3 < |lines|
      && lines[k] == Dec(i + 1)
      && (!(-0.000001 < offset < 0.000001)
          && Max(start, 0.0) + offset <= LastInstant - 0.02 && Max(end, 0.0) + offset <= LastInstant - 0.01 ==>
            Tells(lines[k + 1], from, Max(Max(end, 0.0) + offset, from + 0.01), 0.001))
      && lines[k + 2] == Strip(segments[i].text)
      && lines[k + 3] == ""
  {
    hide *;
    var content, k, b := Unlines(FileLines(BlocksOf(segments, 1))), Kept(segments, i), BlockOf(segments[i], i + 1);
    WrittenFileTells(segments, i);
    CueOfSegment(segments[i], i + 1);
    if -0.000001 < offset < 0.000001 {
      NegligibleShift(content, offset);
    } else {
      ShiftedCueOfSegment(segments[i], i + 1, offset);
      ShiftedSegmentReadsAt(segments, i, offset);
      FourthLines(Lines(Shifted(content, offset)), k, b.(cue := ShiftLine(b.cue, offset)));
    }
  }

  lemma NegligibleShift(text: string, offset: real)
    requires -0.000001 < offset < 0.000001
    ensures Shifted(text, offset) == text
  {}

  lemma FourthLines(lines: seq<string>, k: nat, b: Block)
    requires ReadsAt(lines, k, b)
    ensures 4 * k + 3 < |lines| && lines[4 * k] == b.index && lines[4 * k + 1] == b.cue
    ensures lines[4 * k + 2] == b.text && lines[4 * k + 3] == ""
  {}

  lemma {:induction false} LinesOfShiftedBlocks(blocks: seq<Block>, k: nat, offset: real)
    requires k < |blocks| && AllGood(blocks) && forall i | 0 <= i < |blocks| :: NotTiming(blocks[i])
    requires !(-0.000001 < offset < 0.000001)
    ensures
      var lines := Lines(Shifted(Unlines(FileLines(blocks)), offset));
      |lines| == 4 * |blocks| && ReadsAt(lines, k, blocks[k].(cue := ShiftLine(blocks[k].cue, offset)))
  {
    hide ShiftLine, NotTiming, GoodBlock;
    var shifted := ShiftBlocks(blocks, offset);
    ShiftOfFile(blocks, offset);
    forall i | 0 <= i < |blocks| ensures GoodBlock(shifted[i]) { ShiftedBlockIsGood(blocks[i], offset); }
    FileLinesAreOneLine(shifted);
    LinesOfBlocks(shifted, k);
  }
}

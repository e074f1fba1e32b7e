/** Loading subtitle files that others wrote: entries with several lines of text, any number of blank lines between
    them, and white space around the whole. */
module LooseSubtitles {
  import opened Text
  import opened SrtFile

  datatype Entry = Entry(index: string, cue: string, lines: seq<string>)

  predicate AllSolid(lines: seq<string>) { forall i | 0 <= i < |lines| :: Solid(lines[i]) }

  predicate GoodEntry(e: Entry) {
    Solid(e.index) && Solid(e.cue) && HasArrow(e.cue) && e.lines != [] && AllSolid(e.lines)
  }

  predicate GoodEntries(entries: seq<Entry>) { forall i | 0 <= i < |entries| :: GoodEntry(entries[i]) }

  predicate AllGaps(gaps: seq<string>) { forall i | 0 <= i < |gaps| :: AllSpace(gaps[i]) }

  function EntryString(e: Entry): string { e.index + "\n" + (e.cue + "\n" + JoinLines(e.lines)) }

  // Between two entries two line breaks with any white space in between.
  function FileOf(entries: seq<Entry>, gaps: seq<string>): string
    requires |entries| == |gaps| + 1
  {
    if gaps == [] then EntryString(entries[0])
    else EntryString(entries[0]) + "\n" + gaps[0] + "\n" + FileOf(entries[1..], gaps[1..])
  }

  // ---------------------------------------------------------------------------
  // One entry.

  lemma {:induction false} SolidLines(lines: seq<string>)
    requires lines != [] && AllSolid(lines)
    ensures var s := JoinLines(lines); s != "" && Trimmed(s) && Tight(s) && Lines(s) == lines
  {
    if |lines| == 1 {
      LastLine(lines[0]);
    } else {
      SolidLines(lines[1..]);
      LinesOfLine(lines[0], JoinLines(lines[1..]));
      TightOnto(lines[0], JoinLines(lines[1..]));
    }
  }

  lemma TightOnto(line: string, rest: string)
    requires Solid(line) && rest != "" && Trimmed(rest) && Tight(rest)
    ensures var s := line + "\n" + rest; Tight(s) && Trimmed(s) && s != ""
  {
    var s, p := line + "\n" + rest, |line|;
    assert forall i | 0 <= i < p :: s[i] == line[i];
    assert forall i | p < i < |s| :: s[i] == rest[i - p - 1];
    forall i | 0 <= i < |s| && s[i] == '\n' ensures i + 1 < |s| && !IsSpace(s[i + 1]) {
      if i > p { assert rest[i - p - 1] == '\n'; }
    }
  }

  lemma EntryIsTight(e: Entry)
    requires GoodEntry(e)
    ensures var s := EntryString(e); Tight(s) && Trimmed(s) && s != "" && Lines(s) == [e.index, e.cue] + e.lines
  {
    SolidLines(e.lines);
    TightOnto(e.cue, JoinLines(e.lines));
    TightOnto(e.index, e.cue + "\n" + JoinLines(e.lines));
    LinesOfLine(e.cue, JoinLines(e.lines));
    LinesOfLine(e.index, e.cue + "\n" + JoinLines(e.lines));
  }

  lemma {:induction false} SolidStay(lines: seq<string>)
    requires AllSolid(lines)
    ensures NonEmptyStripped(lines) == lines
  {
    hide Strip;
    if lines != [] {
      SolidStay(lines[1..]);
      assert lines == [lines[0]] + lines[1..];
    }
  }

  lemma {:induction false} JoinedIsTrimmed(lines: seq<string>)
    requires lines != [] && AllSolid(lines)
    ensures JoinSpaces(lines) != "" && Trimmed(JoinSpaces(lines))
  {
    if |lines| > 1 { JoinedIsTrimmed(lines[1..]); }
  }

  // The lines of a text are joined by single blanks.
  lemma {:induction false} JoinSpacesAdds(lines: seq<string>, line: string)
    ensures JoinSpaces([line]) == line
    ensures lines != [] ==> JoinSpaces(lines + [line]) == JoinSpaces(lines) + " " + line
  {
    if |lines| == 1 {
      assert (lines + [line])[1..] == [line];
    } else if lines != [] {
      JoinSpacesAdds(lines[1..], line);
      assert (lines + [line])[1..] == lines[1..] + [line];
    }
  }

  lemma BodyOfEntry(e: Entry)
    requires GoodEntry(e)
    ensures BodyOf(EntryString(e)) == JoinSpaces(e.lines) && JoinSpaces(e.lines) != ""
  {
    hide Strip, EntryString, HasArrow;
    var all := [e.index, e.cue] + e.lines;
    EntryIsTight(e);
    SolidStay(all);
    JoinedIsTrimmed(e.lines);
    assert all[2..] == e.lines && all[1] == e.cue;
    hide Lines, NonEmptyStripped, JoinSpaces, Tight;
  }

  // ---------------------------------------------------------------------------
  // Many entries.

  lemma {:induction false} LastBreakAt(s: string, n: nat)
    requires n < |s| && s[n] == '\n'
    ensures LastBreak(s, n + 1) == Some(n)
  {}

  lemma {:induction false} SplitFirstEntry(b: string, gap: string, rest: string)
    requires Tight(b) && AllSpace(gap) && rest != "" && !IsSpace(rest[0])
    ensures SplitBlocks(b + "\n" + gap + "\n" + rest) == [b] + SplitBlocks(rest)
    decreases |b|
  {
    hide *;
    var s := b + "\n" + gap + "\n" + rest;
    if b == "" {
      SplitGap(s, gap, rest);
    } else {
      TightTail(b);
      SplitFirstEntry(b[1..], gap, rest);
      assert s[1..] == b[1..] + "\n" + gap + "\n" + rest && s[0] == b[0];
      if b[0] == '\n' {
        assert s[1..][0] == b[1];
        NoBlankAhead(s[1..]);
      }
      assert [b[0]] + b[1..] == b;
      SplitStep(s);
    }
  }

  lemma TightTail(b: string)
    requires Tight(b) && b != ""
    ensures Tight(b[1..]) && (b[0] == '\n' ==> |b| > 1 && !IsSpace(b[1]))
  {
    forall i | 0 <= i < |b[1..]| && b[1..][i] == '\n' ensures i + 1 < |b[1..]| && !IsSpace(b[1..][i + 1]) {
      assert b[i + 1] == '\n';
    }
  }

  lemma SplitGap(s: string, gap: string, rest: string)
    requires AllSpace(gap) && rest != "" && !IsSpace(rest[0]) && s == "" + "\n" + gap + "\n" + rest
    ensures SplitBlocks(s) == [""] + SplitBlocks(rest)
  {
    GapIsSkipped(gap, rest);
    assert s[1..] == gap + "\n" + rest;
    hide AfterBlank, AllSpace;
  }

  lemma SplitStep(s: string)
    requires s != "" && (s[0] == '\n' ==> AfterBlank(s[1..]) == None)
    ensures SplitBlocks(s) == [[s[0]] + SplitBlocks(s[1..])[0]] + SplitBlocks(s[1..])[1..]
  {}

  lemma {:induction false} GapIsSkipped(gap: string, rest: string)
    requires AllSpace(gap) && rest != "" && !IsSpace(rest[0])
    ensures AfterBlank(gap + "\n" + rest) == Some(rest)
  {
    var t := gap + "\n" + rest;
    assert t[0..|gap| + 1] == gap + "\n";
    SkipSpacesStops(t, 0, |gap| + 1);
    LastBreakAt(t, |gap|);
    assert t[|gap| + 1..] == rest;
  }

  lemma {:induction false} FileIsTrimmed(entries: seq<Entry>, gaps: seq<string>)
    requires |entries| == |gaps| + 1 && GoodEntries(entries)
    ensures FileOf(entries, gaps) != "" && Trimmed(FileOf(entries, gaps))
  {
    EntryIsTight(entries[0]);
    hide EntryString;
    if gaps != [] { FileIsTrimmed(entries[1..], gaps[1..]); }
  }

  function Texts(entries: seq<Entry>): (r: seq<string>)
    ensures |r| == |entries| && forall i | 0 <= i < |r| :: r[i] == JoinSpaces(entries[i].lines)
  {
    seq(|entries|, i requires 0 <= i < |entries| => JoinSpaces(entries[i].lines))
  }

  lemma {:induction false} BodiesOfFile(entries: seq<Entry>, gaps: seq<string>)
    requires |entries| == |gaps| + 1 && GoodEntries(entries) && AllGaps(gaps)
    ensures Bodies(SplitBlocks(FileOf(entries, gaps))) == Texts(entries)
  {
    hide *;
    var b := EntryString(entries[0]);
    FrontOfFile(entries, gaps);
    EntryIsTight(entries[0]);
    BodyOfEntry(entries[0]);
    if gaps == [] {
      SplitLastBlock(b);
      BodiesGrow(b, []);
      assert [b] + [] == [b];
    } else {
      var rest := FileOf(entries[1..], gaps[1..]);
      FileIsTrimmed(entries[1..], gaps[1..]);
      StartsVisibly(rest);
      SplitFirstEntry(b, gaps[0], rest);
      BodiesOfFile(entries[1..], gaps[1..]);
      BodiesGrow(b, SplitBlocks(rest));
    }
  }

  lemma StartsVisibly(s: string)
    requires s != "" && Trimmed(s)
    ensures !IsSpace(s[0])
  {}

  lemma FrontOfFile(entries: seq<Entry>, gaps: seq<string>)
    requires |entries| == |gaps| + 1 && GoodEntries(entries) && AllGaps(gaps)
    ensures GoodEntry(entries[0])
    ensures Bodies([]) == []
    ensures gaps == [] ==>
      FileOf(entries, gaps) == EntryString(entries[0]) && Texts(entries) == [JoinSpaces(entries[0].lines)]
    ensures gaps != [] ==>
      && FileOf(entries, gaps) == EntryString(entries[0]) + "\n" + gaps[0] + "\n" + FileOf(entries[1..], gaps[1..])
      && Texts(entries) == [JoinSpaces(entries[0].lines)] + Texts(entries[1..])
      && GoodEntries(entries[1..]) && AllSpace(gaps[0]) && AllGaps(gaps[1..])
  {
    hide EntryString, GoodEntry, JoinSpaces, AllSpace;
  }

  lemma BodiesGrow(b: string, rest: seq<string>)
    requires BodyOf(b) != ""
    ensures Bodies([b] + rest) == [BodyOf(b)] + Bodies(rest)
  {
    hide BodyOf;
    assert ([b] + rest)[1..] == rest;
  }

  lemma {:induction false} StripLeftLead(lead: string, s: string)
    requires AllSpace(lead) && s != "" && !IsSpace(s[0])
    ensures StripLeft(lead + s) == s
  {
    if lead == "" {
      assert lead + s == s;
    } else {
      StripLeftLead(lead[1..], s);
      assert (lead + s)[1..] == lead[1..] + s;
    }
  }

  lemma {:induction false} StripAround(lead: string, s: string, tail: string)
    requires AllSpace(lead) && AllSpace(tail) && s != "" && Trimmed(s)
    ensures Strip(lead + s + tail) == s
  {
    assert lead + s + tail == lead + (s + tail);
    StripLeftLead(lead, s + tail);
    StripRightTail(s, tail);
    hide StripLeft, StripRight;
  }

  // Main result: loading such a file gives the text of every entry, its lines joined by blanks, in order.
  lemma {:induction false} LoadOfLooseFile(lead: string, entries: seq<Entry>, gaps: seq<string>, tail: string)
    requires |entries| == |gaps| + 1 && GoodEntries(entries) && AllGaps(gaps) && AllSpace(lead) && AllSpace(tail)
    ensures Loaded(lead + FileOf(entries, gaps) + tail) == Texts(entries)
  {
    FileIsTrimmed(entries, gaps);
    hide Strip, SplitBlocks, Bodies, FileOf;
    StripAround(lead, FileOf(entries, gaps), tail);
    BodiesOfFile(entries, gaps);
  }
}

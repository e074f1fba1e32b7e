/** Long audio is cut into chunks; each chunk is transcribed on its own, its segments are moved by the
    chunk's start and appended. The speech model is an arbitrary function of a chunk. */
module Transcription {
  import opened Text

  datatype Segment = Segment(start: real, end: real, text: string)

  datatype Result = Result(text: string, segments: seq<Segment>)

  // A stretch of the audio: where it starts and how long it is.
  datatype Chunk = Chunk(start: real, duration: real)

  // ---------------------------------------------------------------------------
  // Normalising and offsetting one result.

  function Texts(segments: seq<Segment>): seq<string> {
    if segments == [] then []
    else Texts(segments[..|segments| - 1]) +
         (if segments[|segments| - 1].text == "" then [] else [segments[|segments| - 1].text])
  }

  function JoinWords(parts: seq<string>): string {
    if parts == [] then "" else if |parts| == 1 then parts[0] else parts[0] + " " + JoinWords(parts[1..])
  }

  // The texts that are not empty.
  function NonEmpty(texts: seq<string>): seq<string> {
    if texts == [] then [] else (if texts[0] == "" then [] else [texts[0]]) + NonEmpty(texts[1..])
  }

  // Where the i-th text begins when the non-empty ones are joined by single blanks.
  function Position(texts: seq<string>, i: nat): nat
    requires i <= |texts|
  {
    if i == 0 then 0 else (if texts[0] == "" then 0 else |texts[0]| + 1) + Position(texts[1..], i - 1)
  }

  lemma JoinedFront(texts: seq<string>)
    requires texts != []
    ensures
      var whole, rest := JoinWords(NonEmpty(texts)), JoinWords(NonEmpty(texts[1..]));
      && (texts[0] == "" ==> NonEmpty(texts) == NonEmpty(texts[1..]))
      && (texts[0] != "" ==>
            NonEmpty(texts) != [] && whole == if NonEmpty(texts[1..]) == [] then texts[0] else texts[0] + " " + rest)
  {
    if texts[0] != "" {
      assert NonEmpty(texts)[1..] == NonEmpty(texts[1..]);
    } else {
      assert [] + NonEmpty(texts[1..]) == NonEmpty(texts[1..]);
    }
  }

  lemma {:induction false} JoinedLength(texts: seq<string>)
    ensures NonEmpty(texts) == [] <==> Position(texts, |texts|) == 0
    ensures |JoinWords(NonEmpty(texts))| == if NonEmpty(texts) == [] then 0 else Position(texts, |texts|) - 1
  {
    if texts != [] {
      JoinedLength(texts[1..]);
      JoinedFront(texts);
    }
  }

  // The joined text carries every text that is not empty, in order, one blank apart, and nothing else.
  lemma {:induction false} JoinedCarries(texts: seq<string>, i: nat)
    requires i < |texts| && texts[i] != ""
    ensures
      var whole, at := JoinWords(NonEmpty(texts)), Position(texts, i);
      && at + |texts[i]| <= |whole| && whole[at..at + |texts[i]|] == texts[i]
      && (at > 0 ==> whole[at - 1] == ' ')
  {
    hide *;
    JoinedFront(texts);
    JoinedLength(texts[1..]);
    PositionFront(texts, i);
    var front, whole, rest := texts[0], JoinWords(NonEmpty(texts)), JoinWords(NonEmpty(texts[1..]));
    if i > 0 {
      JoinedCarries(texts[1..], i - 1);
      if front != "" {
        assert whole == front + " " + rest;
        PartBehind(front, rest, Position(texts[1..], i - 1), texts[i]);
      }
    } else {
      assert whole[..|front|] == front;
    }
  }

  lemma PositionFront(texts: seq<string>, i: nat)
    requires i < |texts|
    ensures Position(texts, 0) == 0
    ensures i > 0 ==>
      Position(texts, i) == (if texts[0] == "" then 0 else |texts[0]| + 1) + Position(texts[1..], i - 1)
  {}

  lemma PartBehind(front: string, rest: string, at: nat, part: string)
    requires at + |part| <= |rest| && rest[at..at + |part|] == part && (at > 0 ==> rest[at - 1] == ' ')
    ensures
      var whole, from := front + " " + rest, |front| + 1 + at;
      from + |part| <= |whole| && whole[from..from + |part|] == part && whole[from - 1] == ' '
  {
    var whole := front + " " + rest;
    assert whole[|front| + 1..] == rest;
    assert whole[|front| + 1 + at..|front| + 1 + at + |part|] == whole[|front| + 1..][at..at + |part|];
  }

  lemma {:induction false} NonEmptyAppend(texts: seq<string>, text: string)
    ensures NonEmpty(texts + [text]) == NonEmpty(texts) + if text == "" then [] else [text]
  {
    if texts == [] {
      assert texts + [text] == [text] && [text][1..] == [];
    } else {
      NonEmptyAppend(texts[1..], text);
      assert (texts + [text])[1..] == texts[1..] + [text];
    }
  }

  // Joining trimmed texts leaves nothing to strip.
  lemma {:induction false} JoinedIsTrimmed(texts: seq<string>)
    requires forall i | 0 <= i < |texts| :: Trimmed(texts[i])
    ensures Trimmed(JoinWords(NonEmpty(texts)))
    ensures JoinWords(NonEmpty(texts)) == "" <==> NonEmpty(texts) == []
  {
    if texts != [] {
      JoinedIsTrimmed(texts[1..]);
      JoinedFront(texts);
    }
  }

  function TextOfEach(segments: seq<Segment>): (r: seq<string>)
    ensures |r| == |segments| && forall i | 0 <= i < |r| :: r[i] == segments[i].text
  {
    seq(|segments|, i requires 0 <= i < |segments| => segments[i].text)
  }

  lemma {:induction false} TextsAreNonEmpty(segments: seq<Segment>)
    ensures Texts(segments) == NonEmpty(TextOfEach(segments))
  {
    if segments != [] {
      var front, last := segments[..|segments| - 1], segments[|segments| - 1];
      TextsAreNonEmpty(front);
      NonEmptyAppend(TextOfEach(front), last.text);
      assert TextOfEach(segments) == TextOfEach(front) + [last.text];
    }
  }

  function Trim(s: Segment): Segment { s.(text := Strip(s.text)) }

  // Every raw segment is kept, in order, with its text trimmed; the joined text skips empty ones.
  method NormalizeResult(raw: seq<Segment>) returns (r: Result)
    ensures |r.segments| == |raw| && forall i | 0 <= i < |raw| :: r.segments[i] == Trim(raw[i])
    ensures r.text == Strip(JoinWords(Texts(r.segments)))
  {
    hide Strip;
    var segments: seq<Segment> := [];
    var textParts := [];
    for i := 0 to |raw|
      invariant |segments| == i && forall j | 0 <= j < i :: segments[j] == Trim(raw[j])
      invariant textParts == Texts(segments)
    {
      var text := Strip(raw[i].text);
      if text != "" {
        textParts := textParts + [text];
      }
      assert (segments + [Segment(raw[i].start, raw[i].end, text)])[..i] == segments;
      segments := segments + [Segment(raw[i].start, raw[i].end, text)];
    }
    r := Result(Strip(JoinWords(textParts)), segments);
  }

  // So the text of a normalised result carries the trimmed text of every segment that has one, in order.
  lemma {:induction false} NormalizedTextTells(raw: seq<Segment>, r: Result, i: nat)
    requires |r.segments| == |raw| && forall j | 0 <= j < |raw| :: r.segments[j] == Trim(raw[j])
    requires r.text == Strip(JoinWords(Texts(r.segments)))
    requires i < |raw| && Strip(raw[i].text) != ""
    ensures
      var text, at := Strip(raw[i].text), Position(TextOfEach(r.segments), i);
      && r.segments[i] == Segment(raw[i].start, raw[i].end, text)
      && at + |text| <= |r.text| && r.text[at..at + |text|] == text && (at > 0 ==> r.text[at - 1] == ' ')
  {
    hide Strip, JoinWords, NonEmpty, Position, Texts, Trimmed;
    TextsAreNonEmpty(r.segments);
    assert forall j | 0 <= j < |raw| :: TextOfEach(r.segments)[j] == Strip(raw[j].text);
    JoinedIsTrimmed(TextOfEach(r.segments));
    JoinedCarries(TextOfEach(r.segments), i);
  }

  function Moved(s: Segment, offset: real): Segment { s.(start := s.start + offset, end := s.end + offset) }

  function MovedAll(segments: seq<Segment>, offset: real): (r: seq<Segment>)
    ensures |r| == |segments| && forall i | 0 <= i < |r| :: r[i] == Moved(segments[i], offset)
  {
    seq(|segments|, i requires 0 <= i < |segments| => Moved(segments[i], offset))
  }

  method OffsetResult(result: Result, offset: real) returns (r: Result)
    ensures r == Result(result.text, MovedAll(result.segments, offset))
    ensures forall i | 0 <= i < |result.segments| ::
      var s := result.segments[i];
      r.segments[i] == Segment(s.start + offset, s.end + offset, s.text)
  {
    var segments := [];
    for i := 0 to |result.segments|
      invariant |segments| == i && forall j | 0 <= j < i :: segments[j] == Moved(result.segments[j], offset)
    {
      var s := result.segments[i];
      segments := segments + [s.(start := s.start + offset, end := s.end + offset)];
    }
    assert segments == MovedAll(result.segments, offset);
    r := Result(result.text, segments);
  }

  // ---------------------------------------------------------------------------
  // The chunk loop.

  // math.ceil
  function Ceil(x: real): (n: int)
    ensures n as real - 1.0 < x <= n as real
  {
    if x == x.Floor as real then x.Floor else x.Floor + 1
  }

  // chunk_index * chunk_seconds
  function At(i: int, size: real): real { i as real * size }

  function ChunkAt(i: nat, duration: real, size: real): Chunk {
    var start := At(i, size);
    Chunk(start, if duration - start < size then duration - start else size)
  }

  function ChunksUpTo(n: nat, duration: real, size: real): (chunks: seq<Chunk>)
    ensures |chunks| == n && forall i | 0 <= i < n :: chunks[i] == ChunkAt(i, duration, size)
  {
    seq(n, i requires 0 <= i < n => ChunkAt(i, duration, size))
  }

  function Total(chunks: seq<Chunk>): real {
    if chunks == [] then 0.0 else Total(chunks[..|chunks| - 1]) + chunks[|chunks| - 1].duration
  }

  function Count(duration: real, size: real): (n: int)
    requires duration > 0.0 && size > 0.0
  {
    Ceil(duration / size)
  }

  lemma AtGrows(i: int, j: int, size: real)
    requires i <= j && size > 0.0
    ensures At(i, size) <= At(j, size)
    ensures At(i + 1, size) == At(i, size) + size && At(0, size) == 0.0
  {
    assert (j - i) as real * size >= 0.0;
    assert At(j, size) == At(i, size) + (j - i) as real * size;
  }

  lemma CountBounds(duration: real, size: real)
    requires duration > 0.0 && size > 0.0
    ensures var n := Count(duration, size); n >= 1 && At(n - 1, size) < duration <= At(n, size)
  {
    var n := Count(duration, size);
    CeilBounds(duration / size, n, duration, size);
  }

  lemma CeilBounds(x: real, n: int, duration: real, size: real)
    requires size > 0.0 && duration > 0.0 && x == duration / size && (n - 1) as real < x <= n as real
    ensures n >= 1 && At(n - 1, size) < duration <= At(n, size)
  {
    assert x * size == duration;
    Scale((n - 1) as real, x, size);
    var m := n as real;
    if x < m {
      Scale(x, m, size);
      assert x * size < m * size;
    } else {
      assert m * size == x * size;
    }
    assert x > 0.0;
  }

  lemma Scale(a: real, b: real, size: real)
    requires a < b && size > 0.0
    ensures a * size < b * size
  {
    assert (b - a) * size > 0.0;
    assert b * size == a * size + (b - a) * size;
  }

  // Each chunk before the count starts inside the audio, so the loop's early exit is unreachable.
  lemma ChunkIsNotEmpty(i: nat, duration: real, size: real)
    requires duration > 0.0 && size > 0.0 && i < Count(duration, size)
    ensures
      var c := ChunkAt(i, duration, size);
      && 0.0 <= c.start < duration
      && 0.0 < c.duration <= size
      && c.start + c.duration == (if i == Count(duration, size) - 1 then duration else At(i + 1, size))
  {
    var n := Count(duration, size);
    CountBounds(duration, size);
    AtGrows(0, i, size);
    AtGrows(i, n - 1, size);
    if i < n - 1 { AtGrows(i + 1, n - 1, size); }
    hide Count, At;
  }

  // Main result: the chunks tile the audio. They are contiguous, each has a positive length of at
  // most `size`, the first starts at zero, the last ends at the end, and the lengths sum to the duration.
  lemma ChunksTile(duration: real, size: real)
    requires duration > 0.0 && size > 0.0
    ensures Count(duration, size) >= 1
    ensures
      var chunks := ChunksUpTo(Count(duration, size), duration, size);
      && chunks[0].start == 0.0
      && (forall i | 0 <= i < |chunks| :: 0.0 < chunks[i].duration <= size)
      && (forall i | 0 <= i < |chunks| - 1 :: chunks[i].start + chunks[i].duration == chunks[i + 1].start)
      && chunks[|chunks| - 1].start + chunks[|chunks| - 1].duration == duration
      && Total(chunks) == duration
  {
    var n := Count(duration, size);
    CountBounds(duration, size);
    TotalUpTo(n - 1, duration, size);
    TotalAtStart(n - 1, duration, size);
    assert EndOf(n, duration, size) == duration;
    forall i: nat | i < n ensures ChunkFacts(i, n, duration, size) { ChunkIsNotEmpty(i, duration, size); }
    hide Count, Total, ChunkAt, EndOf, ChunkFacts;
    var chunks := ChunksUpTo(n, duration, size);
    forall i: nat | i < n ensures Linked(chunks, i, duration, size) { ChunkIsLinked(i, n, duration, size); }
    hide ChunksUpTo;
    LinkedChunksTile(chunks, duration, size);
  }

  predicate Linked(chunks: seq<Chunk>, i: nat, duration: real, size: real)
    requires i < |chunks|
  {
    && (i == 0 ==> chunks[i].start == 0.0)
    && 0.0 < chunks[i].duration <= size
    && (i + 1 < |chunks| ==> chunks[i].start + chunks[i].duration == chunks[i + 1].start)
    && (i + 1 == |chunks| ==> chunks[i].start + chunks[i].duration == duration)
  }

  lemma ChunkIsLinked(i: nat, n: nat, duration: real, size: real)
    requires i < n && ChunkFacts(i, n, duration, size) && (i + 1 < n ==> ChunkFacts(i + 1, n, duration, size))
    ensures Linked(ChunksUpTo(n, duration, size), i, duration, size)
  {
    hide ChunkAt;
  }

  lemma LinkedChunksTile(chunks: seq<Chunk>, duration: real, size: real)
    requires |chunks| >= 1 && forall i: nat | i < |chunks| :: Linked(chunks, i, duration, size)
    ensures chunks[0].start == 0.0
    ensures forall i | 0 <= i < |chunks| :: 0.0 < chunks[i].duration <= size
    ensures forall i | 0 <= i < |chunks| - 1 :: chunks[i].start + chunks[i].duration == chunks[i + 1].start
    ensures chunks[|chunks| - 1].start + chunks[|chunks| - 1].duration == duration
  {
    assert Linked(chunks, 0, duration, size) && Linked(chunks, |chunks| - 1, duration, size);
    forall i | 0 <= i < |chunks| ensures 0.0 < chunks[i].duration <= size { assert Linked(chunks, i, duration, size); }
    forall i | 0 <= i < |chunks| - 1 ensures chunks[i].start + chunks[i].duration == chunks[i + 1].start {
      assert Linked(chunks, i, duration, size);
    }
  }

  predicate ChunkFacts(i: nat, n: nat, duration: real, size: real) {
    var c := ChunkAt(i, duration, size);
    && c.start == At(i, size)
    && (i == 0 ==> c.start == 0.0)
    && 0.0 < c.duration <= size
    && c.start + c.duration == (if i == n - 1 then duration else At(i + 1, size))
  }

  lemma TotalGrows(k: nat, duration: real, size: real)
    ensures Total(ChunksUpTo(k + 1, duration, size)) ==
        Total(ChunksUpTo(k, duration, size)) + ChunkAt(k, duration, size).duration
  {
    hide ChunkAt;
    assert ChunksUpTo(k + 1, duration, size)[..k] == ChunksUpTo(k, duration, size);
  }

  lemma AddUp(before: real, c: Chunk, total: real, end: real)
    requires before == c.start && total == before + c.duration && c.start + c.duration == end
    ensures total == end
  {}

  // Where the first n chunks end.
  function EndOf(n: nat, duration: real, size: real): real
    requires duration > 0.0 && size > 0.0
  {
    if n == Count(duration, size) then duration else At(n, size)
  }

  lemma TotalAtStart(i: nat, duration: real, size: real)
    requires duration > 0.0 && size > 0.0 && i < Count(duration, size)
    requires Total(ChunksUpTo(i, duration, size)) == ChunkAt(i, duration, size).start
    ensures Total(ChunksUpTo(i + 1, duration, size)) == EndOf(i + 1, duration, size)
  {
    ChunkIsNotEmpty(i, duration, size);
    TotalGrows(i, duration, size);
    var c := ChunkAt(i, duration, size);
    assert c.start + c.duration == EndOf(i + 1, duration, size);
    hide Count, ChunkAt, Total, ChunksUpTo, EndOf;
    AddUp(Total(ChunksUpTo(i, duration, size)), c,
          Total(ChunksUpTo(i + 1, duration, size)), EndOf(i + 1, duration, size));
  }

  // The chunks before chunk i fill the audio up to its start.
  lemma {:induction false} TotalUpTo(i: nat, duration: real, size: real)
    requires duration > 0.0 && size > 0.0 && i < Count(duration, size)
    ensures Total(ChunksUpTo(i, duration, size)) == ChunkAt(i, duration, size).start
  {
    if i == 0 {
      assert ChunkAt(0, duration, size).start == 0.0;
    } else {
      TotalUpTo(i - 1, duration, size);
      TotalAtStart(i - 1, duration, size);
      assert EndOf(i, duration, size) == ChunkAt(i, duration, size).start;
    }
  }

  // The text and segments of the first n chunks.
  function SegmentsUpTo(n: nat, duration: real, size: real, transcribe: Chunk -> Result): seq<Segment> {
    if n == 0 then []
    else
      var c := ChunkAt(n - 1, duration, size);
      SegmentsUpTo(n - 1, duration, size, transcribe) + MovedAll(transcribe(c).segments, c.start)
  }

  function TextsUpTo(n: nat, duration: real, size: real, transcribe: Chunk -> Result): seq<string> {
    if n == 0 then []
    else
      var text := transcribe(ChunkAt(n - 1, duration, size)).text;
      TextsUpTo(n - 1, duration, size, transcribe) + if text == "" then [] else [text]
  }

  // What one more chunk adds.
  lemma UpToGrows(i: nat, duration: real, size: real, transcribe: Chunk -> Result)
    ensures ChunksUpTo(i + 1, duration, size) == ChunksUpTo(i, duration, size) + [ChunkAt(i, duration, size)]
    ensures
      var c := ChunkAt(i, duration, size);
      var text := transcribe(c).text;
      && SegmentsUpTo(i + 1, duration, size, transcribe)
         == SegmentsUpTo(i, duration, size, transcribe) + MovedAll(transcribe(c).segments, c.start)
      && TextsUpTo(i + 1, duration, size, transcribe)
         == TextsUpTo(i, duration, size, transcribe) + if text == "" then [] else [text]
  {
    hide ChunkAt, MovedAll;
  }

  method TranscribeInChunks(duration: real, size: real, transcribe: Chunk -> Result)
    returns (r: Result, extracted: seq<Chunk>)
    requires duration > 0.0 && size > 0.0
    ensures extracted == ChunksUpTo(Count(duration, size), duration, size)
    ensures r.segments == SegmentsUpTo(Count(duration, size), duration, size, transcribe)
    ensures r.text == Strip(JoinWords(TextsUpTo(Count(duration, size), duration, size, transcribe)))
  {
    hide Strip, MovedAll, JoinWords;
    CountBounds(duration, size);
    assert ChunksUpTo(0, duration, size) == [] && TextsUpTo(0, duration, size, transcribe) == [];
    assert SegmentsUpTo(0, duration, size, transcribe) == [];
    hide ChunksUpTo, TextsUpTo, SegmentsUpTo;
    var count := Ceil(duration / size);
    var allTexts := [];
    var allSegments := [];
    extracted := [];
    for i := 0 to count
      invariant extracted == ChunksUpTo(i, duration, size)
      invariant allTexts == TextsUpTo(i, duration, size, transcribe)
      invariant allSegments == SegmentsUpTo(i, duration, size, transcribe)
    {
      var start := i as real * size;
      var remaining := if duration - start < 0.0 then 0.0 else duration - start;
      var current := if remaining < size then remaining else size;
      ChunkIsNotEmpty(i, duration, size);
      UpToGrows(i, duration, size, transcribe);
      if current <= 0.0 {
        assert false;
        break;
      }
      var chunk := Chunk(start, current);
      assert chunk == ChunkAt(i, duration, size);
      extracted := extracted + [chunk];
      var offset := OffsetResult(transcribe(chunk), start);
      if offset.text != "" {
        allTexts := allTexts + [offset.text];
      }
      allSegments := allSegments + offset.segments;
    }
    r := Result(Strip(JoinWords(allTexts)), allSegments);
  }

  // ---------------------------------------------------------------------------
  // Order and range of the concatenated segments.

  // Starts ascend, and each segment lies inside [from, to].
  predicate Within(segments: seq<Segment>, from: real, to: real) {
    && (forall i | 0 <= i < |segments| :: from <= segments[i].start <= segments[i].end <= to)
    && (forall i, j | 0 <= i < j < |segments| :: segments[i].start <= segments[j].start)
  }

  predicate WellTimed(transcribe: Chunk -> Result, c: Chunk) { Within(transcribe(c).segments, 0.0, c.duration) }

  lemma MovedWithin(segments: seq<Segment>, duration: real, offset: real)
    requires Within(segments, 0.0, duration)
    ensures Within(MovedAll(segments, offset), offset, offset + duration)
  {}

  lemma AppendWithin(a: seq<Segment>, b: seq<Segment>, from: real, mid: real, to: real)
    requires Within(a, from, mid) && Within(b, mid, to) && from <= mid <= to
    ensures Within(a + b, from, to)
  {}

  function Lengths(n: nat, duration: real, size: real, transcribe: Chunk -> Result): nat {
    if n == 0 then 0
    else Lengths(n - 1, duration, size, transcribe) + |transcribe(ChunkAt(n - 1, duration, size)).segments|
  }

  lemma ChunkSpansEnds(n: nat, duration: real, size: real)
    requires duration > 0.0 && size > 0.0 && 0 < n <= Count(duration, size)
    ensures
      var c := ChunkAt(n - 1, duration, size);
      0.0 <= c.start == EndOf(n - 1, duration, size) && 0.0 <= c.duration &&
          c.start + c.duration == EndOf(n, duration, size)
  {
    ChunkIsNotEmpty(n - 1, duration, size);
  }

  lemma {:induction false} UpToWithin(n: nat, duration: real, size: real, transcribe: Chunk -> Result)
    requires duration > 0.0 && size > 0.0 && n <= Count(duration, size)
    requires forall i: nat | i < n :: WellTimed(transcribe, ChunkAt(i, duration, size))
    ensures Within(SegmentsUpTo(n, duration, size, transcribe), 0.0, EndOf(n, duration, size))
    ensures |SegmentsUpTo(n, duration, size, transcribe)| == Lengths(n, duration, size, transcribe)
  {
    hide EndOf, ChunkAt, WellTimed, Count;
    if n > 0 {
      UpToWithin(n - 1, duration, size, transcribe);
      ChunkSpansEnds(n, duration, size);
      OneMoreChunk(n, duration, size, transcribe);
    }
  }

  lemma OneMoreChunk(n: nat, duration: real, size: real, transcribe: Chunk -> Result)
    requires n > 0
    requires var c := ChunkAt(n - 1, duration, size); WellTimed(transcribe, c) && 0.0 <= c.start && 0.0 <= c.duration
    requires Within(SegmentsUpTo(n - 1, duration, size, transcribe), 0.0, ChunkAt(n - 1, duration, size).start)
    ensures
      var c := ChunkAt(n - 1, duration, size);
      Within(SegmentsUpTo(n, duration, size, transcribe), 0.0, c.start + c.duration)
  {
    hide Within, ChunkAt;
    var c := ChunkAt(n - 1, duration, size);
    MovedWithin(transcribe(c).segments, c.duration, c.start);
    AppendWithin(SegmentsUpTo(n - 1, duration, size, transcribe), MovedAll(transcribe(c).segments, c.start),
                 0.0, c.start, c.start + c.duration);
  }

  // Main result: if the model returns, for each chunk, ordered segments inside the chunk, then the
  // whole transcript is ordered, inside [0, duration], and no segment is lost.
  lemma TranscriptIsOrdered(duration: real, size: real, transcribe: Chunk -> Result)
    requires duration > 0.0 && size > 0.0
    requires forall i: nat | i < Count(duration, size) :: WellTimed(transcribe, ChunkAt(i, duration, size))
    ensures Count(duration, size) >= 1
    ensures
      var segments := SegmentsUpTo(Count(duration, size), duration, size, transcribe);
      Within(segments, 0.0, duration) && |segments| == Lengths(Count(duration, size), duration, size, transcribe)
  {
    CountBounds(duration, size);
    UpToWithin(Count(duration, size), duration, size, transcribe);
  }

  lemma {:induction false} SegmentsAreCounted(n: nat, duration: real, size: real, transcribe: Chunk -> Result)
    ensures |SegmentsUpTo(n, duration, size, transcribe)| == Lengths(n, duration, size, transcribe)
  {
    hide ChunkAt;
    if n > 0 { SegmentsAreCounted(n - 1, duration, size, transcribe); }
  }

  // Every segment of every chunk is in the transcript, after those of the chunks before it, with its text, and as much
  // later as its chunk starts.
  lemma {:induction false} EverySegmentIsThere(
    n: nat, duration: real, size: real, transcribe: Chunk -> Result, i: nat, j: nat)
    requires i < n && j < |transcribe(ChunkAt(i, duration, size)).segments|
    ensures
      var raw := transcribe(ChunkAt(i, duration, size)).segments[j];
      var segments, k := SegmentsUpTo(n, duration, size, transcribe), Lengths(i, duration, size, transcribe) + j;
      && k < |segments|
      && segments[k] == Segment(raw.start + i as real * size, raw.end + i as real * size, raw.text)
  {
    SegmentsAreCounted(n - 1, duration, size, transcribe);
    if i < n - 1 { EverySegmentIsThere(n - 1, duration, size, transcribe, i, j); }
  }

  function TextOfChunks(n: nat, duration: real, size: real, transcribe: Chunk -> Result): (r: seq<string>)
    ensures |r| == n && forall i | 0 <= i < n :: r[i] == transcribe(ChunkAt(i, duration, size)).text
  {
    seq(n, i requires 0 <= i < n => transcribe(ChunkAt(i, duration, size)).text)
  }

  lemma {:induction false} TextsUpToAreNonEmpty(n: nat, duration: real, size: real, transcribe: Chunk -> Result)
    ensures TextsUpTo(n, duration, size, transcribe) == NonEmpty(TextOfChunks(n, duration, size, transcribe))
  {
    hide ChunkAt;
    if n > 0 {
      TextsUpToAreNonEmpty(n - 1, duration, size, transcribe);
      var front := TextOfChunks(n - 1, duration, size, transcribe);
      var text := transcribe(ChunkAt(n - 1, duration, size)).text;
      NonEmptyAppend(front, text);
      assert TextOfChunks(n, duration, size, transcribe) == front + [text];
    }
  }

  // And the whole text carries the text of every chunk that has one, in order, when those are trimmed.
  lemma {:induction false} TranscriptTextTells(
    n: nat, duration: real, size: real, transcribe: Chunk -> Result, i: nat)
    requires i < n && transcribe(ChunkAt(i, duration, size)).text != ""
    requires forall j: nat | j < n :: Trimmed(transcribe(ChunkAt(j, duration, size)).text)
    ensures
      var whole := Strip(JoinWords(TextsUpTo(n, duration, size, transcribe)));
      var text := transcribe(ChunkAt(i, duration, size)).text;
      var at := Position(TextOfChunks(n, duration, size, transcribe), i);
      at + |text| <= |whole| && whole[at..at + |text|] == text && (at > 0 ==> whole[at - 1] == ' ')
  {
    hide Strip, JoinWords, NonEmpty, Position, Trimmed, ChunkAt;
    var texts := TextOfChunks(n, duration, size, transcribe);
    TextsUpToAreNonEmpty(n, duration, size, transcribe);
    JoinedIsTrimmed(texts);
    JoinedCarries(texts, i);
  }
}

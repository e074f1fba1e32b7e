/** Byte-range answers of the streaming endpoint: the parsing of the Range header with its clamps, and
    the chunked reader. The reference is section 14.1.2 of RFC 9110. */
module MediaRange {
  import opened Text

  const ChunkSize: nat := 65536

  // sys.int_info: longer numerals raise ValueError too.
  const MaxDigits: nat := 4300

  // ---------------------------------------------------------------------------
  // int(text): white space around, one sign, digits with single underscores between them.

  predicate IsNumeral(s: string) {
    && s != "" && IsDigit(s[0]) && IsDigit(s[|s| - 1])
    && (forall i | 0 <= i < |s| :: IsDigit(s[i]) || s[i] == '_')
    && (forall i | 0 <= i < |s| - 1 :: !(s[i] == '_' && s[i + 1] == '_'))
  }

  function DropUnderscores(s: string): (r: string)
    requires forall i | 0 <= i < |s| :: IsDigit(s[i]) || s[i] == '_'
    ensures AllDigits(r)
    ensures AllDigits(s) ==> r == s
  {
    if s == "" then "" else (if s[0] == '_' then "" else [s[0]]) + DropUnderscores(s[1..])
  }

  // None stands for ValueError.
  function PythonInt(text: string): Option<int> {
    var t := Strip(text);
    var signed := t != "" && (t[0] == '+' || t[0] == '-');
    var digits := if signed then t[1..] else t;
    if !IsNumeral(digits) || |DropUnderscores(digits)| > MaxDigits then None
    else
      var v: int := DecValue(DropUnderscores(digits));
      Some(if signed && t[0] == '-' then -v else v)
  }

  lemma IntOfDigits(s: string)
    requires s != "" && AllDigits(s)
    ensures PythonInt(s) == if |s| <= MaxDigits then Some(DecValue(s) as int) else None
  {
    assert Trimmed(s);
  }

  lemma {:induction false} DroppedUnderscore(a: string, b: string)
    requires AllDigits(a) && AllDigits(b)
    ensures DropUnderscores(a + "_" + b) == a + b
  {
    var s := a + "_" + b;
    if a == "" {
      assert s[1..] == b;
    } else {
      DroppedUnderscore(a[1..], b);
      assert s[1..] == a[1..] + "_" + b;
      assert a + b == [a[0]] + (a[1..] + b);
    }
  }

  // Single underscores between digits are read over, and a minus in front counts.
  lemma {:induction false} UnderscoresAndSigns(a: string, b: string)
    requires a != "" && b != "" && AllDigits(a) && AllDigits(b) && |a + b| <= 4300
    ensures PythonInt(a + "_" + b) == Some(DecValue(a + b) as int)
    ensures PythonInt("-" + (a + "_" + b)) == Some(-(DecValue(a + b) as int))
  {
    hide *;
    var s := a + "_" + b;
    DroppedUnderscore(a, b);
    UnderscoredIsNumeral(a, b);
    NumeralIsRead(s);
    NegativeIsRead(s, "-" + s);
  }

  lemma UnderscoredIsNumeral(a: string, b: string)
    requires a != "" && b != "" && AllDigits(a) && AllDigits(b)
    ensures IsNumeral(a + "_" + b)
  {
    var s := a + "_" + b;
    assert forall i | 0 <= i < |a| :: s[i] == a[i];
    assert forall i | |a| < i < |s| :: s[i] == b[i - |a| - 1];
    assert s[|a|] == '_';
  }

  lemma NumeralIsRead(s: string)
    requires IsNumeral(s) && |DropUnderscores(s)| <= 4300
    ensures PythonInt(s) == Some(DecValue(DropUnderscores(s)) as int)
  {
    assert Trimmed(s) && Strip(s) == s && s[0] != '+' && s[0] != '-';
    hide DropUnderscores, DecValue, Strip, IsNumeral, IsDigit, Trimmed;
  }

  lemma NegativeIsRead(s: string, t: string)
    requires t == "-" + s && IsNumeral(s) && |DropUnderscores(s)| <= 4300
    ensures PythonInt(t) == Some(-(DecValue(DropUnderscores(s)) as int))
  {
    assert Trimmed(t) && t[1..] == s && t[0] == '-';
    assert Strip(t) == t;
    hide DropUnderscores, DecValue, Strip, IsNumeral, IsDigit, Trimmed;
  }

  // ---------------------------------------------------------------------------
  // media_response

  // str.partition("-"), without the separator.
  function PartitionAtDash(s: string): (string, string) {
    if s == "" then ("", "")
    else if s[0] == '-' then ("", s[1..])
    else
      var (head, tail) := PartitionAtDash(s[1..]);
      ([s[0]] + head, tail)
  }

  lemma {:induction false} PartitionOfDigits(a: string, b: string)
    requires AllDigits(a)
    ensures PartitionAtDash(a + "-" + b) == (a, b)
  {
    var s := a + "-" + b;
    if a == "" {
      assert s[1..] == b;
    } else {
      PartitionOfDigits(a[1..], b);
      assert s[1..] == a[1..] + "-" + b;
      assert [a[0]] + a[1..] == a;
    }
  }

  function Min(a: int, b: int): int { if a < b then a else b }

  function Max(a: int, b: int): int { if a < b then b else a }

  // What the header asks for before clamping: a start and an optional end.
  function Requested(spec: string, size: nat): (int, Option<int>) {
    var (startText, endText) := PartitionAtDash(spec);
    var end := PythonInt(endText);
    if startText != "" then
      match PythonInt(startText)
      case None => (0, None)
      case Some(start) => if endText == "" then (start, None) else if end.None? then (0, None) else (start, end)
    else if endText == "" then (Max(size - size, 0), Some(size - 1))
    else if end.None? then (0, None)
    else (Max(size - end.value, 0), Some(size - 1))
  }

  datatype Interval = Interval(start: int, end: int, length: int)

  function AnsweredInterval(spec: string, size: nat): (r: Interval)
    ensures size >= 1 ==> 0 <= r.start <= r.end < size && r.length >= 1
  {
    var (asked, requestedEnd) := Requested(spec, size);
    var start := Max(0, Min(asked, size - 1));
    var end := match requestedEnd
      case None => size - 1
      case Some(e) => Max(start, Min(e, size - 1));
    Interval(start, end, end - start + 1)
  }

  // `spec` is the header after `bytes=`.
  method RangeOf(spec: string, size: nat) returns (r: Interval)
    ensures r == AnsweredInterval(spec, size)
    ensures size >= 1 ==> 0 <= r.start <= r.end < size && r.length >= 1
  {
    hide PythonInt;
    var (startText, endText) := PartitionAtDash(spec);
    var start: int, requestedEnd: Option<int> := 0, None;
    if startText != "" {
      var s := PythonInt(startText);
      var e := if endText == "" then None else PythonInt(endText);
      if s.Some? && (endText == "" || e.Some?) {
        start, requestedEnd := s.value, e;
      }
    } else {
      var suffix := if endText == "" then Some(size) else PythonInt(endText);
      if suffix.Some? {
        start := Max(size - suffix.value, 0);
        requestedEnd := Some(size - 1);
      }
    }
    start := Max(0, Min(start, size - 1));
    var end := match requestedEnd
      case None => size - 1
      case Some(e) => Max(start, Min(e, size - 1));
    r := Interval(start, end, end - start + 1);
  }

  // ---------------------------------------------------------------------------
  // file_range_iterator

  function Flatten(chunks: seq<seq<byte>>): seq<byte> {
    if chunks == [] then [] else Flatten(chunks[..|chunks| - 1]) + chunks[|chunks| - 1]
  }

  // handle.read(n) at `pos`: up to n bytes, none at the end of the file.
  function Read(file: seq<byte>, pos: nat, n: nat): seq<byte> {
    if pos >= |file| then [] else if pos + n <= |file| then file[pos..pos + n] else file[pos..]
  }

  lemma ReadMore(file: seq<byte>, start: nat, n: nat, k: nat)
    ensures Read(file, start, n) + Read(file, start + n, k) == Read(file, start, n + k)
  {
    if start + n < |file| {
      assert Read(file, start, n) == file[start..start + n];
    } else if start < |file| {
      assert Read(file, start, n) == file[start..];
    }
  }

  lemma ReadFacts(file: seq<byte>, pos: nat, n: nat, more: nat)
    ensures
      var chunk := Read(file, pos, n);
      && |chunk| <= n
      && Read(file, pos, |chunk|) == chunk
      && (n > 0 && chunk == [] ==> Read(file, pos, more) == [])
  {}

  lemma FlattenSnoc(chunks: seq<seq<byte>>, chunk: seq<byte>)
    ensures Flatten(chunks + [chunk]) == Flatten(chunks) + chunk
  {
    assert (chunks + [chunk])[..|chunks|] == chunks;
  }

  // Non-empty chunks of at most 64 KiB that concatenate to the requested stretch, as far as the file goes.
  method FileRangeIterator(file: seq<byte>, start: nat, length: int) returns (chunks: seq<seq<byte>>)
    ensures forall i | 0 <= i < |chunks| :: 0 < |chunks[i]| <= 65536
    ensures Flatten(chunks) == Read(file, start, if length < 0 then 0 else length)
  {
    hide Read, Flatten;
    chunks := [];
    var remaining := length;
    ghost var total := if length < 0 then 0 else length;
    ghost var done := 0;
    NothingRead(file, start);
    while remaining > 0
      invariant remaining == length - done && 0 <= done <= total
      invariant forall i | 0 <= i < |chunks| :: 0 < |chunks[i]| <= ChunkSize
      invariant Flatten(chunks) == Read(file, start, done)
      decreases remaining
    {
      var wanted := if ChunkSize < remaining then ChunkSize else remaining;
      var chunk := Read(file, start + (length - remaining), wanted);
      ReadFacts(file, start + done, wanted, remaining);
      if chunk == [] {
        ReadMore(file, start, done, remaining);
        break;
      }
      ReadMore(file, start, done, |chunk|);
      FlattenSnoc(chunks, chunk);
      remaining := remaining - |chunk|;
      done := done + |chunk|;
      chunks := chunks + [chunk];
    }
  }

  lemma NothingRead(file: seq<byte>, start: nat)
    ensures Read(file, start, 0) == [] && Flatten([]) == []
  {}

  // A range answer on a non-empty file sends exactly the bytes it announces.
  method RangeResponse(file: seq<byte>, spec: string) returns (r: Interval, chunks: seq<seq<byte>>)
    requires file != []
    ensures r == AnsweredInterval(spec, |file|)
    ensures 0 <= r.start <= r.end < |file| && r.length == r.end - r.start + 1
    ensures forall i | 0 <= i < |chunks| :: 0 < |chunks[i]| <= 65536
    ensures Flatten(chunks) == file[r.start..r.end + 1] && |Flatten(chunks)| == r.length
  {
    hide Requested;
    r := RangeOf(spec, |file|);
    chunks := FileRangeIterator(file, r.start, r.length);
  }

  // The announced length is what can be sent, except for an empty file and a header with an end
  // (or a suffix): then one byte is announced and none exists.
  lemma AnnouncedLengthIsSentIff(file: seq<byte>, spec: string)
    ensures
      var r := AnsweredInterval(spec, |file|);
      && r.start >= 0 && r.length >= 0
      && (|Read(file, r.start, r.length)| == r.length <==> file != [] || Requested(spec, 0).1 == None)
  {
    hide Requested;
  }

  // ---------------------------------------------------------------------------
  // RFC 9110, section 14.1.2: one int-range or one suffix-range.

  datatype RangeSpec = IntRange(first: string, last: string) | SuffixRange(length: string)

  // 1*DIGIT, with an optional last position.
  predicate WellFormed(r: RangeSpec) {
    match r
    case IntRange(first, last) => first != "" && AllDigits(first) && AllDigits(last)
    case SuffixRange(length) => length != "" && AllDigits(length)
  }

  // No numeral longer than `int` accepts.
  predicate Short(r: RangeSpec) {
    match r
    case IntRange(first, last) => |first| <= 4300 && |last| <= 4300
    case SuffixRange(length) => |length| <= 4300
  }

  function Rendered(r: RangeSpec): string {
    match r
    case IntRange(first, last) => first + "-" + last
    case SuffixRange(length) => "" + "-" + length
  }

  // The selected positions, when the range is valid and satisfiable for a representation of this length.
  function Selected(r: RangeSpec, size: nat): Option<(int, int)>
    requires WellFormed(r)
  {
    match r
    case IntRange(first, last) =>
      var f := DecValue(first);
      if f >= size || (last != "" && DecValue(last) < f) then None
      else Some((f, if last == "" then size - 1 else Min(DecValue(last), size - 1)))
    case SuffixRange(length) =>
      var n := DecValue(length);
      if n == 0 || size == 0 then None else Some((if n < size then size - n else 0, size - 1))
  }

  lemma RequestOfWellFormed(r: RangeSpec, size: nat)
    requires WellFormed(r)
    ensures Requested(Rendered(r), size) ==
      if !Short(r) then (0, None)
      else match r
        case IntRange(first, last) => (DecValue(first), if last == "" then None else Some(DecValue(last) as int))
        case SuffixRange(length) => (Max(size - DecValue(length), 0), Some(size - 1))
  {
    hide PythonInt, PartitionAtDash, DecValue;
    match r
    case IntRange(first, last) =>
      PartitionOfDigits(first, last);
      IntOfDigits(first);
      if last != "" { IntOfDigits(last); }
    case SuffixRange(length) =>
      PartitionOfDigits("", length);
      IntOfDigits(length);
  }

  // Main result: every well-formed satisfiable range gets the interval of the standard; every other
  // well-formed range is answered with a single byte instead of being refused. A range with a numeral that is
  // too long is answered with the whole file.
  lemma AgreesWithStandard(r: RangeSpec, size: nat)
    requires WellFormed(r) && size >= 1
    ensures
      var answer := AnsweredInterval(Rendered(r), size);
      if !Short(r) then answer.start == 0 && answer.end == size - 1
      else match Selected(r, size)
        case Some((first, last)) => answer.start == first && answer.end == last
        case None => answer.start == answer.end && answer.length == 1
  {
    hide Requested, Rendered, DecValue;
    RequestOfWellFormed(r, size);
  }

  lemma {:induction false} PartitionKeeps(s: string)
    ensures
      var (a, b) := PartitionAtDash(s);
      s == a + "-" + b || (s == a && b == "")
  {
    if s != "" && s[0] != '-' {
      PartitionKeeps(s[1..]);
      assert s == [s[0]] + s[1..];
    } else if s != "" {
      assert s == "" + "-" + s[1..];
    }
  }

  // No part of an integer.
  predicate Strange(c: char) { !IsDigit(c) && !IsSpace(c) && c != '+' && c != '-' && c != '_' }

  lemma NoInteger(text: string, c: char)
    requires Strange(c) && c in text
    ensures PythonInt(text) == None
  {
    var left, right := StripSplits(text);
    var t := Strip(text);
    hide Strip;
    assert c in left + t + right && c !in left && c !in right;
    assert t == [t[0]] + t[1..];
  }

  // A header with anything in it that no integer has, a letter say, is answered with the whole file.
  lemma MalformedGetsWholeFile(spec: string, size: nat, c: char)
    requires size >= 1 && Strange(c) && c in spec
    ensures AnsweredInterval(spec, size) == Interval(0, size - 1, size)
  {
    var (a, b) := PartitionAtDash(spec);
    PartitionKeeps(spec);
    assert c in a || c in b;
    if c in a { NoInteger(a, c); } else { NoInteger(b, c); }
    hide PythonInt, PartitionAtDash;
  }

  // One byte is announced of an empty file.
  lemma EmptyFileAnnouncesAByte()
    ensures AnsweredInterval("0-0", 0).length == 1
    ensures Read([], AnsweredInterval("0-0", 0).start, 1) == []
  {
    RequestOfWellFormed(IntRange("0", "0"), 0);
    assert Rendered(IntRange("0", "0")) == "0-0";
    hide Requested, DecValue;
  }

  // An unsatisfiable range gets the only byte there is.
  lemma UnsatisfiableRangeIsAnswered()
    ensures Selected(IntRange("9", ""), 1) == None
    ensures AnsweredInterval("9-", 1) == Interval(0, 0, 1)
  {
    assert DecValue("9") == 9 by { assert "9"[..0] == ""; }
    RequestOfWellFormed(IntRange("9", ""), 1);
    assert Rendered(IntRange("9", "")) == "9-";
    hide Requested;
  }
}

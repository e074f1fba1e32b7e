/** The SDK's multipart upload: the streamed body, its predicted length, and the framing of
    section 5.1.1 of RFC 2046. */
module Multipart {
  import opened Text

  type bytes = seq<byte>

  // str.encode()
  function Utf8Char(c: char): bytes {
    var n := c as int;
    if n < 0x80 then [n as byte]
    else if n < 0x800 then [(0xC0 + n / 0x40) as byte, (0x80 + n % 0x40) as byte]
    else if n < 0x10000 then [(0xE0 + n / 0x1000) as byte, (0x80 + n / 0x40 % 0x40) as byte, (0x80 + n % 0x40) as byte]
    else [(0xF0 + n / 0x40000) as byte, (0x80 + n / 0x1000 % 0x40) as byte,
          (0x80 + n / 0x40 % 0x40) as byte, (0x80 + n % 0x40) as byte]
  }

  function Encode(s: string): bytes { if s == "" then [] else Utf8Char(s[0]) + Encode(s[1..]) }

  // A form value: an upload has `chunks()`; its `size` may be missing or not an int.
  datatype Value =
    | Plain(text: string)
    | Upload(name: Option<string>, contentType: Option<string>, size: Option<int>, chunks: seq<bytes>)

  datatype Raw = One(value: Value) | Many(values: seq<Value>)

  type Field = (string, Value)

  function FieldsOf(data: seq<(string, Raw)>): seq<Field> {
    if data == [] then []
    else FieldsOf(data[..|data| - 1]) + Expanded(data[|data| - 1].0, data[|data| - 1].1)
  }

  function Expanded(key: string, raw: Raw): seq<Field> {
    match raw
    case One(v) => [(key, v)]
    case Many(vs) => seq(|vs|, i requires 0 <= i < |vs| => (key, vs[i]))
  }

  method IterFields(data: seq<(string, Raw)>) returns (fields: seq<Field>)
    ensures fields == FieldsOf(data)
  {
    fields := [];
    for i := 0 to |data|
      invariant fields == FieldsOf(data[..i])
    {
      assert data[..i + 1][..i] == data[..i];
      match data[i].1 {
        case Many(vs) =>
          ghost var before := fields;
          for j := 0 to |vs|
            invariant fields == before + Expanded(data[i].0, Many(vs))[..j]
          {
            fields := fields + [(data[i].0, vs[j])];
          }
        case One(v) =>
          fields := fields + [(data[i].0, v)];
      }
    }
    assert data[..|data|] == data;
  }

  function FieldCount(raw: Raw): nat { if raw.One? then 1 else |raw.values| }

  function CountBefore(data: seq<(string, Raw)>, i: nat): nat
    requires i <= |data|
  {
    if i == 0 then 0 else CountBefore(data, i - 1) + FieldCount(data[i - 1].1)
  }

  lemma {:induction false} CountBeforePrefix(data: seq<(string, Raw)>, n: nat, i: nat)
    requires i <= n <= |data|
    ensures CountBefore(data[..n], i) == CountBefore(data, i)
  {
    if i > 0 { CountBeforePrefix(data, n, i - 1); }
  }

  lemma {:induction false} FieldsAreCounted(data: seq<(string, Raw)>)
    ensures |FieldsOf(data)| == CountBefore(data, |data|)
  {
    if data != [] {
      FieldsAreCounted(data[..|data| - 1]);
      CountBeforePrefix(data, |data| - 1, |data| - 1);
    }
  }

  // The j-th value of the i-th entry comes behind all earlier ones, under the entry's own key.
  lemma {:induction false} FieldsAreInOrder(data: seq<(string, Raw)>, i: nat, j: nat)
    requires i < |data| && (if data[i].1.One? then j == 0 else j < |data[i].1.values|)
    ensures
      var k := CountBefore(data, i) + j;
      && k < |FieldsOf(data)|
      && FieldsOf(data)[k] == (data[i].0, if data[i].1.One? then data[i].1.value else data[i].1.values[j])
    decreases |data|
  {
    var front := data[..|data| - 1];
    FieldsAreCounted(front);
    CountBeforePrefix(data, |data| - 1, |data| - 1);
    if i < |data| - 1 {
      FieldsAreInOrder(front, i, j);
      CountBeforePrefix(data, |data| - 1, i);
    }
  }

  // ---------------------------------------------------------------------------
  // The pieces of one field.

  function FileName(v: Value): string
    requires v.Upload?
  {
    match v.name case Some(n) => n case None => "upload"
  }

  function ContentType(v: Value): string
    requires v.Upload?
  {
    if v.contentType.Some? && v.contentType.value != "" then v.contentType.value else "application/octet-stream"
  }

  function Header(key: string, v: Value): string {
    if v.Upload? then
      "Content-Disposition: form-data; name=\"" + key + "\"; filename=\"" + FileName(v) + "\"\r\nContent-Type: "
      + ContentType(v) + "\r\n\r\n"
    else "Content-Disposition: form-data; name=\"" + key + "\"\r\n\r\n"
  }

  function Concat(parts: seq<bytes>): bytes {
    if parts == [] then [] else Concat(parts[..|parts| - 1]) + parts[|parts| - 1]
  }

  lemma {:induction false} ConcatAppend(a: seq<bytes>, b: seq<bytes>)
    ensures Concat(a + b) == Concat(a) + Concat(b)
  {
    if b == [] {
      assert a + b == a;
    } else {
      ConcatAppend(a, b[..|b| - 1]);
      assert (a + b)[..|a + b| - 1] == a + b[..|b| - 1];
    }
  }

  // What a field carries on the wire between its header and the next line break.
  function Content(v: Value): bytes {
    if v.Upload? then Concat(v.chunks) else Encode(v.text)
  }

  function Opening(boundary: string): bytes { Encode("--" + boundary + "\r\n") }

  function Closing(boundary: string): bytes { Encode("--" + boundary + "--\r\n") }

  function PartBytes(f: Field, boundary: string): bytes {
    Opening(boundary) + Encode(Header(f.0, f.1)) + Content(f.1) + Encode("\r\n")
  }

  function PartsBytes(fields: seq<Field>, boundary: string): bytes {
    if fields == [] then []
    else PartsBytes(fields[..|fields| - 1], boundary) + PartBytes(fields[|fields| - 1], boundary)
  }

  function BodyBytes(fields: seq<Field>, boundary: string): bytes { PartsBytes(fields, boundary) + Closing(boundary) }

  // The pieces yielded for one field.
  function Pieces(f: Field, boundary: string): seq<bytes> {
    [Opening(boundary), Encode(Header(f.0, f.1))]
    + (if f.1.Upload? then f.1.chunks else [Encode(f.1.text)])
    + [Encode("\r\n")]
  }

  lemma PiecesConcat(f: Field, boundary: string)
    ensures Concat(Pieces(f, boundary)) == PartBytes(f, boundary)
  {
    hide Encode, Header;
    var head := [Opening(boundary), Encode(Header(f.0, f.1))];
    var middle := if f.1.Upload? then f.1.chunks else [Encode(f.1.text)];
    if f.1.Plain? { ConcatOne(Encode(f.1.text)); }
    ConcatTwo(head[0], head[1]);
    ConcatOne(Encode("\r\n"));
    ConcatAppend(head, middle);
    ConcatAppend(head + middle, [Encode("\r\n")]);
  }

  // The streamed pieces concatenate to the body.
  method MultipartBody(data: seq<(string, Raw)>, boundary: string) returns (pieces: seq<bytes>)
    ensures Concat(pieces) == BodyBytes(FieldsOf(data), boundary)
  {
    hide Encode, Header, PartBytes, Concat, FieldsOf;
    assert Concat([]) == [] by { NoPieces(); }
    pieces := [];
    var fields := IterFields(data);
    for i := 0 to |fields|
      invariant Concat(pieces) == PartsBytes(fields[..i], boundary)
    {
      var (key, value) := fields[i];
      assert fields[..i + 1][..i] == fields[..i];
      PiecesConcat(fields[i], boundary);
      ConcatAppend(pieces, Pieces(fields[i], boundary));
      ghost var before := pieces;
      pieces := pieces + [Encode("--" + boundary + "\r\n"), Encode(Header(key, value))];
      if value.Upload? {
        pieces := pieces + value.chunks + [Encode("\r\n")];
      } else {
        pieces := pieces + [Encode(value.text)] + [Encode("\r\n")];
      }
      assert pieces == before + Pieces(fields[i], boundary);
    }
    assert fields[..|fields|] == fields;
    ConcatAppend(pieces, [Closing(boundary)]);
    ConcatOne(Closing(boundary));
    pieces := pieces + [Encode("--" + boundary + "--\r\n")];
  }

  lemma NoPieces()
    ensures Concat([]) == []
  {}

  lemma ConcatOne(a: bytes)
    ensures Concat([a]) == a
  {
    assert [a][..0] == [];
  }

  lemma ConcatTwo(a: bytes, b: bytes)
    ensures Concat([a, b]) == a + b
  {
    assert [a, b][..1] == [a];
    ConcatOne(a);
  }

  // ---------------------------------------------------------------------------
  // The predicted length.

  predicate Sized(v: Value) { v.Plain? || (v.size.Some? && v.size.value >= 0) }

  // How much an upload's declared size exceeds what it sends.
  function Excess(fields: seq<Field>): int {
    if fields == [] then 0
    else
      var v := fields[|fields| - 1].1;
      Excess(fields[..|fields| - 1]) + if v.Upload? && Sized(v) then v.size.value - |Concat(v.chunks)| else 0
  }

  // What field i adds to the body and to the excess.
  lemma FieldAdds(fields: seq<Field>, i: nat, boundary: string)
    requires i < |fields| && Sized(fields[i].1)
    ensures |PartsBytes(fields[..i + 1], boundary)| ==
        |PartsBytes(fields[..i], boundary)| + |PartBytes(fields[i], boundary)|
    ensures Excess(fields[..i + 1]) == Excess(fields[..i]) +
              if fields[i].1.Upload? then fields[i].1.size.value - |Concat(fields[i].1.chunks)| else 0
  {
    hide PartBytes;
    assert fields[..i + 1][..i] == fields[..i];
  }

  // None exactly when some upload has no valid size; otherwise the length of the body plus the excess
  // of the declared sizes, so the length is right exactly when the excess is zero.
  method MultipartContentLength(data: seq<(string, Raw)>, boundary: string) returns (length: Option<int>)
    ensures length == None <==> exists f :: f in FieldsOf(data) && !Sized(f.1)
    ensures length.Some? ==> length.value == |BodyBytes(FieldsOf(data), boundary)| + Excess(FieldsOf(data))
  {
    hide Encode, Header, Concat, FieldsOf;
    var total: int := 0;
    var fields := IterFields(data);
    for i := 0 to |fields|
      invariant total == |PartsBytes(fields[..i], boundary)| + Excess(fields[..i])
      invariant forall j | 0 <= j < i :: Sized(fields[j].1)
    {
      var (key, value) := fields[i];
      if Sized(value) { FieldAdds(fields, i, boundary); }
      total := total + |Encode("--" + boundary + "\r\n")|;
      if value.Upload? {
        if value.size.None? || value.size.value < 0 {
          assert fields[i] in fields;
          return None;
        }
        total := total + |Encode(Header(key, value))|;
        total := total + value.size.value + |Encode("\r\n")|;
      } else {
        total := total + |Encode(Header(key, value))|;
        total := total + |Encode(value.text)| + |Encode("\r\n")|;
      }
    }
    assert fields[..|fields|] == fields;
    length := Some(total + |Encode("--" + boundary + "--\r\n")|);
  }

  // Uploads whose size is the sum of their chunks have no excess.
  lemma {:induction false} HonestSizesHaveNoExcess(fields: seq<Field>)
    requires forall f | f in fields && f.1.Upload? :: f.1.size == Some(|Concat(f.1.chunks)| as int)
    ensures Excess(fields) == 0
  {
    if fields != [] {
      assert fields[|fields| - 1] in fields;
      HonestSizesHaveNoExcess(fields[..|fields| - 1]);
    }
  }

  // ---------------------------------------------------------------------------
  // Framing: cutting the body at its delimiters gives the parts back.

  predicate StartsWith(s: bytes, d: bytes) { |d| <= |s| && s[..|d|] == d }

  // Cut at every occurrence of `d`, from the left.
  function SplitOn(s: bytes, d: bytes): (parts: seq<bytes>)
    requires d != []
    ensures parts != []
    decreases |s|
  {
    if s == [] then [[]]
    else if StartsWith(s, d) then [[]] + SplitOn(s[|d|..], d)
    else
      var rest := SplitOn(s[1..], d);
      [[s[0]] + rest[0]] + rest[1..]
  }

  predicate Occurs(d: bytes, s: bytes) { exists i: nat | i <= |s| :: StartsWith(s[i..], d) }

  // The delimiter's first byte, a carriage return, appears nowhere else in it.
  predicate Delimiter(d: bytes) { d != [] && forall i | 0 < i < |d| :: d[i] != d[0] }

  // Before the first delimiter no occurrence can reach into it.
  lemma StartsAheadOccurs(a: bytes, d: bytes, b: bytes)
    requires Delimiter(d) && a != [] && StartsWith(a + d + b, d)
    ensures Occurs(d, a)
  {
    var s := a + d + b;
    assert s[|a|] == d[0];
    assert forall k | 0 <= k < |d| :: s[k] == s[..|d|][k];
    assert |d| <= |a|;
    assert a[0..] == a && s[..|d|] == a[..|d|];
  }

  lemma OccursInTail(d: bytes, a: bytes)
    requires a != []
    ensures Occurs(d, a[1..]) ==> Occurs(d, a)
    ensures StartsWith(a, d) ==> Occurs(d, a)
  {
    assert a[0..] == a;
    if Occurs(d, a[1..]) {
      var i: nat :| i <= |a[1..]| && StartsWith(a[1..][i..], d);
      assert a[i + 1..] == a[1..][i..];
    }
  }

  lemma {:induction false} SplitAtFirst(a: bytes, d: bytes, b: bytes)
    requires Delimiter(d) && !Occurs(d, a)
    ensures SplitOn(a + d + b, d) == [a] + SplitOn(b, d)
    decreases |a|
  {
    var s := a + d + b;
    if a == [] {
      assert s == d + b && s[|d|..] == b;
    } else {
      if StartsWith(s, d) { StartsAheadOccurs(a, d, b); }
      OccursInTail(d, a);
      SplitAtFirst(a[1..], d, b);
      assert s[1..] == a[1..] + d + b;
      assert [a[0]] + a[1..] == a;
    }
  }

  lemma {:induction false} SplitOfUncut(a: bytes, d: bytes)
    requires Delimiter(d) && !Occurs(d, a)
    ensures SplitOn(a, d) == [a]
    decreases |a|
  {
    if a != [] {
      OccursInTail(d, a);
      SplitOfUncut(a[1..], d);
      assert [a[0]] + a[1..] == a;
    }
  }

  // Every part and the tail behind a delimiter of its own.
  function Interleave(parts: seq<bytes>, d: bytes, tail: bytes): bytes {
    if parts == [] then d + tail else d + (parts[0] + Interleave(parts[1..], d, tail))
  }

  lemma {:induction false} InterleaveSplits(parts: seq<bytes>, d: bytes, tail: bytes)
    requires Delimiter(d) && !Occurs(d, tail) && forall p | p in parts :: !Occurs(d, p)
    ensures SplitOn(Interleave(parts, d, tail), d) == [[]] + parts + [tail]
  {
    assert d != [];
    hide SplitOn, Occurs, Delimiter;
    if parts == [] {
      SplitLeading(d, tail);
      SplitOfUncut(tail, d);
    } else {
      var p, after := parts[0], InterleaveTail(parts[1..], d, tail);
      InterleaveSplits(parts[1..], d, tail);
      SplitLeading(d, after);
      assert ([[]] + SplitOn(after, d))[1..] == SplitOn(after, d);
      assert ([[]] + parts[1..] + [tail])[1..] == parts[1..] + [tail];
      SplitAtFirst(p, d, after);
      assert p + d + after == p + (d + after);
      SplitLeading(d, p + (d + after));
      assert parts == [p] + parts[1..];
    }
  }

  lemma SplitLeading(d: bytes, rest: bytes)
    requires Delimiter(d)
    ensures SplitOn(d + rest, d) == [[]] + SplitOn(rest, d)
  {
    NothingOccursInEmpty(d);
    SplitAtFirst([], d, rest);
    assert [] + d + rest == d + rest;
  }

  function InterleaveTail(parts: seq<bytes>, d: bytes, tail: bytes): (r: bytes)
    ensures Interleave(parts, d, tail) == d + r
  {
    if parts == [] then tail else parts[0] + Interleave(parts[1..], d, tail)
  }

  lemma NothingOccursInEmpty(d: bytes)
    requires d != []
    ensures !Occurs(d, [])
  {}

  // CRLF "--" boundary
  function DelimiterOf(boundary: string): bytes { Encode("\r\n--" + boundary) }

  lemma {:induction false} EncodeAppend(a: string, b: string)
    ensures Encode(a + b) == Encode(a) + Encode(b)
  {
    hide Utf8Char;
    if a == "" {
      assert a + b == b;
    } else {
      EncodeAppend(a[1..], b);
      assert (a + b)[1..] == a[1..] + b;
    }
  }

  lemma {:induction false} EncodeHasNo13(s: string)
    requires '\r' !in s
    ensures 13 !in Encode(s)
  {
    if s != "" { EncodeHasNo13(s[1..]); }
  }

  lemma DelimiterIsOne(boundary: string)
    requires '\r' !in boundary
    ensures Delimiter(DelimiterOf(boundary))
  {
    var tail := "\n--" + boundary;
    assert "\r\n--" + boundary == "\r" + tail;
    assert ("\r" + tail)[1..] == tail;
    EncodeHasNo13(tail);
    assert DelimiterOf(boundary) == Utf8Char('\r') + Encode(tail);
    assert Utf8Char('\r') == [13];
  }

  // What stands between two delimiters for one field: a line break, the header and the content.
  function Framed(f: Field): bytes { Encode("\r\n") + Encode(Header(f.0, f.1)) + Content(f.1) }

  function AllFramed(fields: seq<Field>): (r: seq<bytes>)
    ensures |r| == |fields|
  {
    seq(|fields|, i requires 0 <= i < |fields| => Framed(fields[i]))
  }

  lemma TailHasNoDelimiter(boundary: string)
    ensures !Occurs(DelimiterOf(boundary), Encode("--\r\n"))
  {
    EncodeLiteral();
    EncodeAppend("\r\n--", boundary);
    hide Encode;
    var t, d := Encode("--\r\n"), DelimiterOf(boundary);
    assert |t| == 4 && t[0] == 45 && |d| >= 4 && d[0] == 13;
    forall i: nat | i <= |t| ensures !StartsWith(t[i..], d) {
      if i == 0 { assert t[i..][..4][0] == 45; }
    }
  }

  lemma EncodeLiteral()
    ensures Encode("--\r\n") == [45, 45, 13, 10]
    ensures Encode("\r\n--") == [13, 10, 45, 45]
    ensures Encode("\r\n") == [13, 10]
  {
    EncodeAppend("--", "\r\n");
    EncodeAppend("\r\n", "--");
    assert "--" + "\r\n" == "--\r\n" && "\r\n" + "--" == "\r\n--";
    assert Encode("--") == [45, 45] by { assert "--"[1..] == "-"; assert "-"[1..] == ""; }
    assert Encode("\r\n") == [13, 10] by { assert "\r\n"[1..] == "\n"; assert "\n"[1..] == ""; }
  }

  // The line break before a delimiter line, and the delimiter line before a line break, are the delimiter.
  lemma DelimiterLines(boundary: string)
    ensures Encode("\r\n") + Opening(boundary) == DelimiterOf(boundary) + Encode("\r\n")
    ensures Encode("\r\n") + Closing(boundary) == DelimiterOf(boundary) + Encode("--\r\n")
  {
    EncodeAppend("\r\n", "--" + boundary + "\r\n");
    EncodeAppend("\r\n--" + boundary, "\r\n");
    assert "\r\n" + ("--" + boundary + "\r\n") == ("\r\n--" + boundary) + "\r\n";
    EncodeAppend("\r\n", "--" + boundary + "--\r\n");
    EncodeAppend("\r\n--" + boundary, "--\r\n");
    assert "\r\n" + ("--" + boundary + "--\r\n") == ("\r\n--" + boundary) + "--\r\n";
  }

  // The parts, each behind its delimiter.
  function Fronts(parts: seq<bytes>, d: bytes): bytes {
    if parts == [] then [] else Fronts(parts[..|parts| - 1], d) + d + parts[|parts| - 1]
  }

  lemma {:induction false} InterleaveFronts(a: seq<bytes>, b: seq<bytes>, d: bytes, tail: bytes)
    ensures Interleave(a + b, d, tail) == Fronts(a, d) + Interleave(b, d, tail)
    decreases |a|
  {
    if a == [] {
      assert a + b == b;
    } else {
      var init, last := a[..|a| - 1], a[|a| - 1];
      InterleaveFronts(init, [last] + b, d, tail);
      assert a + b == init + ([last] + b);
      assert ([last] + b)[1..] == b;
      assert Fronts(init, d) + (d + (last + Interleave(b, d, tail))) ==
          Fronts(init, d) + d + last + Interleave(b, d, tail);
    }
  }

  lemma {:induction false} PartsAreFronts(fields: seq<Field>, boundary: string)
    ensures Encode("\r\n") + PartsBytes(fields, boundary)
         == Fronts(AllFramed(fields), DelimiterOf(boundary)) + Encode("\r\n")
  {
    hide Encode, Header, Content, Opening, DelimiterOf;
    if fields == [] {
      assert AllFramed(fields) == [];
    } else {
      var init, last := fields[..|fields| - 1], fields[|fields| - 1];
      PartsAreFronts(init, boundary);
      DelimiterLines(boundary);
      assert AllFramed(fields)[..|fields| - 1] == AllFramed(init);
      Shuffle(Encode("\r\n"), PartsBytes(init, boundary), Fronts(AllFramed(init), DelimiterOf(boundary)),
              Opening(boundary), DelimiterOf(boundary), Encode(Header(last.0, last.1)), Content(last.1));
    }
  }

  lemma Shuffle(crlf: bytes, parts: bytes, fronts: bytes, opening: bytes, d: bytes, header: bytes, content: bytes)
    requires crlf + parts == fronts + crlf && crlf + opening == d + crlf
    ensures crlf + (parts + (opening + header + content + crlf)) == fronts + d + (crlf + header + content) + crlf
  {
    var rest := header + content + crlf;
    assert crlf + (parts + (opening + header + content + crlf)) == (crlf + parts) + opening + rest;
    assert (fronts + crlf) + opening + rest == fronts + (crlf + opening) + rest;
    assert fronts + (d + crlf) + rest == fronts + d + (crlf + header + content) + crlf;
  }

  // The body after one line break interleaves the parts with the delimiter.
  lemma BodyInterleaves(fields: seq<Field>, boundary: string)
    ensures Encode("\r\n") + BodyBytes(fields, boundary)
         == Interleave(AllFramed(fields), DelimiterOf(boundary), Encode("--\r\n"))
  {
    hide Encode, Opening, Closing, DelimiterOf, Framed, PartsBytes, Fronts, AllFramed;
    var framed, d, tail := AllFramed(fields), DelimiterOf(boundary), Encode("--\r\n");
    PartsAreFronts(fields, boundary);
    DelimiterLines(boundary);
    InterleaveFronts(framed, [], d, tail);
    assert framed + [] == framed;
    assert Interleave([], d, tail) == d + tail;
    hide Interleave;
    Reassociate(Encode("\r\n"), PartsBytes(fields, boundary), Closing(boundary), Fronts(framed, d), d, tail);
  }

  lemma Reassociate(crlf: bytes, parts: bytes, closing: bytes, fronts: bytes, d: bytes, tail: bytes)
    requires crlf + parts == fronts + crlf && crlf + closing == d + tail
    ensures crlf + (parts + closing) == fronts + (d + tail)
  {
    assert crlf + (parts + closing) == (crlf + parts) + closing;
    assert (fronts + crlf) + closing == fronts + (crlf + closing);
  }

  // Main result: when no part contains the delimiter, a reader that cuts the body at the delimiter
  // recovers every header and content in order, and then the closing mark.
  lemma BodyDecodes(fields: seq<Field>, boundary: string)
    requires '\r' !in boundary
    requires forall f | f in fields :: !Occurs(DelimiterOf(boundary), Framed(f))
    ensures |DelimiterOf(boundary)| > 0
    ensures SplitOn(Encode("\r\n") + BodyBytes(fields, boundary), DelimiterOf(boundary))
         == [[]] + AllFramed(fields) + [Encode("--\r\n")]
  {
    hide Encode, DelimiterOf, Framed, BodyBytes;
    DelimiterIsOne(boundary);
    TailHasNoDelimiter(boundary);
    BodyInterleaves(fields, boundary);
    InterleaveSplits(AllFramed(fields), DelimiterOf(boundary), Encode("--\r\n"));
  }

  lemma LongerStartsAlike(a: bytes, b: bytes, d: bytes)
    requires a <= b
    ensures StartsWith(a, d) ==> StartsWith(b, d)
  {
    if StartsWith(a, d) { assert b[..|d|] == a[..|d|]; }
  }

  lemma UncutHead(x: byte, head: bytes, d: bytes, s: bytes)
    requires Delimiter(d) && !Occurs(d, head) && head <= s && !StartsWith([x] + s, d)
    ensures !Occurs(d, [x] + head)
  {
    var longer := [x] + head;
    forall i: nat | i <= |longer| ensures !StartsWith(longer[i..], d) {
      if i == 0 {
        assert longer[0..] == longer && longer <= [x] + s;
        LongerStartsAlike(longer, [x] + s, d);
      } else {
        assert longer[i..] == head[i - 1..];
      }
    }
  }

  // What lies between two cuts has no delimiter left, and the first piece is how the bytes begin.
  lemma {:induction false} PiecesAreUncut(s: bytes, d: bytes)
    requires Delimiter(d)
    ensures SplitOn(s, d)[0] <= s
    ensures forall p | p in SplitOn(s, d) :: !Occurs(d, p)
    decreases |s|
  {
    NothingOccursInEmpty(d);
    if s != [] && StartsWith(s, d) {
      PiecesAreUncut(s[|d|..], d);
    } else if s != [] {
      PiecesAreUncut(s[1..], d);
      var rest := SplitOn(s[1..], d);
      assert [s[0]] + s[1..] == s;
      UncutHead(s[0], rest[0], d, s[1..]);
      assert forall p | p in rest[1..] :: p in rest;
    }
  }

  // And only then: a part that contains the delimiter never comes out in one piece.
  lemma BodyDecodesIff(fields: seq<Field>, boundary: string)
    requires '\r' !in boundary
    ensures |DelimiterOf(boundary)| > 0
    ensures
      SplitOn(Encode("\r\n") + BodyBytes(fields, boundary), DelimiterOf(boundary))
        == [[]] + AllFramed(fields) + [Encode("--\r\n")]
      <==> forall f | f in fields :: !Occurs(DelimiterOf(boundary), Framed(f))
  {
    hide Encode, DelimiterOf, Framed, BodyBytes, SplitOn, Occurs;
    DelimiterIsOne(boundary);
    var d, cut := DelimiterOf(boundary), Encode("\r\n") + BodyBytes(fields, boundary);
    if forall f | f in fields :: !Occurs(d, Framed(f)) {
      BodyDecodes(fields, boundary);
    } else {
      var f :| f in fields && Occurs(d, Framed(f));
      var i :| 0 <= i < |fields| && fields[i] == f;
      PiecesAreUncut(cut, d);
      var expected := [[]] + AllFramed(fields) + [Encode("--\r\n")];
      assert expected[i + 1] == Framed(f) && expected[i + 1] in expected;
    }
  }
}

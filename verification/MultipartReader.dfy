/** A reader of multipart bodies, written from the standards alone: section 5.1 of RFC 2046 for the lines of a part,
    section 4 of RFC 7578 for its header, RFC 3629 for the characters. It gives back what `Multipart` put in. */
module MultipartReader {
  import opened Text
  import opened Multipart

  // ---------------------------------------------------------------------------
  // UTF-8.

  // The code point at the front and how many bytes it takes.
  function FirstPoint(b: bytes): (r: Option<(int, nat)>)
    ensures r.Some? ==> 0 < r.value.1 <= |b|
  {
    if b == [] then None
    else
      var lead := b[0] as int;
      if lead < 128 then Some((lead, 1))
      else if 192 <= lead < 224 && |b| >= 2 then Some(((lead - 192) * 64 + (b[1] as int - 128), 2))
      else if 224 <= lead < 240 && |b| >= 3 then
        Some(((lead - 224) * 4096 + (b[1] as int - 128) * 64 + (b[2] as int - 128), 3))
      else if 240 <= lead < 248 && |b| >= 4 then
        Some(((lead - 240) * 262144 + (b[1] as int - 128) * 4096 + (b[2] as int - 128) * 64 + (b[3] as int - 128), 4))
      else None
  }

  predicate IsScalar(n: int) { 0 <= n < 0xD800 || 0xE000 <= n < 0x11_0000 }

  function Decode(b: bytes): Option<string>
    decreases |b|
  {
    if b == [] then Some("")
    else match FirstPoint(b)
      case None => None
      case Some((n, k)) =>
        match Decode(b[k..])
        case Some(rest) => if IsScalar(n) then Some([n as char] + rest) else None
        case None => None
  }

  lemma FirstPointOfChar(c: char, rest: bytes)
    ensures FirstPoint(Utf8Char(c) + rest) == Some((c as int, |Utf8Char(c)|))
    ensures Utf8Char(c) != []
  {
    var n := c as int;
    assert n < 0x11_0000;
    assert n == n / 64 * 64 + n % 64 && n / 64 == n / 4096 * 64 + n / 64 % 64;
    assert n / 4096 == n / 262144 * 64 + n / 4096 % 64;
  }

  lemma {:induction false} DecodeOfEncode(s: string)
    ensures Decode(Encode(s)) == Some(s)
  {
    if s != "" {
      var c, rest := s[0], Encode(s[1..]);
      DecodeOfEncode(s[1..]);
      FirstPointOfChar(c, rest);
      hide Utf8Char, FirstPoint;
      assert (Utf8Char(c) + rest)[|Utf8Char(c)|..] == rest;
      assert [c] + s[1..] == s;
    }
  }

  // ---------------------------------------------------------------------------
  // Lines of a header.

  // Before and after the first CRLF.
  function FirstBreak(b: bytes): (r: Option<(bytes, bytes)>)
    ensures r.Some? ==> |r.value.1| + 2 <= |b|
    decreases |b|
  {
    if |b| < 2 then None
    else if b[0] == 13 && b[1] == 10 then Some(([], b[2..]))
    else match FirstBreak(b[1..])
      case None => None
      case Some((line, rest)) => Some(([b[0]] + line, rest))
  }

  lemma {:induction false} FirstBreakAt(line: bytes, rest: bytes)
    requires 13 !in line
    ensures FirstBreak(line + [13, 10] + rest) == Some((line, rest))
    decreases |line|
  {
    var b := line + [13, 10] + rest;
    if line == [] {
      assert b[2..] == rest;
    } else {
      FirstBreakAt(line[1..], rest);
      assert b[1..] == line[1..] + [13, 10] + rest && [line[0]] + line[1..] == line;
    }
  }

  // The lines up to an empty one, and what follows that.
  function HeadOf(b: bytes): Option<(seq<string>, bytes)>
    decreases |b|
  {
    match FirstBreak(b)
    case None => None
    case Some((line, rest)) =>
      if line == [] then Some(([], rest))
      else match (Decode(line), HeadOf(rest))
        case (Some(text), Some((lines, content))) => Some(([text] + lines, content))
        case _ => None
  }

  lemma {:induction false} HeadOfNoLines(content: bytes)
    ensures HeadOf([13, 10] + content) == Some(([], content))
  {
    FirstBreakAt([], content);
    assert [] + [13, 10] + content == [13, 10] + content;
  }

  lemma {:induction false} HeadOfLine(line: string, after: bytes)
    requires line != "" && '\r' !in line
    requires HeadOf(after).Some?
    ensures HeadOf(Encode(line + "\r\n") + after) == Some(([line] + HeadOf(after).value.0, HeadOf(after).value.1))
  {
    EncodeLiteral();
    EncodeAppend(line, "\r\n");
    EncodeHasNo13(line);
    DecodeOfEncode(line);
    assert Encode(line) != [] by { FirstPointOfChar(line[0], []); }
    hide Encode, Decode;
    FirstBreakAt(Encode(line), after);
    assert Encode(line + "\r\n") + after == Encode(line) + [13, 10] + after;
  }

  // ---------------------------------------------------------------------------
  // The disposition and the type.

  // Before and after the first quotation mark.
  function UpToQuote(s: string): (r: Option<(string, string)>)
    ensures r.Some? ==> '"' !in r.value.0
  {
    if s == "" then None
    else if s[0] == '"' then Some(("", s[1..]))
    else match UpToQuote(s[1..])
      case None => None
      case Some((text, rest)) => Some(([s[0]] + text, rest))
  }

  lemma {:induction false} UpToQuoteAt(text: string, rest: string)
    requires '"' !in text
    ensures UpToQuote(text + "\"" + rest) == Some((text, rest))
  {
    var s := text + "\"" + rest;
    if text == "" {
      assert s[1..] == rest;
    } else {
      UpToQuoteAt(text[1..], rest);
      assert s[1..] == text[1..] + "\"" + rest && [text[0]] + text[1..] == text;
    }
  }

  function Behind(prefix: string, s: string): Option<string> {
    if prefix <= s then Some(s[|prefix|..]) else None
  }

  // A quoted value behind a prefix, and the rest.
  function Quoted(prefix: string, s: string): (r: Option<(string, string)>)
    ensures r.Some? ==> '"' !in r.value.0
  {
    match Behind(prefix, s) case None => None case Some(t) => UpToQuote(t)
  }

  lemma QuotedAt(prefix: string, text: string, rest: string)
    requires '"' !in text
    ensures Quoted(prefix, prefix + text + "\"" + rest) == Some((text, rest))
  {
    UpToQuoteAt(text, rest);
    var s := prefix + text + "\"" + rest;
    assert s[|prefix|..] == text + "\"" + rest && s[..|prefix|] == prefix;
  }

  // A form field as the reader sees it: an upload has a file name and a type.
  datatype Part = Part(key: string, file: Option<(string, string)>, content: bytes)

  function ReadHead(lines: seq<string>): (r: Option<(string, Option<(string, string)>)>)
    ensures r.Some? ==> '"' !in r.value.0 && (r.value.1.Some? ==> '"' !in r.value.1.value.0)
  {
    if lines == [] then None
    else match Quoted("Content-Disposition: form-data; name=\"", lines[0])
      case None => None
      case Some((key, rest)) =>
        if rest == "" && |lines| == 1 then Some((key, None))
        else if |lines| != 2 then None
        else match (Quoted("; filename=\"", rest), Behind("Content-Type: ", lines[1]))
          case (Some((name, "")), Some(contentType)) => Some((key, Some((name, contentType))))
          case _ => None
  }

  // What stands between two delimiters, behind the line break of the first one.
  function ReadPart(b: bytes): Option<Part> {
    if |b| < 2 || b[0] != 13 || b[1] != 10 then None
    else match HeadOf(b[2..])
      case None => None
      case Some((lines, content)) =>
        match ReadHead(lines)
        case None => None
        case Some((key, file)) => Some(Part(key, file, content))
  }

  // ---------------------------------------------------------------------------
  // What comes back.

  // What the sender means: an unnamed upload is called "upload", an untyped one is a stream of octets.
  function PartOf(f: Field): Part {
    match f.1
    case Plain(text) => Part(f.0, None, Encode(text))
    case Upload(name, contentType, _, chunks) =>
      var file := match name case Some(n) => n case None => "upload";
      var kind := match contentType case Some(t) => if t == "" then "application/octet-stream" else t
                                    case None => "application/octet-stream";
      Part(f.0, Some((file, kind)), Concat(chunks))
  }

  predicate Unquoted(p: Part) { '"' !in p.key && (p.file.Some? ==> '"' !in p.file.value.0) }

  predicate Unbroken(p: Part) {
    '\r' !in p.key && (p.file.Some? ==> '\r' !in p.file.value.0 && '\r' !in p.file.value.1)
  }

  lemma PlainHeaderLines(key: string, v: Value)
    requires v.Plain?
    ensures Header(key, v) == ("Content-Disposition: form-data; name=\"" + key + "\"\r\n") + "\r\n"
  {}

  lemma {:induction false} UploadHeaderLines(key: string, v: Value)
    requires v.Upload?
    ensures Header(key, v) ==
        ("Content-Disposition: form-data; name=\"" + key + "\"; filename=\"" + FileName(v) + "\"\r\n")
        + (("Content-Type: " + ContentType(v) + "\r\n") + "\r\n")
  {
    assert "\"\r\nContent-Type: " == "\"\r\n" + "Content-Type: " && "\r\n\r\n" == "\r\n" + "\r\n";
  }

  lemma {:induction false} PlainFramed(key: string, text: string)
    ensures
      var line := "Content-Disposition: form-data; name=\"" + key + "\"";
      Framed((key, Plain(text))) == [13, 10] + (Encode(line + "\r\n") + [13, 10]) + Encode(text)
  {
    var line := "Content-Disposition: form-data; name=\"" + key + "\"";
    PlainHeaderLines(key, Plain(text));
    assert Header(key, Plain(text)) == (line + "\r\n") + "\r\n";
    EncodeAppend(line + "\r\n", "\r\n");
    EncodeLiteral();
    hide Encode, Header;
  }

  lemma {:induction false} UploadFramed(key: string, v: Value)
    requires v.Upload?
    ensures
      var line := "Content-Disposition: form-data; name=\"" + key + "\"" + ("; filename=\"" + FileName(v) + "\"");
      var second := "Content-Type: " + ContentType(v);
      Framed((key, v)) ==
        [13, 10] + (Encode(line + "\r\n") + (Encode(second + "\r\n") + [13, 10])) + Concat(v.chunks)
  {
    hide Encode, FileName, ContentType, Concat;
    var line := "Content-Disposition: form-data; name=\"" + key + "\"" + ("; filename=\"" + FileName(v) + "\"");
    var second := "Content-Type: " + ContentType(v);
    UploadHeaderLines(key, v);
    assert Header(key, v) == (line + "\r\n") + ((second + "\r\n") + "\r\n");
    hide Header;
    EncodeAppend(line + "\r\n", (second + "\r\n") + "\r\n");
    EncodeAppend(second + "\r\n", "\r\n");
    EncodeLiteral();
  }

  lemma {:induction false} PlainIsReadBack(key: string, text: string)
    requires '"' !in key && '\r' !in key
    ensures ReadPart(Framed((key, Plain(text)))) == Some(Part(key, None, Encode(text)))
  {
    hide Encode, Framed;
    var line := "Content-Disposition: form-data; name=\"" + key + "\"";
    var content := Encode(text);
    PlainFramed(key, text);
    var framed := Framed((key, Plain(text)));
    assert framed[2..] == Encode(line + "\r\n") + ([13, 10] + content);
    HeadOfNoLines(content);
    HeadOfLine(line, [13, 10] + content);
    QuotedAt("Content-Disposition: form-data; name=\"", key, "");
    assert "Content-Disposition: form-data; name=\"" + key + "\"" + "" == line;
    hide Quoted, HeadOf;
  }

  lemma {:induction false} UploadIsReadBack(key: string, v: Value)
    requires v.Upload? && Unquoted(PartOf((key, v))) && Unbroken(PartOf((key, v)))
    ensures ReadPart(Framed((key, v))) == Some(PartOf((key, v)))
  {
    var name, kind, content := FileName(v), ContentType(v), Concat(v.chunks);
    assert PartOf((key, v)) == Part(key, Some((name, kind)), content);
    var line := "Content-Disposition: form-data; name=\"" + key + "\"" + ("; filename=\"" + name + "\"");
    var second := "Content-Type: " + kind;
    assert '\r' !in line && '\r' !in second by { NoReturns(key, name, kind); }
    UploadFramed(key, v);
    hide *;
    FramedByLines(Framed((key, v)), Encode(line + "\r\n"), Encode(second + "\r\n"), content);
    HeadOfUpload(line, second, content);
    HeadIsRead(key, name, kind);
    PartFrom(Framed((key, v)), [line, second], content, key, Some((name, kind)));
  }

  lemma NoReturns(key: string, name: string, kind: string)
    requires '\r' !in key && '\r' !in name && '\r' !in kind
    ensures '\r' !in "Content-Disposition: form-data; name=\"" + key + "\"" + ("; filename=\"" + name + "\"")
    ensures '\r' !in "Content-Type: " + kind
  {}

  lemma PartFrom(b: bytes, lines: seq<string>, content: bytes, key: string, file: Option<(string, string)>)
    requires |b| >= 2 && b[0] == 13 && b[1] == 10
    requires HeadOf(b[2..]) == Some((lines, content)) && ReadHead(lines) == Some((key, file))
    ensures ReadPart(b) == Some(Part(key, file, content))
  {
    hide HeadOf, ReadHead;
  }

  lemma {:induction false} HeadOfUpload(line: string, second: string, content: bytes)
    requires line != "" && '\r' !in line && second != "" && '\r' !in second
    ensures HeadOf(Encode(line + "\r\n") + (Encode(second + "\r\n") + ([13, 10] + content))) ==
        Some(([line, second], content))
  {
    HeadOfNoLines(content);
    HeadOfLine(second, [13, 10] + content);
    HeadOfLine(line, Encode(second + "\r\n") + ([13, 10] + content));
    hide HeadOf, Encode;
    assert [line] + ([second] + []) == [line, second];
  }

  lemma FramedByLines(framed: bytes, first: bytes, second: bytes, content: bytes)
    requires framed == [13, 10] + (first + (second + [13, 10])) + content
    ensures |framed| >= 2 && framed[0] == 13 && framed[1] == 10
    ensures framed[2..] == first + (second + ([13, 10] + content))
  {
    assert framed == [13, 10] + (first + (second + ([13, 10] + content)));
  }

  lemma {:induction false} HeadIsRead(key: string, name: string, kind: string)
    requires '"' !in key && '"' !in name
    ensures
      var line := "Content-Disposition: form-data; name=\"" + key + "\"" + ("; filename=\"" + name + "\"");
      ReadHead([line, "Content-Type: " + kind]) == Some((key, Some((name, kind))))
  {
    var tail := "; filename=\"" + name + "\"";
    QuotedAt("Content-Disposition: form-data; name=\"", key, tail);
    QuotedAt("; filename=\"", name, "");
    assert "; filename=\"" + name + "\"" + "" == tail;
    var second := "Content-Type: " + kind;
    assert second[|"Content-Type: "|..] == kind && second[..|"Content-Type: "|] == "Content-Type: ";
    hide Quoted;
  }

  // One field is read back with its key, its file name and type, and its bytes, unless a quotation mark or a carriage
  // return stands in the header; a quotation mark is never read back, since nothing escapes it.
  lemma {:induction false} PartIsReadBack(f: Field)
    requires Unbroken(PartOf(f))
    ensures ReadPart(Framed(f)) == Some(PartOf(f)) <==> Unquoted(PartOf(f))
    ensures f.1.Plain? ==> Decode(PartOf(f).content) == Some(f.1.text)
  {
    if f.1.Plain? { DecodeOfEncode(f.1.text); }
    if Unquoted(PartOf(f)) {
      if f.1.Plain? { PlainIsReadBack(f.0, f.1.text); } else { UploadIsReadBack(f.0, f.1); }
    }
    hide Framed, HeadOf, Encode, Decode;
  }

  lemma Shelled(parts: seq<bytes>, tail: bytes)
    ensures
      var pieces := [[]] + parts + [tail];
      && |pieces| == |parts| + 2 && pieces[0] == [] && pieces[|parts| + 1] == tail
      && forall i | 0 <= i < |parts| :: pieces[i + 1] == parts[i]
  {}

  // Main result: cutting the body at its delimiters and reading the pieces gives back every field that was sent, in
  // order, and nothing else, when no part contains the delimiter.
  lemma {:induction false} BodyIsReadBack(fields: seq<Field>, boundary: string)
    requires '\r' !in boundary
    requires forall f | f in fields :: !Occurs(DelimiterOf(boundary), Framed(f))
    requires forall f | f in fields :: Unquoted(PartOf(f)) && Unbroken(PartOf(f))
    ensures |DelimiterOf(boundary)| > 0
    ensures
      var pieces := SplitOn(Encode("\r\n") + BodyBytes(fields, boundary), DelimiterOf(boundary));
      && |pieces| == |fields| + 2 && pieces[0] == [] && pieces[|fields| + 1] == Encode("--\r\n")
      && forall i | 0 <= i < |fields| :: ReadPart(pieces[i + 1]) == Some(PartOf(fields[i]))
  {
    assert forall i | 0 <= i < |fields| :: AllFramed(fields)[i] == Framed(fields[i]);
    hide *;
    BodyDecodes(fields, boundary);
    Shelled(AllFramed(fields), Encode("--\r\n"));
    var pieces := SplitOn(Encode("\r\n") + BodyBytes(fields, boundary), DelimiterOf(boundary));
    forall i | 0 <= i < |fields| ensures ReadPart(pieces[i + 1]) == Some(PartOf(fields[i])) {
      assert fields[i] in fields && pieces[i + 1] == AllFramed(fields)[i];
      PartIsReadBack(fields[i]);
    }
  }
}

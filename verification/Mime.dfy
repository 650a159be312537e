/**
 The emulator's builder of inbound mail. The reader beside it is written from section 5.1.1 of RFC 2046
 (multipart bodies), section 6.8 of RFC 2045 (base64 bodies) and RFC 2047 (encoded words). Every string is
 the UTF-8 bytes of the source's, one character each.
 */
module Mime {
  import opened Options
  import opened Text
  import opened Base64
  import opened EncodedWord

  const CRLF := "\r\n"
  const MAX_LINE := 76

  datatype Attachment = Attachment(filename: Bytes, contentType: Bytes, content: Bytes)

  /** An absent html body is the empty one. */
  datatype Form = Form(from: Bytes, to: Bytes, subject: Bytes, text: Bytes, html: Bytes, attachment: Option<Attachment>)

  /** The random and clock values one message is built with. */
  datatype Stamp = Stamp(boundaryId: Bytes, messageId: Bytes, date: Bytes)

  /** No line break, that is CR and LF together (section 2.2 of RFC 5322). */
  predicate OneLine(s: string) {
    forall i :: 0 <= i < |s| - 1 ==> !(s[i] == '\r' && s[i + 1] == '\n')
  }

  lemma OneLineJoins(a: string, b: string)
    requires OneLine(a) && OneLine(b) && (a == "" || b == "" || a[|a| - 1] != '\r' || b[0] != '\n')
    ensures OneLine(a + b)
  {
    var s := a + b;
    forall i | 0 <= i < |s| - 1
      ensures !(s[i] == '\r' && s[i + 1] == '\n')
    {
      if i + 1 < |a| {
        assert s[i] == a[i] && s[i + 1] == a[i + 1];
      } else if i >= |a| {
        assert s[i] == b[i - |a|] && s[i + 1] == b[i + 1 - |a|];
      }
    }
  }

  predicate IsUuid(s: string) {
    forall i :: 0 <= i < |s| ==> '0' <= s[i] <= '9' || 'a' <= s[i] <= 'f' || s[i] == '-'
  }

  /******* Lines *******/

  function JoinLines(lines: seq<string>): string {
    if |lines| == 0 then ""
    else if |lines| == 1 then lines[0]
    else lines[0] + CRLF + JoinLines(lines[1..])
  }

  function BreakAt(raw: string): (i: nat)
    ensures i <= |raw|
    ensures i < |raw| ==> i + 2 <= |raw|
  {
    if raw == "" || StartsWith(raw, CRLF) then 0 else 1 + BreakAt(raw[1..])
  }

  lemma BreaksFirst(raw: string)
    ensures StartsWith(raw, CRLF) <==> |raw| >= 2 && raw[0] == '\r' && raw[1] == '\n'
  {
    if |raw| >= 2 && raw[0] == '\r' && raw[1] == '\n' {
      assert raw[..2] == CRLF;
    }
  }

  function SplitLines(raw: string): seq<string>
    decreases |raw|
  {
    var i := BreakAt(raw);
    if i == |raw| then [raw] else [raw[..i]] + SplitLines(raw[i + 2..])
  }

  lemma {:induction false} BreakAtEnd(line: string)
    requires OneLine(line)
    ensures BreakAt(line) == |line|
    decreases line
  {
    if line != "" {
      BreaksFirst(line);
      BreakAtEnd(line[1..]);
    }
  }

  lemma {:induction false} BreakAfterLine(line: string, rest: string)
    requires OneLine(line)
    ensures BreakAt(line + CRLF + rest) == |line|
    decreases line
  {
    var raw := line + CRLF + rest;
    if line == "" {
      assert raw[..2] == CRLF;
    } else {
      assert raw[0] == line[0] && raw[1] == if |line| > 1 then line[1] else '\r';
      BreaksFirst(raw);
      assert raw[1..] == line[1..] + CRLF + rest;
      BreakAfterLine(line[1..], rest);
    }
  }

  /** Splitting undoes joining lines that hold no line break themselves. */
  lemma {:induction false} SplitJoin(lines: seq<string>)
    requires lines != [] && forall i :: 0 <= i < |lines| ==> OneLine(lines[i])
    ensures SplitLines(JoinLines(lines)) == lines
    decreases lines
  {
    if |lines| == 1 {
      BreakAtEnd(lines[0]);
    } else {
      var rest := JoinLines(lines[1..]);
      BreakAfterLine(lines[0], rest);
      var raw := lines[0] + CRLF + rest;
      assert raw[..|lines[0]|] == lines[0] && raw[|lines[0]| + 2..] == rest;
      SplitJoin(lines[1..]);
    }
  }

  lemma {:induction false} JoinAppend(a: seq<string>, b: seq<string>)
    requires a != [] && b != []
    ensures JoinLines(a + b) == JoinLines(a) + CRLF + JoinLines(b)
    decreases a
  {
    if |a| == 1 {
      assert (a + b)[1..] == b;
    } else {
      JoinAppend(a[1..], b);
      assert (a + b)[1..] == a[1..] + b;
      assert Rejoins(a[0], JoinLines(a[1..]), JoinLines(b));
    }
  }

  ghost predicate Rejoins(x: string, y: string, z: string) {
    x + CRLF + (y + CRLF + z) == (x + CRLF + y) + CRLF + z
  }

  /** A pushed entry that is itself several joined lines counts as those lines. */
  lemma JoinFlattens(a: seq<string>, c: seq<string>, b: seq<string>)
    requires a != [] && b != [] && c != []
    ensures JoinLines(a + [JoinLines(c)] + b) == JoinLines(a + c + b)
  {
    JoinAppend(a + [JoinLines(c)], b);
    JoinAppend(a, [JoinLines(c)]);
    JoinAppend(a + c, b);
    JoinAppend(a, c);
  }

  /******* Folding *******/

  /** Every run of up to 76 characters followed by a line break. */
  function Wrapped(s: string): string {
    if s == "" then "" else if |s| <= MAX_LINE then s + CRLF else s[..MAX_LINE] + CRLF + Wrapped(s[MAX_LINE..])
  }

  function Folded(s: string): string {
    Trim(Wrapped(s))
  }

  function Chunks(s: string): (r: seq<string>)
    ensures r != []
  {
    if |s| <= MAX_LINE then [s] else [s[..MAX_LINE]] + Chunks(s[MAX_LINE..])
  }

  function Concat(lines: seq<string>): string {
    if lines == [] then "" else lines[0] + Concat(lines[1..])
  }

  /** Lines of at most 76 characters that join to the text they were cut from. */
  lemma {:induction false} ChunksAre(s: string)
    ensures Concat(Chunks(s)) == s
    ensures forall i :: 0 <= i < |Chunks(s)| ==> |Chunks(s)[i]| <= 76
    ensures forall i :: 0 <= i < |Chunks(s)| - 1 ==> |Chunks(s)[i]| == 76
    ensures forall i, j :: 0 <= i < |Chunks(s)| && 0 <= j < |Chunks(s)[i]| ==> Chunks(s)[i][j] in s
    decreases |s|
  {
    if |s| <= MAX_LINE {
      assert Concat([s]) == s + Concat([s][1..]);
    } else {
      ChunksAre(s[MAX_LINE..]);
      var rest := Chunks(s[MAX_LINE..]);
      assert ([s[..MAX_LINE]] + rest)[1..] == rest;
      assert s == s[..MAX_LINE] + s[MAX_LINE..];
    }
  }

  lemma {:induction false} WrappedIsJoined(s: string)
    requires s != ""
    ensures Wrapped(s) == JoinLines(Chunks(s)) + CRLF
    ensures JoinLines(Chunks(s)) != "" && JoinLines(Chunks(s))[0] == s[0]
    ensures JoinLines(Chunks(s))[|JoinLines(Chunks(s))| - 1] == s[|s| - 1]
    decreases |s|
  {
    if |s| > MAX_LINE {
      WrappedIsJoined(s[MAX_LINE..]);
      var rest := Chunks(s[MAX_LINE..]);
      assert ([s[..MAX_LINE]] + rest)[1..] == rest;
    }
  }

  lemma TrimBreak(s: string)
    requires s != "" && !IsSpace(s[0]) && !IsSpace(s[|s| - 1])
    ensures Trim(s + CRLF) == s
  {
    var all := s + CRLF;
    assert TrimStart(all) == all;
    assert all[..|all| - 1] == s + "\r";
    assert TrimEnd(all) == TrimEnd(s + "\r");
    assert (s + "\r")[..|s|] == s;
    assert TrimEnd(s + "\r") == TrimEnd(s);
  }

  /** Folding a text with no white space cuts it into lines of 76 and leaves no trailing break. */
  lemma FoldedIsJoined(s: string)
    requires forall i :: 0 <= i < |s| ==> !IsSpace(s[i])
    ensures Folded(s) == JoinLines(Chunks(s))
  {
    if s != "" {
      WrappedIsJoined(s);
      TrimBreak(JoinLines(Chunks(s)));
    }
  }

  /******* Headers *******/

  function EncodeHeader(value: Bytes): string {
    if Printable(value) then value else WordFor(value)
  }

  /** The one encoded word a value becomes. */
  function WordFor(value: Bytes): string {
    "=?UTF-8?B?" + Encode(value) + "?="
  }

  lemma EncodedText(value: Bytes)
    requires value != ""
    ensures Encode(value) != "" && '?' !in Encode(value) && Visible(Encode(value))
  {
    EncodedShape(value);
  }

  /** Printable without blanks. */
  predicate Visible(s: string) {
    forall i :: 0 <= i < |s| ==> '!' <= s[i] <= '~'
  }

  lemma VisibleParts(a: string, b: string)
    requires Visible(a) && Visible(b)
    ensures Visible(a + b)
  {
  }

  lemma WordParts(text: string)
    ensures "=?UTF-8?B?" + text + "?=" == "=?" + ("UTF-8" + (['?'] + ("B" + (['?'] + text)))) + "?="
  {
  }

  lemma WordIsVisible(value: Bytes)
    requires value != ""
    ensures Visible(WordFor(value))
  {
    EncodedText(value);
    VisibleParts("=?UTF-8?B?", Encode(value));
    VisibleParts("=?UTF-8?B?" + Encode(value), "?=");
  }

  lemma WordForIs(value: Bytes)
    requires value != ""
    ensures WordValue(WordFor(value)) == Some(value)
  {
    EncodedText(value);
    NamesFit();
    WordOf("UTF-8", "B", Encode(value));
    WordParts(Encode(value));
    DecodeEncode(value);
  }

  lemma NamesFit()
    ensures KnownCharset("UTF-8") && '?' !in "UTF-8" && '?' !in "B" && Lower("B") == "b"
  {
    assert Lower("UTF-8") == "utf-8";
  }

  /** A built header is one line of printable ASCII, whatever its value. */
  lemma EncodedHeaderIsPrintable(value: Bytes)
    ensures Printable(EncodeHeader(value)) && OneLine(EncodeHeader(value))
  {
    if !Printable(value) {
      WordIsVisible(value);
    }
  }

  /** It reads back as the value just when the value is not printable text with an encoded word in it. */
  lemma HeaderRoundTrip(value: Bytes)
    ensures ReadText(EncodeHeader(value)) == value <==> !(Printable(value) && HasWord(value))
  {
    if Printable(value) {
      ReadsAsItself(value);
    } else {
      WordForIs(value);
      WordIsVisible(value);
      ReadsWord(WordFor(value));
    }
  }

  /******* Building *******/

  function Boundary(stamp: Stamp): Bytes {
    "----local-" + stamp.boundaryId
  }

  datatype Header = Header(name: string, value: string)

  function Field(h: Header): string {
    h.name + ": " + h.value
  }

  function Fields(headers: seq<Header>): (r: seq<string>)
    ensures |r| == |headers|
    ensures forall i :: 0 <= i < |headers| ==> r[i] == Field(headers[i])
  {
    seq(|headers|, i requires 0 <= i < |headers| => Field(headers[i]))
  }

  const TYPE := "Content-Type"
  const DISPOSITION := "Content-Disposition"
  const ENCODING := "Content-Transfer-Encoding"
  const PLAIN := "text/plain"
  const HTML := "text/html"
  const MIXED := "multipart/mixed"

  function TopHeaders(form: Form, stamp: Stamp): seq<Header> {
    [Header("From", form.from), Header("To", form.to), Header("Subject", EncodeHeader(form.subject)),
     Header("Message-ID", "<" + stamp.messageId + "@local-ses-sns>"), Header("Date", stamp.date),
     Header("MIME-Version", "1.0"), Header(TYPE, MIXED + Quoted("boundary", Boundary(stamp)))]
  }

  /** A parameter, its value between quotes just as it is. */
  function Quoted(key: string, value: string): string {
    "; " + key + "=\"" + (value + "\"")
  }

  function BodyHeaders(mediaType: string): seq<Header> {
    [Header(TYPE, mediaType + Quoted("charset", "utf-8")), Header(ENCODING, "base64")]
  }

  function AttachmentHeaders(a: Attachment): seq<Header> {
    [Header(TYPE, a.contentType + Quoted("name", a.filename)),
     Header(DISPOSITION, "attachment" + Quoted("filename", a.filename)), Header(ENCODING, "base64")]
  }

  /** One part: its headers, an empty line and the lines of its body. */
  function Section(headers: seq<Header>, body: seq<string>): seq<string> {
    Fields(headers) + [""] + body
  }

  function Sections(form: Form): seq<seq<string>> {
    FirstSections(form) +
    (match form.attachment
     case None => []
     case Some(a) => [Section(AttachmentHeaders(a), Chunks(Encode(a.content)))])
  }

  function FirstSections(form: Form): seq<seq<string>> {
    [Section(BodyHeaders(PLAIN), [Encode(form.text)])] +
    (if form.html != "" then [Section(BodyHeaders(HTML), [Encode(form.html)])] else [])
  }

  /** Parts between delimiter lines, closed by the last. */
  function Delimited(sections: seq<seq<string>>, boundary: string): seq<string> {
    if sections == [] then ["--" + boundary + "--", ""]
    else ["--" + boundary] + sections[0] + Delimited(sections[1..], boundary)
  }

  function Lines(form: Form, stamp: Stamp): seq<string> {
    Fields(TopHeaders(form, stamp)) + [""] + Delimited(Sections(form), Boundary(stamp))
  }

  /** The builder: one growing list of lines, joined at the end. */
  method BuildMime(form: Form, stamp: Stamp) returns (raw: string)
    ensures raw == JoinLines(Lines(form, stamp))
  {
    var boundary := Boundary(stamp);
    var lines := Fields(TopHeaders(form, stamp)) + [""] +
                 (["--" + boundary] + Fields(BodyHeaders(PLAIN)) + ["", Encode(form.text)]);
    if form.html != "" {
      lines := lines + (["--" + boundary] + Fields(BodyHeaders(HTML)) + ["", Encode(form.html)]);
    }
    assert lines == Start(form, stamp) by {
      OpenedFirst(form, boundary);
    }
    if form.attachment.Some? {
      var a := form.attachment.value;
      lines := lines + (["--" + boundary] + Fields(AttachmentHeaders(a)) + [""]) + [Folded(Encode(a.content))];
      FoldedLines(form, stamp);
    } else {
      LinesWithoutAttachment(form, stamp);
    }
    lines := lines + ["--" + boundary + "--", ""];
    raw := JoinLines(lines);
  }

  /** The lines up to where an attachment would begin. */
  function Start(form: Form, stamp: Stamp): seq<string> {
    Fields(TopHeaders(form, stamp)) + [""] + Opened(FirstSections(form), Boundary(stamp))
  }

  lemma FoldedLines(form: Form, stamp: Stamp)
    requires form.attachment.Some?
    ensures var a := form.attachment.value;
            var boundary := Boundary(stamp);
            JoinLines(Start(form, stamp) + (["--" + boundary] + Fields(AttachmentHeaders(a)) + [""]) +
                      [Folded(Encode(a.content))] + ["--" + boundary + "--", ""]) ==
            JoinLines(Lines(form, stamp))
  {
    var a := form.attachment.value;
    var boundary := Boundary(stamp);
    EncodedShape(a.content);
    FoldedIsJoined(Encode(a.content));
    JoinFlattens(Start(form, stamp) + (["--" + boundary] + Fields(AttachmentHeaders(a)) + [""]),
                 Chunks(Encode(a.content)), ["--" + boundary + "--", ""]);
    LinesWithAttachment(form, stamp);
  }

  /** Parts each after a delimiter line, not closed yet. */
  function Opened(sections: seq<seq<string>>, boundary: string): seq<string> {
    if sections == [] then [] else ["--" + boundary] + sections[0] + Opened(sections[1..], boundary)
  }

  lemma OpenedFirst(form: Form, boundary: string)
    ensures Opened(FirstSections(form), boundary) ==
            (["--" + boundary] + Fields(BodyHeaders(PLAIN)) + ["", Encode(form.text)]) +
            if form.html != "" then ["--" + boundary] + Fields(BodyHeaders(HTML)) + ["", Encode(form.html)] else []
  {
    var text, html := Section(BodyHeaders(PLAIN), [Encode(form.text)]), Section(BodyHeaders(HTML), [Encode(form.html)]);
    OpenedOne(text, boundary);
    OpenedOne(html, boundary);
    var sections := FirstSections(form);
    if form.html != "" {
      assert sections[1..] == [html];
    } else {
      assert sections[1..] == [];
    }
  }

  lemma OpenedOne(section: seq<string>, boundary: string)
    ensures Opened([section], boundary) == ["--" + boundary] + section
  {
    assert [section][1..] == [];
  }

  lemma {:induction false} DelimitedAppend(a: seq<seq<string>>, b: seq<seq<string>>, boundary: string)
    ensures Delimited(a + b, boundary) == Opened(a, boundary) + Delimited(b, boundary)
    decreases a
  {
    if a == [] {
      assert a + b == b;
    } else {
      assert (a + b)[1..] == a[1..] + b;
      DelimitedAppend(a[1..], b, boundary);
    }
  }

  /** The last part, closed: its headers, an empty line, its body and the last delimiter. */
  lemma LastPart(top: seq<string>, first: seq<seq<string>>, headers: seq<string>, body: seq<string>, boundary: string)
    ensures top + Delimited(first + [headers + [""] + body], boundary) ==
            top + Opened(first, boundary) + (["--" + boundary] + headers + [""]) + body + ["--" + boundary + "--", ""]
  {
    var last := headers + [""] + body;
    DelimitedAppend(first, [last], boundary);
    assert [last][1..] == [];
  }

  lemma LinesWithAttachment(form: Form, stamp: Stamp)
    requires form.attachment.Some?
    ensures var a := form.attachment.value;
            var boundary := Boundary(stamp);
            Lines(form, stamp) ==
              Start(form, stamp) + (["--" + boundary] + Fields(AttachmentHeaders(a)) + [""]) +
              Chunks(Encode(a.content)) + ["--" + boundary + "--", ""]
  {
    var a := form.attachment.value;
    LastPart(Fields(TopHeaders(form, stamp)) + [""], FirstSections(form), Fields(AttachmentHeaders(a)),
             Chunks(Encode(a.content)), Boundary(stamp));
  }

  lemma LinesWithoutAttachment(form: Form, stamp: Stamp)
    requires form.attachment.None?
    ensures Lines(form, stamp) ==
            Start(form, stamp) + ["--" + Boundary(stamp) + "--", ""]
  {
    DelimitedAppend(FirstSections(form), [], Boundary(stamp));
    assert FirstSections(form) + [] == Sections(form);
  }
}
